/** The two operations the driver uses of a MicroPython `machine.I2C` handle,
    `readfrom_mem` and `writeto_mem`, over a bus with one device attached:
    the device's register map and a log of the transactions issued. */
module I2c {
  import opened Bytes
  import opened Exceptions

  /** Register addresses are 8-bit, so the map has 256 entries. */
  const RegisterCount := 256

  /** One bus transaction, as the log records it. */
  datatype Transaction =
    | ReadMem(addr: int, reg: int, nbytes: nat)
    | WriteMem(addr: int, reg: int, bytes: seq<Byte>)

  /** A Python object handed to `writeto_mem` as its buffer: only objects
      with the buffer protocol are accepted, a plain integer is not. */
  datatype PyValue = Int(i: int) | Buffer(bytes: seq<Byte>)

  /** s with the bytes of b stored from register reg on, as an auto-incrementing write leaves it. */
  function Overwrite(s: seq<Byte>, reg: nat, b: seq<Byte>): (r: seq<Byte>)
    requires reg + |b| <= |s|
    ensures |r| == |s|
    ensures r[..reg] == s[..reg]
    ensures r[reg..reg + |b|] == b
    ensures r[reg + |b|..] == s[reg + |b|..]
  {
    seq(|s|, j requires 0 <= j < |s| => if reg <= j < reg + |b| then b[j - reg] else s[j])
  }

  /** A one-byte write changes that register alone. */
  lemma OverwriteOne(s: seq<Byte>, reg: nat, v: Byte)
    requires reg < |s|
    ensures Overwrite(s, reg, [v]) == s[reg := v]
  {
  }

  class Bus {
    /** The 7-bit address the attached device answers to. */
    const address: int
    /** The attached device's register map. */
    const regs: array<Byte>
    /** Every transaction issued on the bus, oldest first. */
    var log: seq<Transaction>

    ghost predicate Valid()
      reads this
    {
      regs.Length == RegisterCount
    }

    constructor (address: int, init: seq<Byte>)
      requires |init| == RegisterCount
      ensures Valid() && fresh(regs)
      ensures this.address == address && regs[..] == init && log == []
    {
      this.address := address;
      regs := new Byte[RegisterCount](j requires 0 <= j < RegisterCount => init[j]);
      log := [];
    }

    /** `readfrom_mem(addr, reg, nbytes)`: one transaction returning nbytes
        consecutive registers from reg on (the device auto-increments). */
    method ReadFromMem(addr: int, reg: nat, nbytes: int) returns (data: seq<Byte>)
      requires Valid()
      requires addr == address && 1 <= nbytes && reg + nbytes <= RegisterCount
      modifies this`log
      ensures data == regs[reg..reg + nbytes]
      ensures log == old(log) + [ReadMem(addr, reg, nbytes)]
    {
      data := regs[reg..reg + nbytes];
      log := log + [ReadMem(addr, reg, nbytes)];
    }

    /** `writeto_mem(addr, reg, buf)`: a buffer is stored from reg on in one
        transaction; any other object raises TypeError before the bus is touched. */
    method WriteToMem(addr: int, reg: int, buf: PyValue) returns (r: Outcome)
      requires Valid()
      requires buf.Buffer? ==> addr == address && 0 <= reg && reg + |buf.bytes| <= RegisterCount
      modifies this`log, regs
      ensures r == if buf.Buffer? then Pass else Fail(TypeError)
      ensures buf.Buffer? ==> regs[..] == Overwrite(old(regs[..]), reg, buf.bytes)
      ensures buf.Buffer? ==> log == old(log) + [WriteMem(addr, reg, buf.bytes)]
      ensures buf.Int? ==> regs[..] == old(regs[..]) && log == old(log)
    {
      if buf.Int? {
        return Fail(TypeError);
      }
      DeviceStore(reg, buf.bytes);
      log := log + [WriteMem(addr, reg, buf.bytes)];
      r := Pass;
    }

    /** The device storing bytes into its own registers from reg on; a write
        transaction does this, and so does the device when a new measurement
        is ready. It issues no bus transaction. */
    method DeviceStore(reg: nat, b: seq<Byte>)
      requires Valid() && reg + |b| <= RegisterCount
      modifies regs
      ensures regs[..] == Overwrite(old(regs[..]), reg, b)
    {
      forall j | reg <= j < reg + |b| {
        regs[j] := b[j - reg];
      }
    }
  }
}
