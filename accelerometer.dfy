/** The accelerometer driver script: register access at a fixed device
    address, the bring-up sequence that enables measurement, and the
    sampling step that reads and decodes the three axes. */
module Accelerometer {
  import opened Bits
  import opened Bytes
  import opened Exceptions
  import opened Struct
  import opened I2c

  /** Bus address of the accelerometer. */
  const DeviceAddress := 0x53
  /** Identity register and the identity it must hold. */
  const RegDevId := 0x00
  const DevId: Byte := 0xE5
  /** Power-control register and its measure bit. */
  const RegPowerCtl := 0x2D
  const MeasureBit := 3
  /** First of the six axis-data registers (X low, X high, Y low, Y high, Z low, Z high). */
  const RegDataX0 := 0x32
  const SampleSize := 6

  // ---------------------------------------------------------------------
  // Register access

  /** `reg_read`: a count below one yields an empty buffer and touches no bus;
      otherwise one read of nbytes at (addr, reg), returned unchanged. */
  method RegRead(bus: Bus, addr: int, reg: int, nbytes: int := 1) returns (data: seq<Byte>)
    requires bus.Valid()
    requires nbytes >= 1 ==> addr == bus.address && 0 <= reg && reg + nbytes <= RegisterCount
    modifies bus`log
    ensures nbytes < 1 ==> data == [] && bus.log == old(bus.log)
    ensures nbytes >= 1 ==> data == bus.regs[reg..reg + nbytes]
    ensures nbytes >= 1 ==> bus.log == old(bus.log) + [ReadMem(addr, reg, nbytes)]
  {
    if nbytes < 1 {
      return [];
    }
    data := bus.ReadFromMem(addr, reg, nbytes);
  }

  /** `reg_write`, with the one-byte buffer `msg` handed to the bus. Appending
      to a MicroPython bytearray keeps the low byte of the value, so register reg
      is set to data modulo 256 and no other register changes. */
  method RegWrite(bus: Bus, addr: int, reg: int, data: int) returns (r: Outcome)
    requires bus.Valid()
    requires addr == bus.address && 0 <= reg < RegisterCount
    modifies bus, bus.regs
    ensures bus.Valid()
    ensures r == Pass
    ensures bus.regs[..] == old(bus.regs[..])[reg := data % 256]
    ensures bus.log == old(bus.log) + [WriteMem(addr, reg, [data % 256])]
  {
    var msg: seq<Byte> := [data % 256];
    r := bus.WriteToMem(addr, reg, Buffer(msg));
    OverwriteOne(old(bus.regs[..]), reg, data % 256);
  }

  /** `reg_write` exactly as written: `msg` is built, but the integer data
      reaches `writeto_mem`, which accepts only buffers, so every call raises
      TypeError and nothing is written. */
  method RegWriteAsWritten(bus: Bus, addr: int, reg: int, data: int) returns (r: Outcome)
    requires bus.Valid()
    modifies bus, bus.regs
    ensures r == Fail(TypeError)
    ensures bus.regs[..] == old(bus.regs[..]) && bus.log == old(bus.log)
  {
    var msg: seq<Byte> := [data % 256];
    r := bus.WriteToMem(addr, reg, Int(data));
  }

  // ---------------------------------------------------------------------
  // Bring-up

  /** The new power-control value: the register as read, converted with
      `int.from_bytes(data, "big")`, with the measure bit ORed in. */
  function EnableMeasure(data: seq<Byte>): (r: nat)
    ensures Bit(r, MeasureBit)
    ensures FromBytesBig(data) <= r
    ensures |data| == 1 ==> r < 256
  {
    var v := FromBytesBig(data);
    OrBit(v, Pow2(MeasureBit), MeasureBit);
    BitOfPow2(MeasureBit, MeasureBit);
    if |data| == 1 then
      assert Pow2(8) == 256;
      OrBound(v, Pow2(MeasureBit), 8);
      Or(v, Pow2(MeasureBit))
    else
      Or(v, Pow2(MeasureBit))
  }

  /** On a one-byte read of ctl the measure bit ends up set, every other bit
      is that of ctl, the value is still a byte, and enabling twice is enabling once. */
  lemma EnableMeasureSetsBit(ctl: Byte)
    ensures Bit(EnableMeasure([ctl]), MeasureBit)
    ensures forall i: nat :: i != MeasureBit ==> (Bit(EnableMeasure([ctl]), i) <==> Bit(ctl, i))
    ensures EnableMeasure([ctl]) < 256
    ensures EnableMeasure([EnableMeasure([ctl])]) == EnableMeasure([ctl])
  {
    FromBytesBigSingle(ctl);
    assert Pow2(8) == 256;
    SetBit(ctl, MeasureBit, 8);
    FromBytesBigSingle(EnableMeasure([ctl]));
  }

  lemma EnableMeasureExamples()
    ensures EnableMeasure([0x00]) == 0x08
    ensures EnableMeasure([0x10]) == 0x18
  {
    FromBytesBigSingle(0x00);
    FromBytesBigSingle(0x10);
    OrPow2(0x00, MeasureBit);
    OrPow2(0x10, MeasureBit);
  }

  /** What the identity check reports: anything but the single byte DevId is a mismatch. */
  predicate IdentityMismatch(data: seq<Byte>): (m: bool)
    ensures !m <==> |data| == 1 && data[0] == DevId
  {
    data != [DevId]
  }

  /** The transactions of bring-up, in order, when value is written to power control. */
  function BringUpLog(value: Byte): (t: seq<Transaction>)
    ensures |t| == 4
    ensures forall k :: 0 <= k < |t| ==> t[k].addr == DeviceAddress
    ensures t[2].WriteMem? && t[2].bytes == [value]
  {
    [ ReadMem(DeviceAddress, RegDevId, 1),
      ReadMem(DeviceAddress, RegPowerCtl, 1),
      WriteMem(DeviceAddress, RegPowerCtl, [value]),
      ReadMem(DeviceAddress, RegPowerCtl, 1) ]
  }

  /** What bring-up reports: whether the identity check failed, the power-control
      register as first read, the value written, and the register as read back. */
  datatype BringUpReport = BringUpReport(
    identityMismatch: bool,
    powerCtl: seq<Byte>,
    written: Byte,
    powerCtlReadBack: seq<Byte>)

  /** The script's start: check the identity (a mismatch is only reported),
      then read power control, set the measure bit, write it and read it back. */
  method BringUp(bus: Bus) returns (report: BringUpReport)
    requires bus.Valid() && bus.address == DeviceAddress
    modifies bus, bus.regs
    ensures bus.Valid()
    ensures report.identityMismatch <==> old(bus.regs[RegDevId]) != DevId
    ensures report.powerCtl == [old(bus.regs[RegPowerCtl])]
    ensures report.written == EnableMeasure(report.powerCtl)
    ensures Bit(report.written, MeasureBit)
    ensures forall i: nat :: i != MeasureBit ==> (Bit(report.written, i) <==> Bit(old(bus.regs[RegPowerCtl]), i))
    ensures bus.regs[..] == old(bus.regs[..])[RegPowerCtl := report.written]
    ensures report.powerCtlReadBack == [report.written]
    ensures bus.log == old(bus.log) + BringUpLog(report.written)
  {
    ghost var regs0 := bus.regs[..];
    ghost var log0 := bus.log;
    var data := RegRead(bus, DeviceAddress, RegDevId);
    var mismatch := IdentityMismatch(data);
    data := RegRead(bus, DeviceAddress, RegPowerCtl);
    var before := data;
    assert before == [regs0[RegPowerCtl]];
    EnableMeasureSetsBit(data[0]);
    var value: Byte := EnableMeasure(data);
    assert value % 256 == value;
    var r := RegWrite(bus, DeviceAddress, RegPowerCtl, value);
    assert bus.regs[..] == regs0[RegPowerCtl := value];
    data := RegRead(bus, DeviceAddress, RegPowerCtl);
    assert data == [value];
    report := BringUpReport(mismatch, before, value, data);
    assert bus.log == log0 + BringUpLog(value);
  }

  // ---------------------------------------------------------------------
  // Sampling

  /** One raw reading of the three axes, in device units. */
  datatype RawSample = RawSample(x: int, y: int, z: int) {
    predicate InRange() {
      -0x8000 <= x < 0x8000 && -0x8000 <= y < 0x8000 && -0x8000 <= z < 0x8000
    }
  }

  /** The three `"<h"` unpacks of a read, at offsets 0, 2 and 4, in that order. */
  function DecodeSample(data: seq<Byte>): (r: Result<RawSample>)
    ensures r.Ok? <==> |data| >= SampleSize
    ensures r.Err? ==> r.error == ValueError
    ensures r.Ok? ==> r.value.InRange()
    ensures r.Ok? ==> r.value == RawSample(DecodeI16LE(data[0], data[1]),
                                           DecodeI16LE(data[2], data[3]),
                                           DecodeI16LE(data[4], data[5]))
  {
    var x :- UnpackFromI16LE(data, 0);
    var y :- UnpackFromI16LE(data, 2);
    var z :- UnpackFromI16LE(data, 4);
    Ok(RawSample(x, y, z))
  }

  /** The six register bytes that hold a sample. */
  function EncodeSample(s: RawSample): (data: seq<Byte>)
    requires s.InRange()
    ensures |data| == SampleSize
  {
    var x := EncodeI16LE(s.x);
    var y := EncodeI16LE(s.y);
    var z := EncodeI16LE(s.z);
    [x.0, x.1, y.0, y.1, z.0, z.1]
  }

  lemma DecodeEncodeSample(s: RawSample)
    requires s.InRange()
    ensures DecodeSample(EncodeSample(s)) == Ok(s)
  {
    DecodeEncodeI16LE(s.x);
    DecodeEncodeI16LE(s.y);
    DecodeEncodeI16LE(s.z);
  }

  lemma EncodeDecodeSample(data: seq<Byte>)
    requires |data| >= SampleSize
    ensures EncodeSample(DecodeSample(data).value) == data[..SampleSize]
  {
    EncodeDecodeI16LE(data[0], data[1]);
    EncodeDecodeI16LE(data[2], data[3]);
    EncodeDecodeI16LE(data[4], data[5]);
  }

  /** Only the first six bytes of a read are decoded. */
  lemma DecodeSampleUsesFirstSix(data: seq<Byte>)
    requires |data| >= SampleSize
    ensures DecodeSample(data) == DecodeSample(data[..SampleSize])
  {
  }

  lemma DecodeSampleExample()
    ensures DecodeSample([0x00, 0x01, 0xFF, 0xFF, 0x64, 0x00]) == Ok(RawSample(256, -1, 100))
  {
  }

  /** The transactions of n sampling iterations: n six-byte reads at the data registers. */
  function SampleReads(n: nat): (t: seq<Transaction>)
    ensures |t| == n
    ensures forall i :: 0 <= i < n ==> t[i] == ReadMem(DeviceAddress, RegDataX0, SampleSize)
  {
    if n == 0 then [] else SampleReads(n - 1) + [ReadMem(DeviceAddress, RegDataX0, SampleSize)]
  }

  /** |frames| iterations of the sampling loop. Before iteration i the device
      stores the measurement frames[i] in its data registers; the iteration reads
      the six data registers in one transaction and decodes the three axes. */
  method Sampling(bus: Bus, frames: seq<seq<Byte>>) returns (samples: seq<RawSample>)
    requires bus.Valid() && bus.address == DeviceAddress
    requires forall f | f in frames :: |f| == SampleSize
    modifies bus, bus.regs
    ensures bus.Valid()
    ensures |samples| == |frames|
    ensures forall i :: 0 <= i < |frames| ==> DecodeSample(frames[i]) == Ok(samples[i])
    ensures bus.log == old(bus.log) + SampleReads(|frames|)
    ensures forall j :: 0 <= j < RegisterCount && !(RegDataX0 <= j < RegDataX0 + SampleSize) ==>
              bus.regs[j] == old(bus.regs[j])
    ensures |frames| > 0 ==> bus.regs[RegDataX0..RegDataX0 + SampleSize] == frames[|frames| - 1]
  {
    samples := [];
    for i := 0 to |frames|
      invariant bus.Valid()
      invariant |samples| == i
      invariant forall k :: 0 <= k < i ==> DecodeSample(frames[k]) == Ok(samples[k])
      invariant bus.log == old(bus.log) + SampleReads(i)
      invariant forall j :: 0 <= j < RegisterCount && !(RegDataX0 <= j < RegDataX0 + SampleSize) ==>
                  bus.regs[j] == old(bus.regs[j])
      invariant i > 0 ==> bus.regs[RegDataX0..RegDataX0 + SampleSize] == frames[i - 1]
    {
      assert frames[i] in frames;
      bus.DeviceStore(RegDataX0, frames[i]);
      var data := RegRead(bus, DeviceAddress, RegDataX0, SampleSize);
      var accX := UnpackFromI16LE(data, 0);
      var accY := UnpackFromI16LE(data, 2);
      var accZ := UnpackFromI16LE(data, 4);
      samples := samples + [RawSample(accX.value, accY.value, accZ.value)];
    }
  }
}
