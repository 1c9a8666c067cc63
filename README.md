# Accelerometer driver model

A Dafny model of `code/accelerometer.py`, a MicroPython script that talks to a
three-axis accelerometer over I2C. The script reads the device identity and
reports a mismatch without stopping. It then sets the measure bit in the
power-control register, writes the register back and reads it again. After
that it loops: one six-byte read at the axis-data registers per iteration,
decoded into three little-endian signed 16-bit integers. As written,
`reg_write` hands the bus an integer instead of a buffer, so the write at line
52 raises and the script stops there (see "## Findings"). Bring-up and
sampling are modelled with the corrected `reg_write`, which writes the one-byte
buffer it builds.

The constants are used with their literal values: device address `0x53`,
identity register `0x00` holding `0xE5`, power control `0x2D` with measure
bit 3, and axis data from `0x32` (`code/accelerometer.py:6-12`). The names in
the source refer to a LIS3DH, but the model uses these values as written.

Modules:

- `Exceptions` (`exceptions.dfy`): the Python exceptions that can occur,
  `ValueError` and `TypeError`, as `Outcome` and `Result` values.
- `Bits` (`bits.dfy`): Python's `|` on non-negative integers (`Or`), defined
  one bit at a time. It comes with lemmas that it is bitwise, stays within
  bounds, and that OR with `1 << k` sets bit k alone and is idempotent.
- `Bytes` (`bytes.dfy`): `int.from_bytes(b, "big")`, with `to_bytes` as its
  inverse.
- `Struct` (`struct.dfy`): the `"<h"` format of `ustruct`, meaning decode,
  encode and `unpack_from`. A buffer that is too short raises `ValueError`.
- `I2c` (`i2c.dfy`): the bus as a class `Bus`. It holds the attached
  device's 256-entry register array and a log of every transaction.
  `readfrom_mem` reads consecutive registers, because the device
  auto-increments. `writeto_mem` stores a buffer and raises `TypeError` for
  any other object.
- `Accelerometer` (`accelerometer.dfy`): `reg_read`, `reg_write`, the
  bring-up sequence and the sampling loop.

Two details of the code are kept as written:

- `reg_read` returns an empty buffer for every count below one, negative
  counts included, and not only for zero. Its count defaults to 1, as in the
  source.
- The identity check compares the whole returned buffer with the one-byte
  buffer `[0xE5]`.

## Model

| member | source | states |
|---|---|---|
| Accelerometer.RegRead | code/accelerometer.py:28-35 | a count below one returns an empty buffer and issues no transaction; otherwise exactly one read of nbytes at (addr, reg) is logged and the result is registers reg .. reg+nbytes-1 unchanged |
| Accelerometer.RegWrite | code/accelerometer.py:22-26 | the one-byte buffer `msg` holds data modulo 256, because a MicroPython bytearray append keeps the low byte; register reg is set to that byte, every other register is unchanged, and one one-byte write is logged |
| Accelerometer.RegWriteAsWritten | code/accelerometer.py:22-26 | as written, with the integer handed to `writeto_mem`: every call raises TypeError, whatever the value, and neither registers nor log change |
| I2c.Bus.ReadFromMem | code/accelerometer.py:33 | one logged transaction returning the nbytes consecutive registers from reg |
| I2c.Bus.WriteToMem | code/accelerometer.py:26 | a buffer is stored from reg on and logged as one write; any non-buffer raises TypeError and changes nothing |
| I2c.Bus.DeviceStore | code/accelerometer.py:26 | the register map afterwards holds b from reg on, and every other register is as before |
| I2c.Overwrite | code/accelerometer.py:26 | an auto-incrementing store of b from register reg on leaves the length unchanged, puts b at reg .. reg+len(b)-1 and keeps every register before and after it |
| I2c.OverwriteOne | code/accelerometer.py:24-26 | storing a one-byte buffer changes exactly that one register |
| Bits.Pow2 | code/accelerometer.py:51 | `1 << k` is at least 1 |
| Bits.Or | code/accelerometer.py:51 | a OR b is at least a and at least b, and at most a + b |
| Bits.OrBit | code/accelerometer.py:51 | each bit of a OR b is set exactly when it is set in a or in b |
| Bits.OrBound | code/accelerometer.py:51 | a OR b stays below 2^n when a and b do |
| Bits.BitOfPow2 | code/accelerometer.py:51 | `1 << k` has bit k set and no other bit |
| Bits.OrPow2 | code/accelerometer.py:51 | a OR (1 << k) is a when bit k of a is set, and a + 2^k otherwise |
| Bits.SetBitKeepsOthers | code/accelerometer.py:51 | setting bit k leaves every other bit as it was |
| Bits.SetBit | code/accelerometer.py:51 | a OR (1 << k) has bit k set, keeps every other bit, stays within n bits and is idempotent |
| Bytes.FromBytesBig | code/accelerometer.py:51 | `int.from_bytes(s, "big")` is below 2^(8·len(s)) |
| Bytes.ToBytesBig | code/accelerometer.py:51 | the n-byte big-endian encoding has length n |
| Bytes.FromToBytesBig | code/accelerometer.py:51 | from_bytes inverts to_bytes on every n-byte value |
| Bytes.ToFromBytesBig | code/accelerometer.py:51 | to_bytes inverts from_bytes on every byte string |
| Bytes.FromBytesBigSingle | code/accelerometer.py:51 | a one-byte buffer converts to that byte's value |
| Accelerometer.EnableMeasure | code/accelerometer.py:51 | the value to write has the measure bit (bit 3) set, is at least the register value as converted, and is below 256 when one byte was read |
| Accelerometer.EnableMeasureSetsBit | code/accelerometer.py:46-52 | for a one-byte read of power control, the value written has bit 3 set, every other bit as read, is below 256, and enabling twice equals enabling once |
| Accelerometer.EnableMeasureExamples | code/accelerometer.py:51 | 0x00 becomes 0x08 and 0x10 becomes 0x18 |
| Accelerometer.IdentityMismatch | code/accelerometer.py:42-44 | a mismatch is reported unless the read returned exactly the one byte 0xE5 |
| Accelerometer.BringUpLog | code/accelerometer.py:42-55 | bring-up issues four transactions, all at address 0x53, and the third writes the single byte computed at line 51 |
| Accelerometer.BringUp | code/accelerometer.py:41-56 | the mismatch is reported exactly when register 0x00 is not 0xE5, and bring-up goes on either way; power control is read, written with the measure bit set and other bits kept, and read back; the log gains exactly read 0x00, read 0x2D, write 0x2D, read 0x2D, all at 0x53; no other register changes |
| Struct.DecodeI16LE | code/accelerometer.py:67-69 | the decoded value lies in -32768..32767, is congruent to lo + 256·hi modulo 65536, and is negative exactly when the high byte is 0x80 or above |
| Struct.EncodeI16LE | code/accelerometer.py:67-69 | the encoded pair is congruent to the value modulo 65536, with the high byte's top bit as the sign |
| Struct.DecodeEncodeI16LE | code/accelerometer.py:67-69 | decoding the encoding of an in-range value gives it back |
| Struct.EncodeDecodeI16LE | code/accelerometer.py:67-69 | encoding a decoded pair gives back the two bytes |
| Struct.UnpackFromI16LE | code/accelerometer.py:67 | raises ValueError exactly when the buffer ends before offset + 2; otherwise decodes the two bytes at offset |
| Accelerometer.DecodeSample | code/accelerometer.py:66-69 | succeeds exactly on buffers of six or more bytes (ValueError otherwise) and gives the three in-range values decoded at offsets 0, 2 and 4 |
| Accelerometer.EncodeSample | code/accelerometer.py:66-69 | an in-range sample is six register bytes |
| Accelerometer.DecodeEncodeSample | code/accelerometer.py:66-69 | decoding the bytes of a sample gives the sample back |
| Accelerometer.EncodeDecodeSample | code/accelerometer.py:66-69 | re-encoding a decoded read gives its first six bytes back |
| Accelerometer.DecodeSampleUsesFirstSix | code/accelerometer.py:66-69 | bytes past the sixth do not affect the decoded sample |
| Accelerometer.DecodeSampleExample | code/accelerometer.py:66-69 | bytes 00 01 FF FF 64 00 decode to (256, -1, 100) |
| Accelerometer.SampleReads | code/accelerometer.py:62-64 | n iterations issue n transactions, each a six-byte read at 0x32 from 0x53 |
| Accelerometer.Sampling | code/accelerometer.py:62-69 | N iterations give N samples in order, sample i being the decoding of the measurement the device held at iteration i; the log gains exactly N six-byte reads at 0x32; no register outside the data registers changes, and the data registers end up holding the last measurement |

## Left out

- Accelerometer.BringUp: bring-up and sampling model the script with the corrected `reg_write` (`Accelerometer.RegWrite`). As written, line 52 raises TypeError, so the log holds only the reads of 0x00 and 0x2D, and the read-back at line 55 and the loop are never reached (see `Accelerometer.RegWriteAsWritten`).
- Construction of the I2C peripheral (pins 16 and 17, 400 kHz, `code/accelerometer.py:18`) is hardware set-up. `I2c.Bus.constructor` stands in for it: it takes the device address and the initial register contents.
- The sleeps of 2.0 s and 0.1 s (`code/accelerometer.py:59`, `80`) only affect timing.
- The conversion to m/s² by `SENSITIVITY_2G * EARTH_GRAVITY_MS2` (`code/accelerometer.py:13-14`, `72-74`) is floating point and is not modelled. The samples stay in raw device units.
- Console output (`code/accelerometer.py:44`, `48`, `56`, `76-78`) is not modelled as such. `BringUpReport` carries the mismatch flag and the two buffers that are printed.
- The endless `while True` (`code/accelerometer.py:62`) becomes `Accelerometer.Sampling` over a finite list of measurements. The device's own updates of its data registers between reads are an input: `Bus.DeviceStore` stores one measurement per iteration, with no bus transaction.
- Bus failures are not modelled: no acknowledgement from an absent address, bus faults and short reads. `Bus.ReadFromMem` and `Bus.WriteToMem` require the attached device's address and a register range inside the 256-entry map, so auto-increment past register 0xFF is not modelled. The script neither catches nor checks any of these failures.
- Device-side register behaviour is not modelled: read-only registers and bits the device ignores are absent. Registers are plain storage, so the read-back after bring-up returns exactly the value written.
- Struct.UnpackFromI16LE: offsets are non-negative. The counting from the end that `ustruct` applies to negative offsets is not modelled; the script uses only 0, 2 and 4.

## Findings

| source | as written | input that shows it | evidently intended | confidence | as-written member | corrected member |
|---|---|---|---|---|---|---|
| code/accelerometer.py:22-26 | `reg_write` builds the one-byte buffer `msg` but passes the integer `data` to `writeto_mem`. That call accepts only objects with the buffer protocol, so it raises TypeError. | `reg_write(i2c, 0x53, 0x2D, 0x08)`, as bring-up does at line 52: nothing is written, and the script stops at line 52 | pass `msg`, so that register `reg` receives the single byte `data` | high; not executed | Accelerometer.RegWriteAsWritten | Accelerometer.RegWrite |
