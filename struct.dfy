/** The `"<h"` format of `ustruct`: a little-endian two's-complement 16-bit integer. */
module Struct {
  import opened Bytes
  import opened Exceptions

  /** The signed value of the 16-bit word whose low byte is lo and high byte is hi. */
  function DecodeI16LE(lo: Byte, hi: Byte): (v: int)
    ensures -0x8000 <= v < 0x8000
    ensures (v - (lo + 256 * hi)) % 0x10000 == 0
    ensures v < 0 <==> hi >= 0x80
  {
    var u := lo + 256 * hi;
    if hi >= 0x80 then u - 0x10000 else u
  }

  /** `ustruct.pack("<h", v)` as a (low, high) pair of bytes. */
  function EncodeI16LE(v: int): (b: (Byte, Byte))
    requires -0x8000 <= v < 0x8000
    ensures (b.0 + 256 * b.1 - v) % 0x10000 == 0
    ensures b.1 >= 0x80 <==> v < 0
  {
    var u := if v < 0 then v + 0x10000 else v;
    (u % 256, u / 256)
  }

  lemma DecodeEncodeI16LE(v: int)
    requires -0x8000 <= v < 0x8000
    ensures DecodeI16LE(EncodeI16LE(v).0, EncodeI16LE(v).1) == v
  {
  }

  lemma EncodeDecodeI16LE(lo: Byte, hi: Byte)
    ensures EncodeI16LE(DecodeI16LE(lo, hi)) == (lo, hi)
  {
  }

  /** `ustruct.unpack_from("<h", buf, offset)[0]`; a buffer that ends before
      offset + 2 raises ValueError. */
  function UnpackFromI16LE(buf: seq<Byte>, offset: nat): (r: Result<int>)
    ensures r.Err? <==> |buf| < offset + 2
    ensures r.Err? ==> r.error == ValueError
    ensures r.Ok? ==> r.value == DecodeI16LE(buf[offset], buf[offset + 1])
  {
    if |buf| < offset + 2 then Err(ValueError)
    else Ok(DecodeI16LE(buf[offset], buf[offset + 1]))
  }
}
