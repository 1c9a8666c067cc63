/** Bytes and Python's `int.from_bytes(b, "big")`. */
module Bytes {
  import opened Bits

  type Byte = b: int | 0 <= b < 256

  /** `int.from_bytes(s, "big")`: the first byte is the most significant. */
  function FromBytesBig(s: seq<Byte>): (r: nat)
    ensures r < Pow2(8 * |s|)
  {
    if s == [] then 0
    else
      var init := FromBytesBig(s[..|s| - 1]);
      Pow2Add(8 * (|s| - 1), 8);
      256 * init + s[|s| - 1]
  }

  /** `v.to_bytes(n, "big")`, the inverse of FromBytesBig on n-byte values. */
  function ToBytesBig(v: nat, n: nat): (s: seq<Byte>)
    requires v < Pow2(8 * n)
    ensures |s| == n
  {
    if n == 0 then []
    else
      Pow2Add(8 * (n - 1), 8);
      ToBytesBig(v / 256, n - 1) + [v % 256]
  }

  lemma {:induction false} FromToBytesBig(v: nat, n: nat)
    requires v < Pow2(8 * n)
    ensures FromBytesBig(ToBytesBig(v, n)) == v
    decreases n
  {
    if n > 0 {
      Pow2Add(8 * (n - 1), 8);
      var t := ToBytesBig(v / 256, n - 1);
      FromToBytesBig(v / 256, n - 1);
      assert (t + [v % 256])[..n - 1] == t;
    }
  }

  lemma {:induction false} ToFromBytesBig(s: seq<Byte>)
    ensures ToBytesBig(FromBytesBig(s), |s|) == s
    decreases |s|
  {
    if s != [] {
      var n := |s|;
      Pow2Add(8 * (n - 1), 8);
      ToFromBytesBig(s[..n - 1]);
      assert s == s[..n - 1] + [s[n - 1]];
    }
  }

  /** A one-byte read is its own value, which is what the driver converts. */
  lemma FromBytesBigSingle(b: Byte)
    ensures FromBytesBig([b]) == b
  {
  }
}
