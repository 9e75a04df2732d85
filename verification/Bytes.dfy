/** Octets and the little-endian integers that the on-disk structures are made of. */
module Bytes {

  type byte = x: int | 0 <= x < 256

  const NEWLINE: byte := 0x0A
  const SPACE: byte := 0x20

  function Le16(s: seq<byte>): nat
    requires |s| == 2
  {
    (s[0] as int) + 256 * (s[1] as int)
  }

  function Le32(s: seq<byte>): nat
    requires |s| == 4
  {
    (s[0] as int) + 256 * (s[1] as int) + 65536 * (s[2] as int) + 16777216 * (s[3] as int)
  }

  function ToLe16(n: nat): (s: seq<byte>)
    ensures |s| == 2
  {
    [n % 256, n / 256 % 256]
  }

  function ToLe32(n: nat): (s: seq<byte>)
    ensures |s| == 4
  {
    [n % 256, n / 256 % 256, n / 65536 % 256, n / 16777216 % 256]
  }

  lemma Le32RoundTrip(n: nat)
    requires n < 0x1_0000_0000
    ensures Le32(ToLe32(n)) == n
  {
    assert n / 65536 == n / 256 / 256;
    assert n / 16777216 == n / 256 / 256 / 256;
  }

  /** 256 to the power k. */
  function Pow256(k: nat): (r: nat)
    ensures r > 0
  {
    if k == 0 then 1 else 256 * Pow256(k - 1)
  }

  lemma Powers()
    ensures Pow256(0) == 1 && Pow256(1) == 256 && Pow256(2) == 65536 && Pow256(3) == 16777216
  {
  }

  /** The least significant byte comes first, in writing and in reading. */
  lemma ToLe32Digits(n: nat, k: nat)
    requires k < 4
    ensures ToLe32(n)[k] == n / Pow256(k) % 256
  {
    Powers();
  }

  lemma ToLe16Digits(n: nat, k: nat)
    requires k < 2
    ensures ToLe16(n)[k] == n / Pow256(k) % 256
  {
    Powers();
  }

  lemma Le32Digits(s: seq<byte>)
    requires |s| == 4
    ensures Le32(s) == s[0] * Pow256(0) + s[1] * Pow256(1) + s[2] * Pow256(2) + s[3] * Pow256(3)
  {
    Powers();
  }

  lemma Le16Digits(s: seq<byte>)
    requires |s| == 2
    ensures Le16(s) == s[0] * Pow256(0) + s[1] * Pow256(1)
  {
    Powers();
  }

  function Zeros(n: nat): (s: seq<byte>)
    ensures |s| == n && forall i :: 0 <= i < n ==> s[i] == 0
  {
    seq(n, i => 0)
  }
}
