/** Bytes, and 32-bit little-endian numbers in them. */
module Octets {
  type Byte = b: int | 0 <= b < 256

  /** The four bytes of a number below 2^32, lowest first. */
  function Pack32(n: nat): (s: seq<Byte>)
    requires n < 0x1_0000_0000
    ensures |s| == 4
  {
    [n % 0x100, n / 0x100 % 0x100, n / 0x1_0000 % 0x100, n / 0x100_0000]
  }

  function Unpack32(s: seq<Byte>): nat
    requires |s| == 4
  {
    s[0] as nat + 0x100 * (s[1] as nat) + 0x1_0000 * (s[2] as nat) + 0x100_0000 * (s[3] as nat)
  }

  lemma UnpackPacked(n: nat)
    requires n < 0x1_0000_0000
    ensures Unpack32(Pack32(n)) == n
  {
    var low, middle := n / 0x100, n / 0x1_0000;
    DividedTwice(n);
    DividedTwice(low);
    assert n == n % 0x100 + 0x100 * low && low == low % 0x100 + 0x100 * middle;
    assert middle == middle % 0x100 + 0x100 * (n / 0x100_0000);
  }

  lemma DividedTwice(n: nat)
    ensures n / 0x1_0000 == n / 0x100 / 0x100
    ensures n / 0x100_0000 == n / 0x1_0000 / 0x100
  {
  }

  function Zeros(n: nat): (s: seq<Byte>)
    ensures |s| == n
    ensures forall i :: 0 <= i < n ==> s[i] == 0
  {
    seq(n, _ => 0)
  }

  predicate Ascii(s: seq<Byte>) {
    forall i :: 0 <= i < |s| ==> s[i] < 128
  }

  /** The bytes before the first zero. */
  function BeforeZero(s: seq<Byte>): (r: seq<Byte>)
    ensures r <= s && forall i :: 0 <= i < |r| ==> r[i] != 0
    ensures |r| < |s| ==> s[|r|] == 0
  {
    if s == [] || s[0] == 0 then [] else [s[0]] + BeforeZero(s[1..])
  }

  /** The bytes without trailing copies of `c`. */
  function TrimEnd(s: seq<Byte>, c: Byte): (r: seq<Byte>)
    ensures r <= s && (r != [] ==> r[|r| - 1] != c)
    ensures forall i :: |r| <= i < |s| ==> s[i] == c
  {
    if s == [] || s[|s| - 1] != c then s else TrimEnd(s[..|s| - 1], c)
  }
}
