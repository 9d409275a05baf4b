/** Fixed-width integers and the big-endian layouts every wire format in this project is built from.

    Go's unsigned integers wrap and its conversions truncate. Here integers are unbounded, so each
    wrap and each truncation is written out with `Wrap32`, or by `BigEndian` keeping only the low
    bytes of a longer number.
 */
module Bytes {

  type byte = x: nat | x < 256
  type uint32 = x: nat | x < 0x1_0000_0000
  type uint64 = x: nat | x < 0x1_0000_0000_0000_0000

  const TWO_32: nat := 0x1_0000_0000

  datatype Option<+T> = None | Some(value: T)

  /** A conversion to uint32, or the result of uint32 arithmetic. */
  function Wrap32(x: int): uint32 {
    x % 0x1_0000_0000
  }

  function Min(a: nat, b: nat): nat {
    if a < b then a else b
  }

  function Pow256(k: nat): nat {
    if k == 0 then 1 else 256 * Pow256(k - 1)
  }

  /** The low `k` bytes of `x`, most significant first. */
  function BigEndian(k: nat, x: nat): (s: seq<byte>)
    ensures |s| == k
  {
    if k == 0 then [] else BigEndian(k - 1, x / 256) + [x % 256]
  }

  function FromBigEndian(s: seq<byte>): nat {
    if s == [] then 0 else 256 * FromBigEndian(s[..|s| - 1]) + s[|s| - 1]
  }

  lemma {:induction false} FromBigEndianBound(s: seq<byte>)
    ensures FromBigEndian(s) < Pow256(|s|)
  {
    if s != [] {
      FromBigEndianBound(s[..|s| - 1]);
    }
  }

  /** Writing a number that fits and reading it back gives the number. */
  lemma {:induction false} ReadsWhatWasWritten(k: nat, x: nat)
    requires x < Pow256(k)
    ensures FromBigEndian(BigEndian(k, x)) == x
  {
    if k != 0 {
      ReadsWhatWasWritten(k - 1, x / 256);
      var s := BigEndian(k, x);
      assert s[..|s| - 1] == BigEndian(k - 1, x / 256);
    }
  }

  /** Every byte string is the encoding of the number it is read as. */
  lemma {:induction false} WritesWhatWasRead(s: seq<byte>)
    ensures BigEndian(|s|, FromBigEndian(s)) == s
  {
    if s != [] {
      WritesWhatWasRead(s[..|s| - 1]);
      assert s == s[..|s| - 1] + [s[|s| - 1]];
    }
  }

  /** How many bytes a uint64 takes. */
  function Width64(): nat { 8 }

  lemma Widths()
    ensures Pow256(2) == 0x1_0000
    ensures Pow256(4) == 0x1_0000_0000
    ensures Pow256(8) == 0x1_0000_0000_0000_0000
  {
    assert Pow256(1) == 256 && Pow256(3) == 0x100_0000;
    assert Pow256(5) == 0x100_0000_0000 && Pow256(6) == 0x1_0000_0000_0000;
    assert Pow256(7) == 0x100_0000_0000_0000;
  }

  /** The number in a two-, four- or eight-byte field fits its type. */
  function Uint32At(s: seq<byte>): (x: uint32)
    requires |s| == 4
    ensures x == FromBigEndian(s) && BigEndian(4, x) == s
  {
    FromBigEndianBound(s);
    Widths();
    WritesWhatWasRead(s);
    FromBigEndian(s)
  }

  function Uint64At(s: seq<byte>): (x: uint64)
    requires |s| == 8
    ensures x == FromBigEndian(s) && BigEndian(Width64(), x) == s
  {
    FromBigEndianBound(s);
    Widths();
    WritesWhatWasRead(s);
    FromBigEndian(s)
  }

  /** The bytes of an ASCII literal. */
  function Ascii(s: string): (b: seq<byte>)
    ensures |b| == |s|
  {
    seq(|s|, i requires 0 <= i < |s| => s[i] as int % 256)
  }
}
