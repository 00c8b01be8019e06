/** Bytes, little-endian fields and updates of byte sequences. */
module Bytes {

  type Byte = x: nat | x < 256

  const SECTOR: nat := 512

  /** s with t written over it from position i on. */
  function Splice(s: seq<Byte>, i: nat, t: seq<Byte>): (r: seq<Byte>)
    requires i + |t| <= |s|
    ensures |r| == |s| && r[i..i + |t|] == t && r[..i] == s[..i] && r[i + |t|..] == s[i + |t|..]
  {
    s[..i] + t + s[i + |t|..]
  }

  function Le16(s: seq<Byte>, i: nat): (v: nat)
    requires i + 2 <= |s|
    ensures v < 0x1_0000
  {
    (s[i] as int) + 256 * (s[i + 1] as int)
  }

  function Le32(s: seq<Byte>, i: nat): (v: nat)
    requires i + 4 <= |s|
    ensures v < 0x1_0000_0000
  {
    Le16(s, i) + 65536 * Le16(s, i + 2)
  }

  /** The two low bytes of v. */
  function Bytes16(v: nat): (r: seq<Byte>)
    ensures |r| == 2 && Le16(r, 0) == v % 0x1_0000
  {
    [v % 256, v / 256 % 256]
  }

  /** The four low bytes of v. */
  function Bytes32(v: nat): (r: seq<Byte>)
    ensures |r| == 4 && Le32(r, 0) == v % 0x1_0000_0000
  {
    var r := Bytes16(v) + Bytes16(v / 65536);
    Halves(v);
    assert Le16(r, 0) == Le16(Bytes16(v), 0) && Le16(r, 2) == Le16(Bytes16(v / 65536), 0);
    r
  }

  lemma Halves(v: nat)
    ensures v % 0x1_0000_0000 == v % 0x1_0000 + 0x1_0000 * (v / 0x1_0000 % 0x1_0000)
  {
    var low, high := v % 0x1_0000, v / 0x1_0000;
    assert v == 0x1_0000_0000 * (high / 0x1_0000) + (0x1_0000 * (high % 0x1_0000) + low);
  }

  function Zeros(n: nat): (r: seq<Byte>)
    ensures |r| == n && forall i :: 0 <= i < n ==> r[i] == 0
  {
    seq(n, _ => 0)
  }

  /** Every sector has its full size. */
  ghost predicate Full(disk: seq<seq<Byte>>) {
    forall i :: 0 <= i < |disk| ==> |disk[i]| == SECTOR
  }

  lemma SpliceAt(s: seq<Byte>, i: nat, t: seq<Byte>)
    requires i + |t| <= |s|
    ensures forall j :: 0 <= j < |s| ==> Splice(s, i, t)[j] == if i <= j < i + |t| then t[j - i] else s[j]
  {
  }
}
