/** The encoding of FAT entries in the bytes of a FAT copy, and a copy as a run of disk sectors. */
module FatCodec {
  import opened Bytes
  import opened Geometry

  type Disk = seq<seq<Byte>>

  /** The byte at which a cluster's entry starts. */
  function Offset(k: Kind, c: nat): nat {
    match k case Fat12 => c + c / 2 case Fat16 => c * 2 case Fat32 => c * 4
  }

  function EntryBytes(k: Kind): nat {
    if k == Fat32 then 4 else 2
  }

  /** One more than the largest value of an entry. */
  function Range(k: Kind): nat {
    match k case Fat12 => 0x1000 case Fat16 => 0x1_0000 case Fat32 => 0x1000_0000
  }

  function GetEntry(k: Kind, s: seq<Byte>, c: nat): (v: nat)
    requires Offset(k, c) + EntryBytes(k) <= |s|
    ensures v < Range(k)
  {
    var o := Offset(k, c);
    match k
    case Fat12 => if c % 2 == 1 then Le16(s, o) / 16 else Le16(s, o) % 4096
    case Fat16 => Le16(s, o)
    case Fat32 => Le32(s, o) % 0x1000_0000
  }

  /** The two bytes of a FAT12 entry and half of its neighbour, with the entry replaced. */
  function Merge12(was: nat, odd: bool, v: nat): (r: nat)
    requires was < 0x1_0000
    ensures r < 0x1_0000
    ensures if odd then r / 16 == v % 4096 && r % 16 == was % 16 else r % 4096 == v % 4096 && r / 4096 == was / 4096
  {
    if odd then Merge12Odd(was, v) else Merge12Even(was, v)
  }

  function Merge12Odd(was: nat, v: nat): (r: nat)
    ensures r < 0x1_0000 && r / 16 == v % 4096 && r % 16 == was % 16
  {
    was % 16 + v % 4096 * 16
  }

  function Merge12Even(was: nat, v: nat): (r: nat)
    requires was < 0x1_0000
    ensures r < 0x1_0000 && r % 4096 == v % 4096 && r / 4096 == was / 4096
  {
    was / 4096 * 4096 + v % 4096
  }

  /** The four bytes of a FAT32 entry with all but the top four bits replaced. */
  function Merge32(was: nat, v: nat): (r: nat)
    requires was < 0x1_0000_0000
    ensures r < 0x1_0000_0000 && r % 0x1000_0000 == v % 0x1000_0000 && r / 0x1000_0000 == was / 0x1000_0000
  {
    was / 0x1000_0000 * 0x1000_0000 + v % 0x1000_0000
  }

  /** The bytes written for an entry over the bytes that were there. */
  function NewBytes(k: Kind, s: seq<Byte>, c: nat, v: nat): (t: seq<Byte>)
    requires Offset(k, c) + EntryBytes(k) <= |s|
    ensures |t| == EntryBytes(k)
  {
    var o := Offset(k, c);
    match k
    case Fat12 => Bytes16(Merge12(Le16(s, o), c % 2 == 1, v))
    case Fat16 => Bytes16(v)
    case Fat32 => Bytes32(Merge32(Le32(s, o), v))
  }

  function SetEntry(k: Kind, s: seq<Byte>, c: nat, v: nat): (r: seq<Byte>)
    requires Offset(k, c) + EntryBytes(k) <= |s|
    ensures |r| == |s|
  {
    Splice(s, Offset(k, c), NewBytes(k, s, c, v))
  }

  lemma SetEntry12Is(s: seq<Byte>, c: nat, v: nat)
    requires Offset(Fat12, c) + 2 <= |s|
    ensures SetEntry(Fat12, s, c, v) ==
      Splice(s, Offset(Fat12, c), Bytes16(Merge12(Le16(s, Offset(Fat12, c)), c % 2 == 1, v)))
  {
    hide Splice, Merge12, Le16, Bytes16, Offset;
  }

  /** Setting an entry changes that entry and no other, though FAT12 entries share bytes. */
  lemma SetThenGet(k: Kind, s: seq<Byte>, c: nat, v: nat, d: nat)
    requires Offset(k, c) + EntryBytes(k) <= |s| && Offset(k, d) + EntryBytes(k) <= |s|
    ensures GetEntry(k, SetEntry(k, s, c, v), d) == if d == c then v % Range(k) else GetEntry(k, s, d)
  {
    hide SetEntry, GetEntry;
    match k {
      case Fat12 => SetThenGet12(s, c, v, d);
      case Fat16 => SetThenGet16(s, c, v, d);
      case Fat32 => SetThenGet32(s, c, v, d);
    }
  }

  lemma SetThenGet16(s: seq<Byte>, c: nat, v: nat, d: nat)
    requires 2 * c + 2 <= |s| && 2 * d + 2 <= |s|
    ensures GetEntry(Fat16, SetEntry(Fat16, s, c, v), d) == if d == c then v % 0x1_0000 else GetEntry(Fat16, s, d)
  {
    hide Splice, Bytes16;
    var t := Bytes16(v);
    SpliceAt(s, 2 * c, t);
    if d == c { assert Le16(Splice(s, 2 * c, t), 2 * c) == Le16(t, 0); }
  }

  lemma SetThenGet32(s: seq<Byte>, c: nat, v: nat, d: nat)
    requires 4 * c + 4 <= |s| && 4 * d + 4 <= |s|
    ensures GetEntry(Fat32, SetEntry(Fat32, s, c, v), d) == if d == c then v % 0x1000_0000 else GetEntry(Fat32, s, d)
  {
    hide Splice, Bytes32, Merge32;
    var w := Merge32(Le32(s, 4 * c), v);
    SpliceAt(s, 4 * c, Bytes32(w));
    if d == c { assert Le32(Splice(s, 4 * c, Bytes32(w)), 4 * c) == Le32(Bytes32(w), 0) == w; }
  }

  /** The bytes after a FAT12 entry is set. */
  lemma Set12(s: seq<Byte>, c: nat, v: nat)
    requires Offset(Fat12, c) + 2 <= |s|
    ensures var o, r := Offset(Fat12, c), SetEntry(Fat12, s, c, v);
      && Le16(r, o) == Merge12(Le16(s, o), c % 2 == 1, v)
      && forall j :: 0 <= j < |s| && j != o && j != o + 1 ==> r[j] == s[j]
  {
    hide Merge12, Splice;
    var o, t := Offset(Fat12, c), NewBytes(Fat12, s, c, v);
    SpliceAt(s, o, t);
    assert Le16(SetEntry(Fat12, s, c, v), o) == Le16(t, 0);
  }

  lemma SetThenGet12(s: seq<Byte>, c: nat, v: nat, d: nat)
    requires Offset(Fat12, c) + 2 <= |s| && Offset(Fat12, d) + 2 <= |s|
    ensures GetEntry(Fat12, SetEntry(Fat12, s, c, v), d) == if d == c then v % 0x1000 else GetEntry(Fat12, s, d)
  {
    hide SetEntry, Merge12;
    var o, r := Offset(Fat12, c), SetEntry(Fat12, s, c, v);
    Set12(s, c, v);
    if d != c {
      if c % 2 == 1 && d == c - 1 {
        SetThenGetBefore(s, r, o, v);
      } else if c % 2 == 0 && d == c + 1 {
        SetThenGetAfter(s, r, o, v);
      } else {
        assert Offset(Fat12, d) + 1 < o || Offset(Fat12, d) > o + 1;
      }
    }
  }

  lemma SetThenGetBefore(s: seq<Byte>, r: seq<Byte>, o: nat, v: nat)
    requires |s| == |r| && 1 <= o && o + 2 <= |s| && r[o - 1] == s[o - 1]
    requires Le16(r, o) == Merge12(Le16(s, o), true, v)
    ensures Le16(r, o - 1) % 4096 == Le16(s, o - 1) % 4096
  {
    SharedLow(s[o], s[o + 1], r[o], Le16(r, o), v);
    EvenEntry(s[o - 1], s[o]);
    EvenEntry(r[o - 1], r[o]);
  }

  lemma SetThenGetAfter(s: seq<Byte>, r: seq<Byte>, o: nat, v: nat)
    requires |s| == |r| && o + 3 <= |s| && r[o + 2] == s[o + 2]
    requires Le16(r, o) == Merge12(Le16(s, o), false, v)
    ensures Le16(r, o + 1) / 16 == Le16(s, o + 1) / 16
  {
    SharedHigh(s[o], s[o + 1], r[o + 1], Le16(r, o), v);
    OddEntry(s[o + 1], s[o + 2]);
    OddEntry(r[o + 1], r[o + 2]);
  }

  lemma EvenEntry(a: Byte, b: Byte)
    ensures (a as int + 256 * (b as int)) % 4096 == a + 256 * (b % 16)
  {
  }

  lemma OddEntry(a: Byte, b: Byte)
    ensures (a as int + 256 * (b as int)) / 16 == a / 16 + 16 * b
  {
  }

  /** The byte an odd entry shares with the one before keeps its low half. */
  lemma SharedLow(a: Byte, b: Byte, x: Byte, w: nat, v: nat)
    requires w == Merge12(a as int + 256 * (b as int), true, v) && x == w % 256
    ensures x % 16 == a % 16
  {
    hide Merge12;
    LowNibble(a as int + 256 * (b as int), b, a);
    LowNibble(w, w / 256, x);
  }

  lemma LowNibble(w: nat, high: nat, low: Byte)
    requires w == 256 * high + low as int
    ensures w % 16 == low % 16
  {
    assert w == 16 * (16 * high + low / 16) + low % 16;
  }

  /** The byte an even entry shares with the one after keeps its high half. */
  lemma SharedHigh(a: Byte, b: Byte, x: Byte, w: nat, v: nat)
    requires w == Merge12(a as int + 256 * (b as int), false, v) && x == w / 256
    ensures x / 16 == b / 16
  {
  }

  /** Setting a FAT32 entry keeps the top four bits of its word. */
  lemma TopBitsKept(s: seq<Byte>, c: nat, v: nat)
    requires 4 * c + 4 <= |s|
    ensures Le32(SetEntry(Fat32, s, c, v), 4 * c) / 0x1000_0000 == Le32(s, 4 * c) / 0x1000_0000
  {
    var t := NewBytes(Fat32, s, c, v);
    SpliceAt(s, 4 * c, t);
    assert Le32(SetEntry(Fat32, s, c, v), 4 * c) == Le32(t, 0);
  }


  /** Entries in bytes, the lowest first: two bytes each on FAT16; four on FAT32, without the top four bits; on FAT12
      two entries in three bytes, the even one in the first and the low half of the second. */
  lemma EntryInBytes(k: Kind, s: seq<Byte>, c: nat)
    requires Offset(k, c) + EntryBytes(k) <= |s|
    ensures k == Fat16 ==> 2 * c + 1 < |s| && GetEntry(k, s, c) == s[2 * c] as int + 0x100 * s[2 * c + 1] as int
    ensures k == Fat32 ==>
      && 4 * c + 3 < |s|
      && GetEntry(k, s, c) ==
           s[4 * c] as int + 0x100 * s[4 * c + 1] as int + 0x1_0000 * s[4 * c + 2] as int +
           0x100_0000 * (s[4 * c + 3] as int % 16)
    ensures k == Fat12 && c % 2 == 0 ==>
      && c / 2 * 3 + 1 < |s|
      && GetEntry(k, s, c) == s[c / 2 * 3] as int + 0x100 * (s[c / 2 * 3 + 1] as int % 16)
    ensures k == Fat12 && c % 2 == 1 ==>
      && c / 2 * 3 + 2 < |s|
      && GetEntry(k, s, c) == s[c / 2 * 3 + 1] as int / 16 + 16 * s[c / 2 * 3 + 2] as int
  {
    match k {
      case Fat12 => Halves12(s[Offset(k, c)], s[Offset(k, c) + 1]);
      case Fat16 =>
      case Fat32 => TopHalf(Le16(s, 4 * c), s[4 * c + 2], s[4 * c + 3]);
    }
  }

  lemma Halves12(a: Byte, b: Byte)
    ensures (a as int + 256 * b as int) % 4096 == a as int + 256 * (b as int % 16)
    ensures (a as int + 256 * b as int) / 16 == a as int / 16 + 16 * b as int
  {
  }

  lemma TopHalf(low: nat, a: Byte, b: Byte)
    requires low < 0x1_0000
    ensures (low + 65536 * (a as int + 256 * b as int)) % 0x1000_0000 ==
      low + 0x1_0000 * a as int + 0x100_0000 * (b as int % 16)
  {
  }
}
