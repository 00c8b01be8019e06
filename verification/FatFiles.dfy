/** Creating and overwriting files by name on a well-formed volume. */
module FatFiles {
  import opened Bytes
  import opened Geometry
  import opened FatCodec
  import opened FatDisk
  import opened FatChains
  import opened FatVolume
  import opened FatSpace
  import opened FatWrite
  import opened FatDir
  import opened FatName
  import opened FatLookup
  import opened FatTree
  import opened FatRead
  import opened FatEntry
  import opened FatSteps

  /** A name finds the same slot as before, with the same entry in it. */
  ghost predicate FindsSame(dir: seq<Slot>, now: seq<Slot>, name: seq<Byte>)
    requires SlotsOk(dir) && SlotsOk(now)
  {
    var r := FindFrom(dir, name, 0);
    FindFrom(now, name, 0) == r && (r.Found? ==> now[r.i] == dir[r.i])
  }

  /** Every name with another short name finds, in the directory, what it did, and reads as before. */
  ghost predicate ReadsSame(g: Geo, m: Vol, dir: seq<Slot>, after: Vol, now: seq<Slot>, but: seq<Byte>)
    requires Shape(g, m) && Shape(g, after) && g.spc > 0 && SlotsOk(dir) && SlotsOk(now)
  {
    && (forall x: seq<Byte> :: Sfn(x) != but ==> FindsSame(dir, now, Sfn(x)))
    && (forall x: seq<Byte>, max: nat :: Sfn(x) != but ==>
          ReadOutcome(g, after, now, Sfn(x), max) == ReadOutcome(g, m, dir, Sfn(x), max))
  }

  /** Every other name in the directory finds what it did, every other directory has the entries that it had,
      and every file under them reads as before. */
  ghost predicate Unaffected(g: Geo, m: Vol, t: Tree, after: Vol, u: Tree, d: nat, but: seq<Byte>)
    requires Shape(g, m) && Shape(g, after) && g.spc > 0
  {
    && ReadsSame(g, m, DirOf(g, m, t, d), after, DirOf(g, after, u, d), but)
    && forall b :: b in t.dirs && b in u.dirs && b != d ==>
         && DirOf(g, after, u, b) == DirOf(g, m, t, b)
         && ReadsSame(g, m, DirOf(g, m, t, b), after, DirOf(g, after, u, b), [])
  }

  /** A file under a plain name that differs in more than case from the one an operation was given is found as before
      and reads as before. */
  lemma OtherNameReads(g: Geo, m: Vol, t: Tree, after: Vol, u: Tree, d: nat, name: seq<Byte>, other: seq<Byte>,
                       max: nat)
    requires Shape(g, m) && Shape(g, after) && g.spc > 0 && Unaffected(g, m, t, after, u, d, Sfn(name))
    requires IsPlain(name) && IsPlain(other) && !SameName(name, other)
    ensures FindsSame(DirOf(g, m, t, d), DirOf(g, after, u, d), Sfn(other))
    ensures ReadOutcome(g, after, DirOf(g, after, u, d), Sfn(other), max) ==
      ReadOutcome(g, m, DirOf(g, m, t, d), Sfn(other), max)
  {
    hide Shape, DirOf, Sfn, ReadOutcome, IsPlain, SameName, FindsSame;
    PlainNames(name, other);
  }

  /** What was gone, if anything, belonged to the entry in slot i of d. */
  ghost predicate GoneFrom(t: Tree, d: nat, i: nat, gone: set<nat>) {
    forall c :: c in gone && c != 0 ==> c in t.owner && t.owner[c] == (d, i)
  }

  /** A name that finds the same slot as before, and not the one whose file is gone, reads as before. */
  lemma StillReads(g: Geo, m: Vol, t: Tree, after: Vol, b: nat, now: seq<Slot>, d: nat, i: nat, gone: set<nat>,
                   x: seq<Byte>, max: nat)
    requires WellFormed(g, m, t, {}) && Shape(g, after) && FilesKept(t, m, after, gone)
    requires GoneFrom(t, d, i, gone) && b in t.dirs && SlotsOk(now)
    requires FindsSame(DirOf(g, m, t, b), now, Sfn(x))
    requires var r := FindFrom(now, Sfn(x), 0);
      r.Found? ==> (b, r.i) != (d, i)
    ensures ReadOutcome(g, after, now, Sfn(x), max) == ReadOutcome(g, m, DirOf(g, m, t, b), Sfn(x), max)
  {
    hide DirOf, IsChain, Full, FullCluster, FirstCluster, ReadOutcome, FilesKept, IsDirectory, VolumeId, Sfn,
         ZeroTail;
    SfnStart(x);
    var r := FindFrom(now, Sfn(x), 0);
    if r.Found? {
      var e := now[r.i];
      assert e[..11][0] == e[0];
      assert Object(e) && EntryOk(g, t, b, r.i, e);
    }
    OutcomeKept(g, m, t, after, b, now, gone, Sfn(x), max);
  }

  /** An entry that only one name can match, written over a slot that no other name matches. */
  lemma UnaffectedBy(g: Geo, m: Vol, t: Tree, after: Vol, u: Tree, d: nat, grown: bool, i: nat, e: Slot, gone: set<nat>,
                     but: seq<Byte>)
    requires WellFormed(g, m, t, {}) && Shape(g, after) && d in t.dirs && FilesKept(t, m, after, gone)
    requires GoneFrom(t, d, i, gone)
    requires OtherDirs(g, m, t, after, u, d) && |e| == SLOT && e[0] != 0 && (e[0] == DELETED || e[..11] == but)
    requires var base := DirOf(g, m, t, d) + (if grown then EndMarks(g) else []);
      && i < |base| && (base[i][0] == 0 || base[i][0] == DELETED || base[i][..11] == but)
      && ZeroTail(base) && DirOf(g, after, u, d) == base[i := e]
    ensures Unaffected(g, m, t, after, u, d, but)
  {
    hide ChainsOk, Apart, DirsOk, DirsGood, DirOf, Shape, ReadOutcome, FilesKept, GoneFrom, Sfn, ZeroTail, EndMarks;
    UnaffectedHere(g, m, t, after, u, d, grown, i, e, gone, but);
    forall b | b in t.dirs && b in u.dirs && b != d
      ensures DirOf(g, after, u, b) == DirOf(g, m, t, b)
      ensures ReadsSame(g, m, DirOf(g, m, t, b), after, DirOf(g, after, u, b), [])
    {
      forall x: seq<Byte>, max: nat
        ensures ReadOutcome(g, after, DirOf(g, after, u, b), Sfn(x), max) ==
          ReadOutcome(g, m, DirOf(g, m, t, b), Sfn(x), max)
      {
        StillReads(g, m, t, after, b, DirOf(g, m, t, b), d, i, gone, x, max);
      }
    }
  }

  lemma UnaffectedHere(g: Geo, m: Vol, t: Tree, after: Vol, u: Tree, d: nat, grown: bool, i: nat, e: Slot,
                       gone: set<nat>, but: seq<Byte>)
    requires WellFormed(g, m, t, {}) && Shape(g, after) && d in t.dirs && FilesKept(t, m, after, gone)
    requires GoneFrom(t, d, i, gone)
    requires |e| == SLOT && e[0] != 0 && (e[0] == DELETED || e[..11] == but)
    requires var base := DirOf(g, m, t, d) + (if grown then EndMarks(g) else []);
      && i < |base| && (base[i][0] == 0 || base[i][0] == DELETED || base[i][..11] == but)
      && ZeroTail(base) && DirOf(g, after, u, d) == base[i := e]
    ensures ReadsSame(g, m, DirOf(g, m, t, d), after, DirOf(g, after, u, d), but)
  {
    hide DirOf, Shape, ReadOutcome, FilesKept, GoneFrom, Sfn, ZeroTail, EndMarks, DirsGood;
    var dir, now := DirOf(g, m, t, d), DirOf(g, after, u, d);
    var base := dir + (if grown then EndMarks(g) else []);
    forall x: seq<Byte> | Sfn(x) != but
      ensures FindsSame(dir, now, Sfn(x)) && FindFrom(dir, Sfn(x), 0) != Found(i)
    {
      FindPut(base, i, e, Sfn(x), 0);
      if grown { FindGrown(g, dir, Sfn(x), 0); } else { assert base == dir; }
    }
    forall x: seq<Byte>, max: nat | Sfn(x) != but
      ensures ReadOutcome(g, after, now, Sfn(x), max) == ReadOutcome(g, m, dir, Sfn(x), max)
    {
      StillReads(g, m, t, after, d, now, d, i, gone, x, max);
    }
  }

  ghost predicate Good(v: Volume, t: Tree)
    reads v
  {
    v.Ok() && WellFormed(v.g, v.View(), t, {}) && v.current in t.dirs && Rooted(v.g, t, v.current)
  }

  /** A well-formed volume whose current directory can still be reached. */
  lemma StillGood(v: Volume, t: Tree, u: Tree)
    requires v.Ok() && WellFormed(v.g, v.View(), u, {}) && Rooted(v.g, t, v.current) && v.current in u.dirs
    requires DirsStay(t, u)
    ensures Good(v, u)
  {
    hide v.Ok, v.View, DirsGood, ChainsOk, Apart;
    RootedStays(v.g, t, u, v.current);
  }

  /** A name that starts with the mark of deleted entries is found nowhere. */
  lemma {:induction false} NeverFound(dir: seq<Slot>, name: seq<Byte>, k: nat)
    requires SlotsOk(dir) && |name| == 11 && name[0] == DELETED
    ensures FindFrom(dir, name, k) == Missing
    decreases |dir| - k
  {
    if k < |dir| {
      assert dir[k][..11][0] == dir[k][0];
      NeverFound(dir, name, k + 1);
    }
  }

  lemma {:induction false} MissingBefore(dir: seq<Slot>, name: seq<Byte>, i: nat, k: nat)
    requires SlotsOk(dir) && FindFrom(dir, name, k) == Missing && k <= i <= |dir| && i <= MAX_SLOTS
    requires forall j :: k <= j < i ==> dir[j][0] != 0
    ensures forall j :: k <= j < i ==> !Matches(dir[j], name)
    decreases i - k
  {
    if k < i { MissingBefore(dir, name, i, k + 1); }
  }

  lemma TailKept(dir: seq<Slot>, i: nat, e: Slot)
    requires SlotsOk(dir) && ZeroTail(dir) && i < |dir| && |e| == SLOT && e[0] != 0
    requires forall j :: 0 <= j < i ==> dir[j][0] != 0
    ensures SlotsOk(dir[i := e]) && ZeroTail(dir[i := e])
  {
  }

  /** Reading a name into a large enough buffer gives these bytes. */
  ghost predicate ReadsAs(g: Geo, m: Vol, dir: seq<Slot>, name: seq<Byte>, data: seq<Byte>)
    requires Shape(g, m) && g.spc > 0 && SlotsOk(dir)
  {
    forall max: nat :: max >= |data| ==> ReadOutcome(g, m, dir, name, max) == Contents(data)
  }

  /** The read of a name whose entry was just written with these bytes. */
  lemma ReadsNew(g: Geo, m: Vol, dir: seq<Slot>, i: nat, e: Slot, name: seq<Byte>, data: seq<Byte>)
    requires Shape(g, m) && g.spc > 0 && SlotsOk(dir) && i < |dir| && i < MAX_SLOTS && |e| == SLOT
    requires Matches(e, name) && !IsDirectory(e)
    requires forall j :: 0 <= j < i ==> dir[j][0] != 0 && !Matches(dir[j], name)
    requires SizeOf(e) == |data| && FileOutcome(g, m, FirstCluster(g.kind, e), |data|) == Contents(data)
    ensures ReadsAs(g, m, dir[i := e], name, data)
  {
    hide FileOutcome, Matches, IsDirectory, Shape;
    FindNew(dir, i, e, name, 0);
  }

  /** Writes the entry of a new file over a free slot, once its bytes are stored. */
  method EnterFile(v: Volume, d: nat, i: nat, name: seq<Byte>, first: nat, data: seq<Byte>, ghost t: Tree)
    returns (ghost u: Tree)
    requires v.Ok() && WellFormed(v.g, v.View(), t, {}) && d in t.dirs && FreeSlot(DirOf(v.g, v.View(), t, d), i)
    requires name != [] && 0 !in name && |data| < 0x1_0000_0000 && Valid(v.g, first)
    requires first in t.chains && first !in t.owner && first !in t.dirs && first != RootId(v.g)
    requires FindFrom(DirOf(v.g, v.View(), t, d), Sfn(name), 0) == Missing
    requires FileOutcome(v.g, v.View(), first, |data|) == Contents(data)
    modifies v`disk
    ensures v.Ok() && WellFormed(v.g, v.View(), u, {}) && u.dirs == t.dirs && u.chains == t.chains && DirsStay(t, u)
    ensures v.View().fat == old(v.View()).fat && FilesKept(t, old(v.View()), v.View(), {})
    ensures Conserves(v.g, old(v.View()), v.View())
    ensures OtherDirs(v.g, old(v.View()), t, v.View(), u, d)
    ensures var e := FileEntry(v.g.kind, FreshEntry(Sfn(name), FILE), first, |data|);
      DirOf(v.g, v.View(), u, d) == DirOf(v.g, old(v.View()), t, d)[i := e]
    ensures name[0] != DELETED <==> ReadsAs(v.g, v.View(), DirOf(v.g, v.View(), u, d), Sfn(name), data)
  {
    hide v.Ok, v.View, DirsGood, ChainsOk, Apart, DirOf, FilesKept, Conserves, ZeroTail, FileOutcome, Shape, ReadsAs,
         FindFrom, EntriesOk;
    hide FirstCluster, SizeOf, FileEntry, FreshEntry;
    ghost var dir := DirOf(v.g, v.View(), t, d);
    var sfn := MakeSfn(name);
    var e := FileEntry(v.g.kind, FreshEntry(sfn, FILE), first, |data|);
    NewEntryIs(v, t, d, name, first, |data|);
    WellFormedDir(v.g, v.View(), t, {}, d);
    BeyondDots(v.g, t, d, dir, {}, i);
    SlotUnowned(v.g, v.View(), t, d, i);
    TailKept(dir, i, e);
    ghost var m := v.View();
    u := PlaceEntry(v, d, i, e, t, {});
    assert {} - {(d, i)} == {};
    NewReads(v.g, m, v.View(), t, d, dir, i, e, name, first, data);
  }

  lemma WellFormedDir(g: Geo, m: Vol, t: Tree, h: set<(nat, nat)>, d: nat)
    requires WellFormed(g, m, t, h) && d in t.dirs
    ensures ZeroTail(DirOf(g, m, t, d)) && EntriesOk(g, t, d, DirOf(g, m, t, d), h)
  {
  }

  /** The first two slots of a directory that has an entry are its dot entries. */
  lemma BeyondDots(g: Geo, t: Tree, d: nat, dir: seq<Slot>, h: set<(nat, nat)>, i: nat)
    requires SlotsOk(dir) && EntriesOk(g, t, d, dir, h) && i < |dir| && dir[i][0] != DOT
    ensures d in t.owner ==> i >= 2
  {
  }

  /** The entry of a new file, and that it fits. */
  lemma NewEntryIs(v: Volume, t: Tree, d: nat, name: seq<Byte>, first: nat, size: nat)
    requires v.Ok() && d in t.dirs && name != [] && 0 !in name && Valid(v.g, first) && size < 0x1_0000_0000
    requires first in t.chains && first !in t.owner && first !in t.dirs && first != RootId(v.g)
    ensures var e := FileEntry(v.g.kind, FreshEntry(Sfn(name), FILE), first, size);
      && e[..11] == Sfn(name) && e[0] == Sfn(name)[0] && e[0] != 0 && (e[0] == DELETED <==> name[0] == DELETED)
      && FirstCluster(v.g.kind, e) == first && SizeOf(e) == size && !IsDirectory(e) && !VolumeId(e)
      && Fits(v.g, t, d, e)
  {
    hide FileEntry, FreshEntry, FirstCluster, SizeOf, Sfn;
    var f := FreshEntry(Sfn(name), FILE);
    assert first < Range(v.g.kind) by { hide CopiesAgree, DiskOk; }
    FileEntryIs(v.g.kind, f, first, size);
    var e := FileEntry(v.g.kind, f, first, size);
    assert e[..11] == e[..12][..11] && f[..11] == f[..12][..11] && e[11] == e[..12][11] && f[11] == f[..12][11];
    assert e[0] == e[..11][0];
    SfnStart(name);
  }

  /** A new file reads back, unless its name starts with the mark of deleted entries. */
  lemma NewReads(g: Geo, m: Vol, after: Vol, t: Tree, d: nat, dir: seq<Slot>, i: nat, e: Slot, name: seq<Byte>,
                 first: nat, data: seq<Byte>)
    requires WellFormed(g, m, t, {}) && Shape(g, after) && SlotsOk(dir) && FreeSlot(dir, i)
    requires FindFrom(dir, Sfn(name), 0) == Missing
    requires name != [] && first in t.chains && first !in t.dirs && FilesKept(t, m, after, {})
    requires FileOutcome(g, m, first, |data|) == Contents(data)
    requires |e| == SLOT && e[..11] == Sfn(name) && e[0] == Sfn(name)[0] && e[0] != 0
    requires (e[0] == DELETED <==> name[0] == DELETED)
    requires FirstCluster(g.kind, e) == first && SizeOf(e) == |data| && !IsDirectory(e) && !VolumeId(e)
    ensures name[0] != DELETED <==> ReadsAs(g, after, dir[i := e], Sfn(name), data)
  {
    hide DirsGood, FileOutcome, FirstCluster, SizeOf, Sfn, IsChain, Full, FullCluster, IsDirectory, VolumeId;
    if name[0] != DELETED {
      FileSame(g, m, after, t.chains[first], |data|);
      MissingBefore(dir, Sfn(name), i, 0);
      ReadsNew(g, after, dir, i, e, Sfn(name), data);
    } else {
      NeverFound(dir[i := e], Sfn(name), 0);
      assert ReadOutcome(g, after, dir[i := e], Sfn(name), |data|) != Contents(data);
    }
  }

  /** Nothing at all changed for any reader. */
  lemma NothingChanged(g: Geo, m: Vol, t: Tree, after: Vol, u: Tree, d: nat, grown: bool)
    requires WellFormed(g, m, t, {}) && Shape(g, after) && d in t.dirs && FilesKept(t, m, after, {})
    requires OtherDirs(g, m, t, after, u, d)
    requires DirOf(g, after, u, d) == DirOf(g, m, t, d) + if grown then EndMarks(g) else []
    ensures Unaffected(g, m, t, after, u, d, [])
  {
    hide ChainsOk, Apart, DirsOk, DirsGood, DirOf, Shape, ReadOutcome, FilesKept, Sfn, EndMarks;
    var dir, now := DirOf(g, m, t, d), DirOf(g, after, u, d);
    forall b | b in t.dirs && (b in u.dirs || b == d)
      ensures ReadsSame(g, m, DirOf(g, m, t, b), after, DirOf(g, after, u, b), [])
    {
      forall x: seq<Byte> ensures FindsSame(DirOf(g, m, t, b), DirOf(g, after, u, b), Sfn(x)) {
        if b == d {
          if grown { FindGrown(g, dir, Sfn(x), 0); } else { assert now == dir; }
        }
      }
      forall x: seq<Byte>, max: nat
        ensures ReadOutcome(g, after, DirOf(g, after, u, b), Sfn(x), max) ==
          ReadOutcome(g, m, DirOf(g, m, t, b), Sfn(x), max)
      {
        StillReads(g, m, t, after, b, DirOf(g, after, u, b), d, |now|, {}, x, max);
      }
    }
  }

  /** There is a slot for a new entry, and the clusters for a file and for the directory if it must grow. */
  ghost predicate RoomForNew(g: Geo, m: Vol, t: Tree, d: nat, size: nat)
    requires g.spc > 0
  {
    && HasRoom(g, m, t, d)
    && Wanted(g, size) + (if RoomFrom(DirOf(g, m, t, d), 0).GrowAt? then 1 else 0) <= |ZeroSet(m.fat)|
  }

  /** Creates a file under a name that is not there yet. */
  method CreateNew(v: Volume, name: seq<Byte>, data: seq<Byte>, ghost t: Tree)
    returns (ok: bool, ghost u: Tree, ghost made: Vol, ghost at: nat)
    requires Good(v, t) && name != [] && 0 !in name && |data| < 0x1_0000_0000
    requires FindFrom(DirOf(v.g, v.View(), t, v.current), Sfn(name), 0) == Missing
    modifies v`disk
    ensures Good(v, u) && u.dirs == t.dirs && DirsStay(t, u) && Conserves(v.g, old(v.View()), v.View())
    ensures Unaffected(v.g, old(v.View()), t, v.View(), u, v.current, if ok then Sfn(name) else [])
    ensures ok <==> RoomForNew(v.g, old(v.View()), t, v.current, |data|)
    ensures !ok ==> RoomMade(v.g, old(v.View()), t, v.current, v.View().fat)
    ensures !ok ==> OnlyRoom(v.g, old(v.View()), t, v.current, DirOf(v.g, v.View(), u, v.current))
    ensures ok ==> EnteredIn(v.g, DirOf(v.g, old(v.View()), t, v.current), DirOf(v.g, v.View(), u, v.current),
                             FileEntry(v.g.kind, FreshEntry(Sfn(name), FILE), at, |data|))
    ensures ok ==> (name[0] != DELETED <==> ReadsAs(v.g, v.View(), DirOf(v.g, v.View(), u, v.current), Sfn(name), data))
    ensures ok ==> Entered(v.g, made, v.View(), u, v.current, name, at)
    ensures ok && !RoomFrom(DirOf(v.g, old(v.View()), t, v.current), 0).GrowAt? ==> made == old(v.View())
    ensures ok && RoomFrom(DirOf(v.g, old(v.View()), t, v.current), 0).GrowAt? ==>
      && Growable(v.g, old(v.View()).fat, ChainOf(t, v.current))
      && made.fat == GrownFat(v.g, old(v.View()).fat, ChainOf(t, v.current))
  {
    hide v.Ok, v.View, DirsGood, ChainsOk, Apart, DirsOk, DirOf, FilesKept, SameFiles, Conserves, ZeroTail,
         FileOutcome, Shape, ReadsAs, FindFrom;
    hide RoomFrom, Unaffected, OtherDirs, ZeroSet, Wanted, EndMarks, HasRoom, Sfn, FileEntry, FreshEntry, Rooted,
         Growable, GrownFat, RoomMade;
    ghost var m, d := v.View(), v.current;
    ghost var dir := DirOf(v.g, m, t, d);
    ok, at := false, 0;
    var room;
    room, u := MakeRoom(v, v.current, t);
    ghost var m1, t1 := v.View(), u;
    made := m1;
    if room == NoRoom {
      assert DirOf(v.g, m1, t1, d) == dir + [];
      StillGood(v, t, t1);
      NothingChanged(v.g, m, t, m1, t1, d, false);
      return;
    }
    ghost var grown := room.GrowAt?;
    assert DirOf(v.g, m1, t1, d) == dir + if grown then EndMarks(v.g) else [];
    if grown { FindGrown(v.g, dir, Sfn(name), 0); }
    var first;
    first, u := StoreFile(v, data, t1, {});
    ghost var m2, t2 := v.View(), u;
    FilesKeptThen(t, t1, m, m1, m2, {});
    ConservesThen(v.g, m, m1, m2);
    OtherDirsThen(v.g, m, t, m1, t1, m2, t2, d);
    if first == 0 {
      StillGood(v, t, t2);
      NothingChanged(v.g, m, t, m2, t2, d, grown);
      return;
    }
    u := EnterFile(v, v.current, room.i, name, first, data, t2);
    StillGood(v, t, u);
    SameFilesThen(t, t1, t2, {});
    FilesKeptThen(t, t2, m, m2, v.View(), {});
    ConservesThen(v.g, m, m2, v.View());
    OtherDirsThen(v.g, m, t, m2, t2, v.View(), u, d);
    ghost var e := FileEntry(v.g.kind, FreshEntry(Sfn(name), FILE), first, |data|);
    NewEntryIs(v, t2, d, name, first, |data|);
    WellFormedDir(v.g, m1, t1, {}, d);
    UnaffectedBy(v.g, m, t, v.View(), u, d, grown, room.i, e, {}, Sfn(name));
    if name[0] != DELETED {
      MissingBefore(DirOf(v.g, m1, t1, d), Sfn(name), room.i, 0);
      FindNew(DirOf(v.g, m1, t1, d), room.i, e, Sfn(name), 0);
    }
    ok, at := true, first;
  }

  /** A new file: its entry is what its name finds, and its chain is made of clusters that were free. */
  ghost predicate Entered(g: Geo, made: Vol, m: Vol, t: Tree, d: nat, name: seq<Byte>, first: nat) {
    && |m.fat| == |made.fat| && first in t.chains
    && (forall x :: x in t.chains[first] ==> x < |m.fat| && made.fat[x] == 0)
    && (forall x :: 0 <= x < |m.fat| && x !in t.chains[first] ==> m.fat[x] == made.fat[x])
    && (name != [] && name[0] != DELETED ==>
          var r := FindFrom(DirOf(g, m, t, d), Sfn(name), 0);
          && r.Found? && first != 0 && !IsDirectory(DirOf(g, m, t, d)[r.i])
          && FirstCluster(g.kind, DirOf(g, m, t, d)[r.i]) == first)
  }

  lemma OtherDirsThen(g: Geo, m: Vol, t: Tree, mid: Vol, s: Tree, after: Vol, u: Tree, d: nat)
    requires OtherDirs(g, m, t, mid, s, d) && s.dirs == t.dirs && OtherDirs(g, mid, s, after, u, d)
    ensures OtherDirs(g, m, t, after, u, d)
  {
  }

  lemma SameFilesThen(t: Tree, s: Tree, u: Tree, gone: set<nat>)
    requires SameFiles(t, s, gone) && SameFiles(s, u, {})
    ensures SameFiles(t, u, gone)
  {
  }

  /** Two chains from the same cluster are the same. */
  lemma ChainUnique(g: Geo, fat: seq<nat>, a: seq<nat>, b: seq<nat>)
    requires TableOk(g, fat) && IsChain(g, fat, a) && IsChain(g, fat, b) && a[0] == b[0]
    ensures a == b
  {
    ChainLinks(g, fat, a, |a|);
    ChainLinks(g, fat, b, |a|);
    ChainLinks(g, fat, a, |b|);
    ChainLinks(g, fat, b, |b|);
    assert |a| == |b|;
    forall k: nat | k < |a| ensures a[k] == b[k] {
      ChainLinks(g, fat, a, k);
      ChainLinks(g, fat, b, k);
    }
  }

  /** An entry that leads to a free cluster is at home in no well-formed volume. */
  lemma DanglingEntry(g: Geo, m: Vol, t: Tree, h: set<(nat, nat)>, w: Tree, d: nat, i: nat)
    requires WellFormed(g, m, t, h) && d in t.dirs && i < |DirOf(g, m, t, d)| && d in w.dirs
    requires var e := DirOf(g, m, t, d)[i];
      Object(e) && Valid(g, FirstCluster(g.kind, e)) && m.fat[FirstCluster(g.kind, e)] == 0
    ensures !WellFormed(g, m, w, {})
  {
    hide IsChain, Listing, ListingOk, Object, FirstCluster, IsDirectory, Full, FullCluster;
    if ChainsOk(g, m.fat, w) && DirsOk(g, w) && DirsGood(g, m, w, {}) {
      ZeroNoChain(g, m, t);
      ZeroNoChain(g, m, w);
      if d != 0 { ChainUnique(g, m.fat, t.chains[d], w.chains[d]); }
      var e := DirOf(g, m, t, d)[i];
      var c := FirstCluster(g.kind, e);
      assert DirOf(g, m, w, d) == DirOf(g, m, t, d);
      assert EntryOk(g, w, d, i, e);
      FreeOffChain(g, m.fat, w.chains[c], c);
    }
  }

  /** An entry that is sound need not be left out of account. */
  lemma HoleClosed(g: Geo, m: Vol, t: Tree, d: nat, i: nat)
    requires WellFormed(g, m, t, {(d, i)}) && d in t.dirs && i < |DirOf(g, m, t, d)|
    requires EntryOk(g, t, d, i, DirOf(g, m, t, d)[i]) && Unowned(t, d, i)
    ensures WellFormed(g, m, t, {})
  {
    hide IsChain, Listing, ListingOk, Object, EntryOk, Full, FullCluster, DirOf, ZeroTail;
  }

  /** A directory in which the entry in slot i leads to other clusters and has another size; no other byte differs. */
  ghost predicate Rewritten(g: Geo, dir: seq<Slot>, now: seq<Slot>, i: nat, size: nat)
    requires SlotsOk(dir)
  {
    i < |dir| && exists c: nat :: now == dir[i := FileEntry(g.kind, dir[i], c, size)]
  }

  /** Overwrites the file whose entry was found in slot i. The old bytes are given up first. */
  method Overwrite(v: Volume, name: seq<Byte>, i: nat, e: Slot, data: seq<Byte>, ghost t: Tree)
    returns (ok: bool, ghost u: Tree)
    requires Good(v, t) && |data| < 0x1_0000_0000
    requires FindFrom(DirOf(v.g, v.View(), t, v.current), Sfn(name), 0) == Found(i)
    requires e == DirOf(v.g, v.View(), t, v.current)[i] && !IsDirectory(e)
    modifies v`disk
    ensures v.Ok() && v.current in u.dirs && DirsStay(t, u) && Conserves(v.g, old(v.View()), v.View())
    ensures Unaffected(v.g, old(v.View()), t, v.View(), u, v.current, Sfn(name))
    ensures ok <==> Wanted(v.g, |data|) <= |ZeroSet(old(v.View()).fat)| + |ChainOf(t, FirstCluster(v.g.kind, e))|
    ensures ok ==> WellFormed(v.g, v.View(), u, {}) && u.dirs == t.dirs
    ensures ok ==> ReadsAs(v.g, v.View(), DirOf(v.g, v.View(), u, v.current), Sfn(name), data)
    ensures !ok ==> WellFormed(v.g, v.View(), u, {(v.current, i)}) && u.dirs == t.dirs
    ensures !ok ==> (Repairable(v.g, v.View(), v.current) <==> FirstCluster(v.g.kind, e) == 0)
    ensures !ok && FirstCluster(v.g.kind, e) == 0 ==> WellFormed(v.g, v.View(), u, {})
    ensures !ok ==> DirOf(v.g, v.View(), u, v.current) == DirOf(v.g, old(v.View()), t, v.current)
    ensures ok ==>
      Rewritten(v.g, DirOf(v.g, old(v.View()), t, v.current), DirOf(v.g, v.View(), u, v.current), i, |data|)
  {
    hide v.Ok, v.View, DirsGood, ChainsOk, Apart, DirsOk, DirOf, FilesKept, SameFiles, Conserves, ZeroTail,
         FileOutcome, Shape, ReadsAs;
    hide Unaffected, OtherDirs, ZeroSet, Wanted, Sfn, FileEntry, FirstCluster, SizeOf, Fits, Object, IsDirectory,
         GoneFrom, Repairable, Rooted;
    ghost var m, d, c := v.View(), v.current, FirstCluster(v.g.kind, e);
    ghost var dir := DirOf(v.g, m, t, d);
    FoundEntry(v.g, m, t, d, i, name);
    GoneIs(v.g, t, d, i, e);
    u := DropFile(v, v.current, i, e, t);
    ghost var m1, t1 := v.View(), u;
    SameOthers(v.g, m, t, m1, t1, d);
    var first;
    first, u := StoreFile(v, data, t1, {(d, i)});
    ghost var m2, t2 := v.View(), u;
    SameOthers(v.g, m1, t1, m2, t2, d);
    OtherDirsThen(v.g, m, t, m1, t1, m2, t2, d);
    FilesKeptThen(t, t1, m, m1, m2, {c});
    ConservesThen(v.g, m, m1, m2);
    ok := first != 0;
    if !ok {
      OverwriteFailed(v.g, m, t, m2, t2, d, i, e, name);
      return;
    }
    var e2 := FileEntry(v.g.kind, e, first, |data|);
    ChangedEntryIs(v, t2, d, e, first, |data|);
    TailKept(dir, i, e2);
    u := PlaceEntry(v, v.current, i, e2, t2, {(d, i)});
    assert {(d, i)} - {(d, i)} == {};
    SameFilesThen(t, t1, t2, {c});
    FilesKeptThen(t, t2, m, m2, v.View(), {c});
    ConservesThen(v.g, m, m2, v.View());
    OtherDirsThen(v.g, m, t, m2, t2, v.View(), u, d);
    OverwriteDone(v.g, m, t, m2, t2, v.View(), u, d, i, e, e2, name, data);
  }

  lemma GoneIs(g: Geo, t: Tree, d: nat, i: nat, e: Slot)
    requires |e| == SLOT && EntryOk(g, t, d, i, e)
    ensures GoneFrom(t, d, i, {FirstCluster(g.kind, e)})
  {
    hide FirstCluster;
  }

  lemma SameOthers(g: Geo, m: Vol, t: Tree, after: Vol, u: Tree, d: nat)
    requires forall b :: b in t.dirs ==> DirOf(g, after, u, b) == DirOf(g, m, t, b)
    ensures OtherDirs(g, m, t, after, u, d)
  {
  }

  /** The entry of an overwritten file, and that it fits. */
  lemma ChangedEntryIs(v: Volume, t: Tree, d: nat, e: Slot, first: nat, size: nat)
    requires v.Ok() && d in t.dirs && |e| == SLOT && Object(e) && !IsDirectory(e) && Valid(v.g, first)
    requires size < 0x1_0000_0000
    requires first in t.chains && first !in t.owner && first !in t.dirs && first != RootId(v.g)
    ensures var r := FileEntry(v.g.kind, e, first, size);
      && r[..11] == e[..11] && r[0] == e[0] && r[0] != 0 && Visible(r) && !IsDirectory(r) && Fits(v.g, t, d, r)
      && FirstCluster(v.g.kind, r) == first && SizeOf(r) == size
  {
    hide FileEntry, FirstCluster, SizeOf;
    assert first < Range(v.g.kind) by { hide CopiesAgree, DiskOk; }
    FileEntryIs(v.g.kind, e, first, size);
    var r := FileEntry(v.g.kind, e, first, size);
    assert r[..11] == r[..12][..11] && e[..11] == e[..12][..11] && r[11] == r[..12][11] && e[11] == e[..12][11];
    assert r[0] == r[..12][0] && e[0] == e[..12][0];
  }

  /** A failed overwrite leaves a volume that is well-formed in some way exactly when there was nothing to free. */
  lemma OverwriteFailed(g: Geo, m: Vol, t: Tree, after: Vol, u: Tree, d: nat, i: nat, e: Slot, name: seq<Byte>)
    requires WellFormed(g, m, t, {}) && WellFormed(g, after, u, {(d, i)}) && d in t.dirs && u.dirs == t.dirs
    requires FindFrom(DirOf(g, m, t, d), Sfn(name), 0) == Found(i) && e == DirOf(g, m, t, d)[i]
    requires DirOf(g, after, u, d) == DirOf(g, m, t, d) && OtherDirs(g, m, t, after, u, d)
    requires FilesKept(t, m, after, {FirstCluster(g.kind, e)}) && GoneFrom(t, d, i, {FirstCluster(g.kind, e)})
    requires FirstCluster(g.kind, e) == 0 ==> u == t
    requires forall x :: x in ChainOf(t, FirstCluster(g.kind, e)) && x < |after.fat| ==> after.fat[x] == 0
    ensures Unaffected(g, m, t, after, u, d, Sfn(name))
    ensures Repairable(g, after, d) <==> FirstCluster(g.kind, e) == 0
    ensures FirstCluster(g.kind, e) == 0 ==> WellFormed(g, after, u, {})
  {
    hide DirsGood, ChainsOk, Apart, DirsOk, DirOf, FilesKept, GoneFrom, OtherDirs, Unaffected, FindFrom, Sfn,
         ZeroTail, Full, FullCluster;
    hide FirstCluster, Object;
    FoundEntry(g, m, t, d, i, name);
    var dir, c := DirOf(g, m, t, d), FirstCluster(g.kind, e);
    assert dir + [] == dir && dir[i := e] == dir;
    UnaffectedBy(g, m, t, after, u, d, false, i, e, {c}, Sfn(name));
    if c == 0 {
      SlotUnowned(g, m, t, d, i);
      HoleClosed(g, after, t, d, i);
      assert d in t.dirs && WellFormed(g, after, t, {});
    } else {
      EntryCluster(g, m, t, d, i, e);
      forall w: Tree | d in w.dirs ensures !WellFormed(g, after, w, {}) {
        DanglingEntry(g, after, u, {(d, i)}, w, d, i);
      }
    }
  }

  lemma EntryCluster(g: Geo, m: Vol, t: Tree, d: nat, i: nat, e: Slot)
    requires Shape(g, m) && ChainsOk(g, m.fat, t) && |e| == SLOT && EntryOk(g, t, d, i, e)
    requires FirstCluster(g.kind, e) != 0
    ensures Valid(g, FirstCluster(g.kind, e)) && FirstCluster(g.kind, e) in ChainOf(t, FirstCluster(g.kind, e))
  {
    hide FirstCluster;
    ZeroNoChain(g, m, t);
    var ch := t.chains[FirstCluster(g.kind, e)];
    assert ch[0] in ch;
  }

  lemma OverwriteDone(g: Geo, m: Vol, t: Tree, mid: Vol, s: Tree, after: Vol, u: Tree, d: nat, i: nat, e: Slot,
                      e2: Slot, name: seq<Byte>, data: seq<Byte>)
    requires WellFormed(g, m, t, {}) && WellFormed(g, mid, s, {(d, i)}) && WellFormed(g, after, u, {}) && d in t.dirs
    requires FindFrom(DirOf(g, m, t, d), Sfn(name), 0) == Found(i) && e == DirOf(g, m, t, d)[i] && |e2| == SLOT
    requires DirOf(g, after, u, d) == DirOf(g, m, t, d)[i := e2] && OtherDirs(g, m, t, after, u, d)
    requires FilesKept(t, m, after, {FirstCluster(g.kind, e)}) && GoneFrom(t, d, i, {FirstCluster(g.kind, e)})
    requires e2[..11] == e[..11] && e2[0] != 0 && Visible(e2) && !IsDirectory(e2) && SizeOf(e2) == |data|
    requires FirstCluster(g.kind, e2) in s.chains && FirstCluster(g.kind, e2) !in s.dirs && FilesKept(s, mid, after, {})
    requires FileOutcome(g, mid, FirstCluster(g.kind, e2), |data|) == Contents(data)
    ensures Unaffected(g, m, t, after, u, d, Sfn(name)) && ReadsAs(g, after, DirOf(g, after, u, d), Sfn(name), data)
  {
    hide DirsGood, Apart, DirsOk, DirOf, GoneFrom, OtherDirs, Unaffected, FindFrom, Sfn, ZeroTail, Full, FullCluster,
         IsChain, FileOutcome;
    hide FirstCluster, Object, SizeOf, IsDirectory, Visible, ReadsAs;
    FoundEntry(g, m, t, d, i, name);
    var dir, c := DirOf(g, m, t, d), FirstCluster(g.kind, e);
    assert dir + [] == dir;
    UnaffectedBy(g, m, t, after, u, d, false, i, e2, {c}, Sfn(name));
    FileSame(g, mid, after, s.chains[FirstCluster(g.kind, e2)], |data|);
    ReadsNew(g, after, dir, i, e2, Sfn(name), data);
  }

  /** The volume is well-formed in some way. */
  ghost predicate Repairable(g: Geo, m: Vol, d: nat) {
    exists w: Tree :: d in w.dirs && WellFormed(g, m, w, {})
  }

  /** What a name finds is an entry that is accounted for, with that name. */
  lemma FoundEntry(g: Geo, m: Vol, t: Tree, d: nat, i: nat, name: seq<Byte>)
    requires WellFormed(g, m, t, {}) && d in t.dirs && FindFrom(DirOf(g, m, t, d), Sfn(name), 0) == Found(i)
    ensures var dir := DirOf(g, m, t, d);
      && i < |dir| && i < MAX_SLOTS && Object(dir[i]) && dir[i][..11] == Sfn(name) && dir[i][0] == Sfn(name)[0]
      && dir[i][0] != 0
      && EntryOk(g, t, d, i, dir[i]) && (d in t.owner ==> i >= 2) && ZeroTail(dir)
      && forall j :: 0 <= j < i ==> dir[j][0] != 0 && !Matches(dir[j], Sfn(name))
  {
    hide IsChain, Listing, ListingOk, IsDirectory, VolumeId, FirstCluster, Full, FullCluster, DirOf, ZeroTail, Sfn;
    SfnStart(name);
    var e := DirOf(g, m, t, d)[i];
    assert e[..11][0] == e[0];
  }

  /** When a file can be created under a name: the name is given, is not that of a directory, and there are
      the clusters (those of the file that it replaces included) and the slot for it. */
  ghost predicate CanCreate(g: Geo, m: Vol, t: Tree, d: nat, name: seq<Byte>, size: nat)
    requires g.spc > 0
  {
    name != [] &&
    match FindFrom(DirOf(g, m, t, d), Sfn(name), 0)
    case Missing => RoomForNew(g, m, t, d, size)
    case Found(i) =>
      var e := DirOf(g, m, t, d)[i];
      !IsDirectory(e) && Wanted(g, size) <= |ZeroSet(m.fat)| + |ChainOf(t, FirstCluster(g.kind, e))|
  }

  /** A name that stands for a file with clusters of its own. */
  ghost predicate ReplacesFile(g: Geo, m: Vol, t: Tree, d: nat, name: seq<Byte>) {
    match FindFrom(DirOf(g, m, t, d), Sfn(name), 0)
    case Missing => false
    case Found(i) => !IsDirectory(DirOf(g, m, t, d)[i]) && FirstCluster(g.kind, DirOf(g, m, t, d)[i]) != 0
  }

  /** A name that stands for a file, or for a directory. */
  ghost predicate Names(g: Geo, m: Vol, t: Tree, d: nat, name: seq<Byte>, directory: bool) {
    match FindFrom(DirOf(g, m, t, d), Sfn(name), 0)
    case Missing => false
    case Found(i) => IsDirectory(DirOf(g, m, t, d)[i]) == directory
  }

  /** The slots of the directory after a write: a new entry, or the old one with another cluster and size. */
  ghost predicate ListedAfter(g: Geo, m: Vol, t: Tree, d: nat, name: seq<Byte>, size: nat, now: seq<Slot>, ok: bool) {
    var dir := DirOf(g, m, t, d);
    match FindFrom(dir, Sfn(name), 0)
    case Found(i) => if ok then Rewritten(g, dir, now, i, size) else now == dir
    case Missing =>
      if ok then exists c: nat :: EnteredIn(g, dir, now, FileEntry(g.kind, FreshEntry(Sfn(name), FILE), c, size))
      else if name == [] then now == dir
      else OnlyRoom(g, m, t, d, now)
  }

  /** Creates or overwrites a file of the current directory. It succeeds exactly when it can; the file then
      reads back byte for byte, unless its name starts with the mark of deleted entries. Every other file of
      every directory reads as before, whether it succeeds or not. The volume stays well-formed, except
      exactly when replacing a file that has clusters fails; the old file is lost then. */
  method Create(v: Volume, name: seq<Byte>, data: seq<Byte>, ghost t: Tree)
    returns (ok: bool, lost: bool, ghost u: Tree)
    requires Good(v, t) && 0 !in name && |data| < 0x1_0000_0000
    modifies v`disk
    ensures v.Ok() && u.dirs == t.dirs && DirsStay(t, u) && Conserves(v.g, old(v.View()), v.View())
    ensures ok <==> CanCreate(v.g, old(v.View()), t, v.current, name, |data|)
    ensures lost <==> !ok && name != [] && ReplacesFile(v.g, old(v.View()), t, v.current, name)
    ensures Unaffected(v.g, old(v.View()), t, v.View(), u, v.current, Sfn(name))
    ensures ok ==> (name[0] != DELETED <==> ReadsAs(v.g, v.View(), DirOf(v.g, v.View(), u, v.current), Sfn(name), data))
    ensures !lost ==> Good(v, u)
    ensures name == [] || Names(v.g, old(v.View()), t, v.current, name, true) ==> v.View() == old(v.View()) && u == t
    ensures !ok && name != [] && FindFrom(DirOf(v.g, old(v.View()), t, v.current), Sfn(name), 0) == Missing ==>
      RoomMade(v.g, old(v.View()), t, v.current, v.View().fat)
    ensures ListedAfter(v.g, old(v.View()), t, v.current, name, |data|, DirOf(v.g, v.View(), u, v.current), ok)
    ensures lost ==>
      && !Repairable(v.g, v.View(), v.current)
      && WellFormed(v.g, v.View(), u, {(v.current, FindFrom(DirOf(v.g, old(v.View()), t, v.current), Sfn(name), 0).i)})
  {
    hide v.Ok, v.View, WellFormed, DirOf, Conserves, Shape, ReadsAs, Unaffected, ZeroSet, Wanted, Sfn, FirstCluster,
         IsDirectory, RoomForNew, Rooted;
    ghost var m, d := v.View(), v.current;
    NoChange(v.g, m, t, d, Sfn(name));
    ok, lost, u := false, false, t;
    if name == [] { return; }
    DirLocated(v.g, m, t, {}, d);
    var r, e := FindEntry(v, v.current, name, ChainOf(t, d));
    if r.Found? {
      if IsDirectory(e) { return; }
      FoundName(v.g, m, t, d, r.i, name);
      ok, u := Overwrite(v, name, r.i, e, data, t);
      lost := !ok && FirstCluster(v.g.kind, e) != 0;
      if !lost { StillGood(v, t, u); }
    } else {
      ghost var made, at;
      ok, u, made, at := CreateNew(v, name, data, t);
      if !ok {
        UnaffectedBut(v.g, m, t, v.View(), u, d, Sfn(name));
      }
    }
  }

  lemma NoChange(g: Geo, m: Vol, t: Tree, d: nat, but: seq<Byte>)
    requires WellFormed(g, m, t, {}) && d in t.dirs
    ensures Unaffected(g, m, t, m, t, d, but) && Conserves(g, m, m) && Repairable(g, m, d)
  {
    hide ChainsOk, Apart, DirsOk, DirsGood, DirOf, Unaffected, Conserves, Full, FullCluster;
    ConservesSame(g, m, m);
    SameKept(t, m);
    assert DirOf(g, m, t, d) + [] == DirOf(g, m, t, d);
    NothingChanged(g, m, t, m, t, d, false);
    UnaffectedBut(g, m, t, m, t, d, but);
  }

  lemma UnaffectedBut(g: Geo, m: Vol, t: Tree, after: Vol, u: Tree, d: nat, but: seq<Byte>)
    requires Shape(g, m) && Shape(g, after) && g.spc > 0 && Unaffected(g, m, t, after, u, d, [])
    ensures Unaffected(g, m, t, after, u, d, but)
  {
    hide DirOf, Shape, ReadOutcome, Sfn;
  }

  /** A name that is found does not start with the mark of deleted entries. */
  lemma FoundName(g: Geo, m: Vol, t: Tree, d: nat, i: nat, name: seq<Byte>)
    requires WellFormed(g, m, t, {}) && d in t.dirs && FindFrom(DirOf(g, m, t, d), Sfn(name), 0) == Found(i)
    requires name != []
    ensures name[0] != DELETED
  {
    hide DirOf, FindFrom, DirsGood;
    FoundEntry(g, m, t, d, i, name);
    SfnStart(name);
  }
}
