/** Deleting files, and making and removing directories, on a well-formed volume. */
module FatTreeOps {
  import opened Bytes
  import opened Geometry
  import opened FatCodec
  import opened FatDisk
  import opened FatChains
  import opened FatVolume
  import opened FatSpace
  import opened FatWrite
  import opened FatDir
  import opened FatName
  import opened FatLookup
  import opened FatTree
  import opened FatRead
  import opened FatEntry
  import opened FatSteps
  import opened FatFiles

  /** An entry marked as deleted. */
  function Struck(e: Slot): (r: Slot)
    requires |e| == SLOT
    ensures |r| == SLOT && r[0] == DELETED
  {
    e[0 := DELETED]
  }

  lemma StruckFits(g: Geo, t: Tree, d: nat, e: Slot)
    requires |e| == SLOT
    ensures Fits(g, t, d, Struck(e)) && !Object(Struck(e))
  {
  }

  /** The first cluster of what a name finds. */
  ghost function ClusterNamed(g: Geo, m: Vol, t: Tree, d: nat, name: seq<Byte>): nat {
    match FindFrom(DirOf(g, m, t, d), Sfn(name), 0)
    case Missing => 0
    case Found(i) => FirstCluster(g.kind, DirOf(g, m, t, d)[i])
  }

  /** A name now finds the match that came after the first one, and nothing if there was none. */
  ghost predicate NextFound(dir: seq<Slot>, now: seq<Slot>, name: seq<Byte>)
    requires SlotsOk(dir) && SlotsOk(now)
  {
    var r := FindFrom(dir, name, 0);
    r.Found? && FindFrom(now, name, 0) == FindFrom(dir, name, r.i + 1)
  }

  /** The entry that a name found is marked as deleted in its first byte; no other byte of the directory differs. */
  ghost predicate StruckOut(dir: seq<Slot>, now: seq<Slot>, name: seq<Byte>)
    requires SlotsOk(dir)
  {
    var r := FindFrom(dir, name, 0);
    r.Found? && now == dir[r.i := dir[r.i][0 := 0xE5]]
  }

  /** Deletes a file: exactly its clusters become free, and every other file reads as before. */
  method Delete(v: Volume, name: seq<Byte>, ghost t: Tree) returns (ok: bool, ghost u: Tree)
    requires Good(v, t)
    modifies v`disk
    ensures Good(v, u) && u.dirs == t.dirs && DirsStay(t, u) && Conserves(v.g, old(v.View()), v.View())
    ensures ok <==> Names(v.g, old(v.View()), t, v.current, name, false)
    ensures Unaffected(v.g, old(v.View()), t, v.View(), u, v.current, Sfn(name))
    ensures !ok ==> v.View() == old(v.View()) && u == t
    ensures ok ==> forall x :: 0 <= x < |v.View().fat| ==>
      v.View().fat[x] == if x in ChainOf(t, ClusterNamed(v.g, old(v.View()), t, v.current, name)) then 0
                         else old(v.View()).fat[x]
    ensures ok ==> NextFound(DirOf(v.g, old(v.View()), t, v.current), DirOf(v.g, v.View(), u, v.current), Sfn(name))
    ensures ok ==> StruckOut(DirOf(v.g, old(v.View()), t, v.current), DirOf(v.g, v.View(), u, v.current), Sfn(name))
  {
    hide v.Ok, v.View, DirsGood, ChainsOk, Apart, DirsOk, DirOf, FilesKept, SameFiles, Conserves, ZeroTail, Shape,
         Unaffected, OtherDirs, Rooted;
    hide ZeroSet, Sfn, FirstCluster, Object, IsDirectory, GoneFrom, Fits, NextFound;
    ghost var m, d := v.View(), v.current;
    ghost var dir := DirOf(v.g, m, t, d);
    NoChange(v.g, m, t, d, Sfn(name));
    DirLocated(v.g, m, t, {}, d);
    var r, e := FindEntry(v, v.current, name, ChainOf(t, d));
    if r == Missing || IsDirectory(e) { return false, t; }
    var i := r.i;
    ghost var c := FirstCluster(v.g.kind, e);
    FoundEntry(v.g, m, t, d, i, name);
    GoneIs(v.g, t, d, i, e);
    u := DropFile(v, v.current, i, e, t);
    ghost var m1, t1 := v.View(), u;
    SameOthers(v.g, m, t, m1, t1, d);
    StruckFits(v.g, t1, d, e);
    TailKept(dir, i, Struck(e));
    u := PlaceEntry(v, v.current, i, Struck(e), t1, {(d, i)});
    assert {(d, i)} - {(d, i)} == {};
    FilesKeptThen(t, t1, m, m1, v.View(), {c});
    ConservesThen(v.g, m, m1, v.View());
    OtherDirsThen(v.g, m, t, m1, t1, v.View(), u, d);
    DeleteDone(v.g, m, t, v.View(), u, d, i, e, c, name);
    StillGood(v, t, u);
    ok := true;
  }

  lemma DeleteDone(g: Geo, m: Vol, t: Tree, after: Vol, u: Tree, d: nat, i: nat, e: Slot, c: nat, name: seq<Byte>)
    requires WellFormed(g, m, t, {}) && Shape(g, after) && d in t.dirs && OtherDirs(g, m, t, after, u, d)
    requires FindFrom(DirOf(g, m, t, d), Sfn(name), 0) == Found(i) && e == DirOf(g, m, t, d)[i]
    requires FilesKept(t, m, after, {c}) && GoneFrom(t, d, i, {c})
    requires DirOf(g, after, u, d) == DirOf(g, m, t, d)[i := Struck(e)]
    ensures Unaffected(g, m, t, after, u, d, Sfn(name))
    ensures NextFound(DirOf(g, m, t, d), DirOf(g, after, u, d), Sfn(name))
  {
    hide DirsGood, ChainsOk, Apart, DirsOk, DirOf, FilesKept, GoneFrom, FindFrom, Sfn, ZeroTail, Full, FullCluster,
         Object, Struck, Unaffected, OtherDirs;
    FoundEntry(g, m, t, d, i, name);
    var dir := DirOf(g, m, t, d);
    assert dir + [] == dir;
    UnaffectedBy(g, m, t, after, u, d, false, i, Struck(e), {c}, Sfn(name));
    FindStruck(dir, i, Struck(e), Sfn(name), 0);
  }

  /** Creating a file under a new name and deleting it again restores the FAT, but for the cluster that the
      directory has grown by if it was full. */
  method CreateThenDelete(v: Volume, name: seq<Byte>, data: seq<Byte>, ghost t: Tree) returns (ok: bool, ghost u: Tree)
    requires Good(v, t) && name != [] && 0 !in name && name[0] != DELETED && |data| < 0x1_0000_0000
    requires FindFrom(DirOf(v.g, v.View(), t, v.current), Sfn(name), 0) == Missing
    modifies v`disk
    ensures Good(v, u) && Conserves(v.g, old(v.View()), v.View())
    ensures ok && !RoomFrom(DirOf(v.g, old(v.View()), t, v.current), 0).GrowAt? ==> v.View().fat == old(v.View()).fat
    ensures ok && RoomFrom(DirOf(v.g, old(v.View()), t, v.current), 0).GrowAt? ==>
      && Growable(v.g, old(v.View()).fat, ChainOf(t, v.current))
      && v.View().fat == GrownFat(v.g, old(v.View()).fat, ChainOf(t, v.current))
  {
    hide v.Ok, v.View, WellFormed, DirOf, Conserves, Full, FullCluster, Unaffected, ZeroSet, Sfn, FirstCluster,
         IsDirectory, ReadsAs, RoomForNew, RoomFrom, FindFrom, Rooted, Growable, GrownFat;
    ghost var m := v.View();
    ghost var made, at;
    ok, u, made, at := CreateNew(v, name, data, t);
    ghost var m1, t1 := v.View(), u;
    if ok {
      var gone;
      gone, u := Delete(v, name, t1);
      ConservesThen(v.g, m, m1, v.View());
      assert v.View().fat == made.fat;
    }
  }

  /** The first free cluster, if there is one, is now a chain of its own. */
  ghost predicate FirstTaken(g: Geo, fat: seq<nat>, now: seq<nat>) {
    && |fat| == g.count + 2
    && var c := FirstFree(g, fat, 2);
       now == if c < |fat| then fat[c := Eoc(g.kind)] else fat
  }

  /** A cluster taken for a directory: a chain of its own, whose slots are all end marks. */
  method NewDirectory(v: Volume, ghost t: Tree) returns (c: nat, ghost u: Tree)
    requires v.Ok() && WellFormed(v.g, v.View(), t, {})
    modifies v`disk
    ensures v.Ok() && WellFormed(v.g, v.View(), u, {}) && Conserves(v.g, old(v.View()), v.View())
    ensures FilesKept(t, old(v.View()), v.View(), {})
    ensures c != 0 <==> |ZeroSet(old(v.View()).fat)| > 0
    ensures c == 0 ==> u == t && v.View() == old(v.View())
    ensures c != 0 ==>
      && Valid(v.g, c) && c !in t.dirs && c !in t.chains && c !in t.owner && c != RootId(v.g)
      && u == WithChain(t, [c]).(dirs := t.dirs + {c})
    ensures c != 0 ==> DirOf(v.g, v.View(), u, c) == EndMarks(v.g)
    ensures c != 0 ==> |ZeroSet(v.View().fat)| == |ZeroSet(old(v.View()).fat)| - 1
    ensures FirstTaken(v.g, old(v.View()).fat, v.View().fat)
    ensures forall b :: b in t.dirs ==> DirOf(v.g, v.View(), u, b) == DirOf(v.g, old(v.View()), t, b)
  {
    hide v.Ok, v.View, DirsGood, ChainsOk, Apart, DirsOk, DirOf, FilesKept, Conserves, ZeroTail, Full, FullCluster,
         ZeroSet, Alloc, FirstFree, EndMarks, IsChain;
    ghost var m := v.View();
    u := t;
    SameKept(t, m);
    ConservesSame(v.g, m, m);
    c := AllocCluster(v);
    if c == 0 {
      NoneFree(v.g, m.fat);
      return;
    }
    AllocConserves(v.g, m, c);
    Allocated(v.g, m, c);
    NotEmpty(m.fat, c);
    FramedKept(v.g, m, v.View(), t, [c]);
    KeptFiles(t, m, v.View());
    ChainAdded(v.g, m, v.View(), t, {}, [c]);
    StoredFresh(v.g, m, v.View(), t, {}, [c]);
    u := WithChain(t, [c]);
    EmptyDirectory(v.g, v.View(), u, c);
    DirAdded(v.g, v.View(), u, {}, c);
    u := u.(dirs := t.dirs + {c});
  }

  lemma Allocated(g: Geo, m: Vol, c: nat)
    requires Shape(g, m) && Valid(g, c) && m.fat[c] == 0
    ensures Framed(m, Alloc(g, m, c), [c]) && IsChain(g, Alloc(g, m, c).fat, [c])
    ensures Alloc(g, m, c).fat == m.fat[c := Eoc(g.kind)] && Alloc(g, m, c).data[c] == ZeroCluster(g)
    ensures |ZeroSet(Alloc(g, m, c).fat)| == |ZeroSet(m.fat)| - 1
  {
    hide AdjustInfo, ZeroCluster;
    assert ZeroSet(Alloc(g, m, c).fat) == ZeroSet(m.fat) - {c};
  }

  lemma EmptyDirectory(g: Geo, m: Vol, t: Tree, c: nat)
    requires Shape(g, m) && Valid(g, c) && c in t.chains && t.chains[c] == [c] && m.data[c] == ZeroCluster(g)
    ensures DirOf(g, m, t, c) == EndMarks(g) && ZeroTail(EndMarks(g))
    ensures forall i :: 0 <= i < 16 * g.spc ==> !Object(EndMarks(g)[i])
  {
    hide Slots, ZeroCluster;
    assert ClustersOk(g, m.data, [c]);
    assert [c][..0] == [];
    assert Sectors(g, m.data, [c]) == m.data[c];
    ZeroSlots(g);
  }

  /** The entries of a directory for itself and for its parent. */
  function DotEntry(k: Kind, dots: nat, c: nat): (e: Slot)
    requires 1 <= dots <= 2 && c < Range(k)
    ensures |e| == SLOT && e[0] == DOT && FirstCluster(k, e) == c
  {
    var f := FreshEntry(seq(11, i => if i < dots then DOT else SPACE), DIRECTORY);
    ClusterSet(k, f, c);
    assert SetCluster(k, f, c)[..12][0] == f[..12][0];
    SetCluster(k, f, c)
  }

  /** The slots of a fresh directory. */
  ghost function FreshDirectory(g: Geo, c: nat, parent: nat): seq<Slot>
    requires g.spc > 0 && c < Range(g.kind) && parent < Range(g.kind)
  {
    EndMarks(g)[0 := DotEntry(g.kind, 1, c)][1 := DotEntry(g.kind, 2, parent)]
  }

  /** Enters a directory's dot entries. */
  method EnterDots(v: Volume, c: nat, parent: nat, ghost t: Tree)
    requires v.Ok() && WellFormed(v.g, v.View(), t, {}) && c in t.dirs && c !in t.owner
    requires DirOf(v.g, v.View(), t, c) == EndMarks(v.g)
    requires c < Range(v.g.kind) && parent < Range(v.g.kind)
    modifies v`disk
    ensures v.Ok() && WellFormed(v.g, v.View(), t, {}) && Conserves(v.g, old(v.View()), v.View())
    ensures DirOf(v.g, v.View(), t, c) == FreshDirectory(v.g, c, parent)
    ensures OtherDirs(v.g, old(v.View()), t, v.View(), t, c)
    ensures v.View().fat == old(v.View()).fat && FilesKept(t, old(v.View()), v.View(), {})
  {
    hide v.Ok, v.View, DirsGood, ChainsOk, Apart, DirsOk, DirOf, FilesKept, Conserves, ZeroTail, Full, FullCluster,
         DotEntry, OtherDirs, FirstCluster;
    ghost var m := v.View();
    var dot, up := DotEntry(v.g.kind, 1, c), DotEntry(v.g.kind, 2, parent);
    WellFormedDir(v.g, m, t, {}, c);
    TailKept(EndMarks(v.g), 0, dot);
    SlotUnowned(v.g, m, t, c, 0);
    ghost var u := PlaceEntry(v, c, 0, dot, t, {});
    assert {} - {(c, 0)} == {};
    ghost var m1 := v.View();
    WellFormedDir(v.g, m1, t, {}, c);
    TailKept(EndMarks(v.g)[0 := dot], 1, up);
    SlotUnowned(v.g, m1, t, c, 1);
    u := PlaceEntry(v, c, 1, up, t, {});
    assert {} - {(c, 1)} == {};
    SameKept(t, m);
    FilesKeptThen(t, t, m, m1, v.View(), {});
    ConservesThen(v.g, m, m1, v.View());
    OtherDirsThen(v.g, m, t, m1, t, v.View(), t, c);
  }

  /** The entry of a new directory, and that it fits. */
  lemma DirectoryEntryIs(g: Geo, t: Tree, d: nat, name: seq<Byte>, c: nat)
    requires name != [] && 0 !in name && 2 <= c < Range(g.kind) && c != d
    requires c in t.chains && c !in t.owner && c in t.dirs && c != RootId(g)
    ensures var e := SetCluster(g.kind, FreshEntry(Sfn(name), DIRECTORY), c);
      && e[..11] == Sfn(name) && e[0] == Sfn(name)[0] && e[0] != 0 && (e[0] == DELETED <==> name[0] == DELETED)
      && FirstCluster(g.kind, e) == c && IsDirectory(e) && !VolumeId(e) && Fits(g, t, d, e)
  {
    hide SetCluster, FreshEntry, FirstCluster, SizeOf, Sfn;
    var f := FreshEntry(Sfn(name), DIRECTORY);
    ClusterSet(g.kind, f, c);
    var e := SetCluster(g.kind, f, c);
    assert e[..11] == e[..12][..11] && f[..11] == f[..12][..11] && e[11] == e[..12][11] && f[11] == f[..12][11];
    assert e[0] == e[..11][0];
    SfnStart(name);
  }

  lemma DirInRange(g: Geo, m: Vol, t: Tree, d: nat)
    requires WellFormed(g, m, t, {}) && d in t.dirs
    ensures d < Range(g.kind)
  {
    hide DirsGood, Apart;
    ZeroNoChain(g, m, t);
  }

  lemma NewDirFiles(t: Tree, c: nat)
    requires c !in t.chains
    ensures SameFiles(t, WithChain(t, [c]).(dirs := t.dirs + {c}), {})
  {
  }

  lemma FreshDotted(g: Geo, c: nat, d: nat)
    requires g.spc > 0 && c < Range(g.kind) && UpField(g, d) < Range(g.kind)
    ensures SlotsOk(FreshDirectory(g, c, UpField(g, d))) && Dotted(g, FreshDirectory(g, c, UpField(g, d)), c, d)
  {
    hide DotEntry, FirstCluster;
  }

  /** There is a slot for a new entry, and a cluster for the directory and one for its parent if that must grow. */
  ghost predicate RoomForDirectory(g: Geo, m: Vol, t: Tree, d: nat) {
    HasRoom(g, m, t, d) && 1 + (if RoomFrom(DirOf(g, m, t, d), 0).GrowAt? then 1 else 0) <= |ZeroSet(m.fat)|
  }

  /** A directory entered under a name, with nothing in it but its dot entries. If the name starts with the
      mark of deleted entries, it is not found, and there is no way to the directory. */
  ghost predicate MadeDirectory(g: Geo, m: Vol, t: Tree, d: nat, name: seq<Byte>, c: nat, parent: nat)
    requires g.spc > 0 && c < Range(g.kind) && parent < Range(g.kind)
  {
    && c in t.dirs && DirOf(g, m, t, c) == FreshDirectory(g, c, parent)
    && (name != [] && name[0] != DELETED ==> Names(g, m, t, d, name, true) && ClusterNamed(g, m, t, d, name) == c)
    && (name != [] && name[0] == DELETED ==> !Rooted(g, t, c) && FindFrom(DirOf(g, m, t, d), Sfn(name), 0) == Missing)
  }

  /** Makes a directory. Every file reads as before. If it fails for want of a slot, a cluster may be lost. */
  method Mkdir(v: Volume, name: seq<Byte>, ghost t: Tree) returns (ok: bool, ghost u: Tree, ghost c: nat)
    requires Good(v, t) && 0 !in name
    modifies v`disk
    ensures Good(v, u) && t.dirs <= u.dirs && DirsStay(t, u) && Conserves(v.g, old(v.View()), v.View())
    ensures ok <==> name != [] && FindFrom(DirOf(v.g, old(v.View()), t, v.current), Sfn(name), 0) == Missing &&
                    RoomForDirectory(v.g, old(v.View()), t, v.current)
    ensures Unaffected(v.g, old(v.View()), t, v.View(), u, v.current, Sfn(name))
    ensures FindFrom(DirOf(v.g, old(v.View()), t, v.current), Sfn(name), 0).Found? ==>
      v.View() == old(v.View()) && u == t
    ensures ok ==> c < Range(v.g.kind) && v.current < Range(v.g.kind) && c !in t.dirs
    ensures ok ==> MadeDirectory(v.g, v.View(), u, v.current, name, c, UpField(v.g, v.current))
    ensures name == [] ==> v.View() == old(v.View()) && u == t
    ensures ok ==> EnteredIn(v.g, DirOf(v.g, old(v.View()), t, v.current), DirOf(v.g, v.View(), u, v.current),
                             SetCluster(v.g.kind, FreshEntry(Sfn(name), DIRECTORY), c))
    ensures !ok && name != [] && FindFrom(DirOf(v.g, old(v.View()), t, v.current), Sfn(name), 0) == Missing ==>
      OnlyRoom(v.g, old(v.View()), t, v.current, DirOf(v.g, v.View(), u, v.current))
    ensures !ok && name != [] && FindFrom(DirOf(v.g, old(v.View()), t, v.current), Sfn(name), 0) == Missing ==>
      if HasRoom(v.g, old(v.View()), t, v.current) then RoomMade(v.g, old(v.View()), t, v.current, v.View().fat)
      else FirstTaken(v.g, old(v.View()).fat, v.View().fat)
    ensures !ok && name != [] && !HasRoom(v.g, old(v.View()), t, v.current) &&
            FindFrom(DirOf(v.g, old(v.View()), t, v.current), Sfn(name), 0) == Missing ==>
      |ZeroSet(v.View().fat)| == if |ZeroSet(old(v.View()).fat)| > 0 then |ZeroSet(old(v.View()).fat)| - 1 else 0
  {
    hide v.Ok, v.View, DirsGood, ChainsOk, Apart, DirsOk, DirOf, FilesKept, SameFiles, Conserves, ZeroTail, Full,
         FullCluster, Unaffected, OtherDirs;
    hide ZeroSet, Sfn, FirstCluster, IsDirectory, Fits, SetCluster, FreshEntry, EndMarks, FreshDirectory, FindFrom,
         RoomFrom, HasRoom, VolumeId, Rooted, Dotted, RoomMade, FirstTaken, Growable, GrownFat, MadeDirectory, FreeSlot;
    ghost var m, d := v.View(), v.current;
    ghost var dir := DirOf(v.g, m, t, d);
    NoChange(v.g, m, t, d, Sfn(name));
    ok, u, c := false, t, 0;
    if name == [] { return; }
    DirLocated(v.g, m, t, {}, d);
    var r, x := FindEntry(v, v.current, name, ChainOf(t, d));
    if r.Found? { return; }
    var room;
    room, u := MakeRoom(v, v.current, t);
    ghost var m1, t1 := v.View(), u;
    var at;
    at, u := NewDirectory(v, t1);
    c := at;
    ghost var m2, t2 := v.View(), u;
    SameOthers(v.g, m1, t1, m2, t2, d);
    OtherDirsThen(v.g, m, t, m1, t1, m2, t2, d);
    FilesKeptThen(t, t1, m, m1, m2, {});
    ConservesThen(v.g, m, m1, m2);
    ghost var grown := room.GrowAt?;
    if room == NoRoom || at == 0 {
      assert dir + [] == dir;
      NothingChanged(v.g, m, t, m2, t2, d, grown);
      UnaffectedBut(v.g, m, t, m2, t2, d, Sfn(name));
      StillGood(v, t, t2);
      return;
    }
    DirInRange(v.g, m, t, d);
    DirInRange(v.g, m2, t2, at);
    ghost var m3;
    m3, u := EnterNew(v, v.current, room.i, name, at, t2);
    StillGood(v, t, u);
    NewDirFiles(t1, at);
    SameFilesThen(t, t1, t2, {});
    FilesKeptThen(t, t2, m, m2, v.View(), {});
    ConservesThen(v.g, m, m2, v.View());
    MkdirDone(v.g, m, t, m2, m3, t2, v.View(), u, d, grown, room.i, name, at, UpField(v.g, d));
    ok := true;
  }

  /** Enters the dot entries of a new directory, and then the directory in its parent. */
  method EnterNew(v: Volume, d: nat, i: nat, name: seq<Byte>, c: nat, ghost t: Tree)
    returns (ghost dotted: Vol, ghost u: Tree)
    requires v.Ok() && WellFormed(v.g, v.View(), t, {}) && d in t.dirs && FreeSlot(DirOf(v.g, v.View(), t, d), i)
    requires name != [] && 0 !in name && 2 <= c < Range(v.g.kind) && c != d && d < Range(v.g.kind)
    requires c in t.chains && c !in t.owner && c in t.dirs && c != RootId(v.g)
    requires DirOf(v.g, v.View(), t, c) == EndMarks(v.g)
    modifies v`disk
    ensures v.Ok() && WellFormed(v.g, dotted, t, {}) && WellFormed(v.g, v.View(), u, {}) && u.dirs == t.dirs
    ensures DirsStay(t, u) && (name[0] == DELETED ==> u == t)
    ensures Conserves(v.g, old(v.View()), v.View()) && FilesKept(t, old(v.View()), v.View(), {})
    ensures DirOf(v.g, dotted, t, c) == FreshDirectory(v.g, c, UpField(v.g, d))
    ensures OtherDirs(v.g, old(v.View()), t, dotted, t, c)
    ensures DirOf(v.g, dotted, t, d) == DirOf(v.g, old(v.View()), t, d) && OtherDirs(v.g, dotted, t, v.View(), u, d)
    ensures DirOf(v.g, v.View(), u, d) ==
      DirOf(v.g, dotted, t, d)[i := SetCluster(v.g.kind, FreshEntry(Sfn(name), DIRECTORY), c)]
  {
    hide v.Ok, v.View, DirsGood, ChainsOk, Apart, DirsOk, DirOf, FilesKept, SameFiles, Conserves, ZeroTail, Full,
         FullCluster, OtherDirs, Sfn, SetCluster, FreshEntry, EndMarks, FreshDirectory, Dotted;
    ghost var m := v.View();
    var parent := if d == v.g.rootCluster then 0 else d;
    EnterDots(v, c, parent, t);
    dotted := v.View();
    OtherDirAt(v.g, m, t, dotted, t, c, d);
    FreshDotted(v.g, c, d);
    u := EnterDirectory(v, d, i, name, c, t);
    SameKept(t, m);
    FilesKeptThen(t, t, m, dotted, v.View(), {});
    ConservesThen(v.g, m, dotted, v.View());
  }

  lemma OtherDirAt(g: Geo, m: Vol, t: Tree, after: Vol, u: Tree, c: nat, b: nat)
    requires OtherDirs(g, m, t, after, u, c) && b in t.dirs && b != c
    ensures DirOf(g, after, u, b) == DirOf(g, m, t, b)
  {
  }

  /** The outcome of making a directory, step by step. */
  lemma MkdirDone(g: Geo, m: Vol, t: Tree, mid: Vol, dotted: Vol, s: Tree, after: Vol, u: Tree, d: nat, grown: bool,
                  i: nat, name: seq<Byte>, c: nat, parent: nat)
    requires WellFormed(g, m, t, {}) && WellFormed(g, dotted, s, {}) && WellFormed(g, after, u, {})
    requires d in t.dirs && t.dirs <= s.dirs && c in s.dirs && c !in t.dirs && c in s.chains && c !in s.owner
    requires c != RootId(g) && u.dirs == s.dirs && (name != [] && name[0] == DELETED ==> u == s)
    requires FilesKept(t, m, after, {}) && FindFrom(DirOf(g, m, t, d), Sfn(name), 0) == Missing
    requires name != [] && 0 !in name && 2 <= c < Range(g.kind) && parent < Range(g.kind)
    requires DirOf(g, dotted, s, c) == FreshDirectory(g, c, parent)
    requires OtherDirs(g, m, t, mid, s, d) && OtherDirs(g, mid, s, dotted, s, c) && OtherDirs(g, dotted, s, after, u, d)
    requires DirOf(g, dotted, s, d) == DirOf(g, m, t, d) + (if grown then EndMarks(g) else [])
    requires FreeSlot(DirOf(g, dotted, s, d), i)
    requires DirOf(g, after, u, d) ==
      DirOf(g, dotted, s, d)[i := SetCluster(g.kind, FreshEntry(Sfn(name), DIRECTORY), c)]
    ensures Unaffected(g, m, t, after, u, d, Sfn(name)) && MadeDirectory(g, after, u, d, name, c, parent)
  {
    hide DirsGood, ChainsOk, Apart, DirsOk, DirOf, FilesKept, ZeroTail, Full, FullCluster, Unaffected;
    hide Sfn, FirstCluster, IsDirectory, VolumeId, SetCluster, FreshEntry, EndMarks, FreshDirectory, FindFrom;
    var e := SetCluster(g.kind, FreshEntry(Sfn(name), DIRECTORY), c);
    var base := DirOf(g, dotted, s, d);
    DirectoryEntryIs(g, s, d, name, c);
    WellFormedDir(g, dotted, s, {}, d);
    UnaffectedBy(g, m, t, after, u, d, grown, i, e, {}, Sfn(name));
    if name[0] != DELETED {
      if grown { FindGrown(g, DirOf(g, m, t, d), Sfn(name), 0); } else { assert base == DirOf(g, m, t, d); }
      MissingBefore(base, Sfn(name), i, 0);
      FindNew(base, i, e, Sfn(name), 0);
    } else {
      SfnStart(name);
      NeverFound(DirOf(g, after, u, d), Sfn(name), 0);
      if Rooted(g, u, c) { ParentRooted(g, u, c); }
    }
  }

  /** Enters a new directory in its parent. */
  method EnterDirectory(v: Volume, d: nat, i: nat, name: seq<Byte>, c: nat, ghost t: Tree) returns (ghost u: Tree)
    requires v.Ok() && WellFormed(v.g, v.View(), t, {}) && d in t.dirs && FreeSlot(DirOf(v.g, v.View(), t, d), i)
    requires name != [] && 0 !in name && 2 <= c < Range(v.g.kind) && c != d
    requires c in t.chains && c !in t.owner && c in t.dirs && c != RootId(v.g)
    requires Dotted(v.g, DirOf(v.g, v.View(), t, c), c, d)
    modifies v`disk
    ensures v.Ok() && WellFormed(v.g, v.View(), u, {}) && u.dirs == t.dirs && DirsStay(t, u)
    ensures Conserves(v.g, old(v.View()), v.View()) && (name[0] == DELETED ==> u == t)
    ensures v.View().fat == old(v.View()).fat && FilesKept(t, old(v.View()), v.View(), {})
    ensures OtherDirs(v.g, old(v.View()), t, v.View(), u, d)
    ensures DirOf(v.g, v.View(), u, d) ==
      DirOf(v.g, old(v.View()), t, d)[i := SetCluster(v.g.kind, FreshEntry(Sfn(name), DIRECTORY), c)]
  {
    hide v.Ok, v.View, DirsGood, ChainsOk, Apart, DirsOk, DirOf, FilesKept, Conserves, ZeroTail, Full, FullCluster,
         OtherDirs;
    hide FirstCluster, SetCluster, FreshEntry, Fits, IsDirectory, VolumeId, Dotted, EntriesOk;
    ghost var dir := DirOf(v.g, v.View(), t, d);
    var sfn := MakeSfn(name);
    var e := SetCluster(v.g.kind, FreshEntry(sfn, DIRECTORY), c);
    DirectoryEntryIs(v.g, t, d, name, c);
    WellFormedDir(v.g, v.View(), t, {}, d);
    BeyondDots(v.g, t, d, dir, {}, i);
    SlotUnowned(v.g, v.View(), t, d, i);
    TailKept(dir, i, e);
    u := PlaceEntry(v, d, i, e, t, {});
    assert {} - {(d, i)} == {};
  }

  /** Nothing but deleted entries from slot j to the end mark, among the slots looked at. */
  predicate EmptyFrom(dir: seq<Slot>, j: nat): (r: bool)
    requires SlotsOk(dir)
    ensures r && |dir| <= MAX_SLOTS && ZeroTail(dir) ==>
      forall i :: j <= i < |dir| ==> dir[i][0] == 0 || dir[i][0] == DELETED
    decreases |dir| - j
  {
    if j >= MAX_SLOTS || j >= |dir| || dir[j][0] == 0 then true
    else if dir[j][0] != DELETED then false
    else EmptyFrom(dir, j + 1)
  }

  /** Looks for entries in a directory. */
  method IsEmpty(v: Volume, c: nat, ghost ch: seq<nat>) returns (empty: bool)
    requires v.Ok() && Located(v.g, v.View(), c, ch) && ListingOk(v.g, v.View(), ch)
    ensures empty == EmptyFrom(Listing(v.g, v.View(), ch), 2)
  {
    hide v.Ok, v.View, Listing, Located, ListingOk;
    var j := 2;
    while j < MAX_SLOTS
      invariant 2 <= j <= MAX_SLOTS
      invariant EmptyFrom(Listing(v.g, v.View(), ch), 2) == EmptyFrom(Listing(v.g, v.View(), ch), j)
    {
      var x := DirRead(v, c, j, ch);
      if x == NoSlot || x.e[0] == 0 { return true; }
      if x.e[0] != DELETED { return false; }
      j := j + 1;
    }
    empty := true;
  }

  /** Frees the clusters of a directory, whose entry is then to be replaced. */
  method DropDirectory(v: Volume, d: nat, i: nat, c: nat, ghost t: Tree) returns (ghost u: Tree)
    requires v.Ok() && WellFormed(v.g, v.View(), t, {}) && d in t.dirs && c in t.dirs && c in t.chains && c != d
    requires c in t.owner && t.owner[c] == (d, i) && i < |DirOf(v.g, v.View(), t, d)|
    requires Object(DirOf(v.g, v.View(), t, d)[i])
    modifies v`disk
    ensures v.Ok() && WellFormed(v.g, v.View(), u, {(d, i)}) && u.dirs == t.dirs - {c} && Unowned(u, d, i)
    ensures u.owner == Undir(t, c).owner - {c}
    ensures forall b :: b in u.dirs ==> DirOf(v.g, v.View(), u, b) == DirOf(v.g, old(v.View()), t, b)
    ensures FilesKept(t, old(v.View()), v.View(), {c}) && SameFiles(t, u, {c})
    ensures Conserves(v.g, old(v.View()), v.View())
    ensures forall x :: 0 <= x < |v.View().fat| ==>
      v.View().fat[x] == if x in t.chains[c] then 0 else old(v.View()).fat[x]
  {
    hide v.Ok, v.View, DirsGood, FilesKept, Conserves, ZeroSet, IsChain, Full, FullCluster, DirOf, FreeView;
    ghost var m := v.View();
    HoleAdded(v.g, m, t, {}, d, i);
    assert {} + {(d, i)} == {(d, i)};
    DirRemoved(v.g, m, t, {(d, i)}, c);
    u := Undir(t, c);
    ChainFreed(v.g, m, u, {(d, i)}, c);
    FreeClusters(v, c);
    FreedFiles(v.g, m, v.View(), u, c);
    UndirFiles(t, m, v.View(), c);
    u := WithoutChain(u, c);
    EntryOwns(v.g, m, t, d, i);
  }

  lemma UndirFiles(t: Tree, m: Vol, after: Vol, c: nat)
    requires var s := Undir(t, c);
      FilesKept(s, m, after, {c}) && SameFiles(s, WithoutChain(s, c), {c})
    ensures FilesKept(t, m, after, {c}) && SameFiles(t, WithoutChain(Undir(t, c), c), {c})
  {
  }

  /** Removes a directory that holds no entries: exactly its clusters become free, and every file of every
      other directory reads as before. */
  method Rmdir(v: Volume, name: seq<Byte>, ghost t: Tree) returns (ok: bool, ghost u: Tree)
    requires Good(v, t)
    modifies v`disk
    ensures Good(v, u) && Conserves(v.g, old(v.View()), v.View())
    ensures ok <==> Names(v.g, old(v.View()), t, v.current, name, true) &&
                    EmptyFrom(DirOf(v.g, old(v.View()), t, ClusterNamed(v.g, old(v.View()), t, v.current, name)), 2)
    ensures Unaffected(v.g, old(v.View()), t, v.View(), u, v.current, Sfn(name))
    ensures !ok ==> v.View() == old(v.View()) && u == t
    ensures ok ==> u.dirs == t.dirs - {ClusterNamed(v.g, old(v.View()), t, v.current, name)}
    ensures ok ==> NextFound(DirOf(v.g, old(v.View()), t, v.current), DirOf(v.g, v.View(), u, v.current), Sfn(name))
    ensures ok ==> StruckOut(DirOf(v.g, old(v.View()), t, v.current), DirOf(v.g, v.View(), u, v.current), Sfn(name))
    ensures ok ==> forall x :: 0 <= x < |v.View().fat| ==>
      v.View().fat[x] == if x in ChainOf(t, ClusterNamed(v.g, old(v.View()), t, v.current, name)) then 0
                         else old(v.View()).fat[x]
  {
    hide v.Ok, v.View, DirsGood, ChainsOk, Apart, DirsOk, DirOf, FilesKept, SameFiles, Conserves, ZeroTail, Full,
         FullCluster, Unaffected, OtherDirs;
    hide ZeroSet, Sfn, FirstCluster, Object, IsDirectory, GoneFrom, Fits, Listing, Located, ListingOk, EmptyFrom,
         Rooted;
    ghost var m, d := v.View(), v.current;
    ghost var dir := DirOf(v.g, m, t, d);
    NoChange(v.g, m, t, d, Sfn(name));
    DirLocated(v.g, m, t, {}, d);
    ok, u := false, t;
    var r, e := FindEntry(v, v.current, name, ChainOf(t, d));
    if r == Missing || !IsDirectory(e) { return; }
    var i := r.i;
    var c := FirstCluster(v.g.kind, e);
    FoundEntry(v.g, m, t, d, i, name);
    GoneIs(v.g, t, d, i, e);
    DirLocated(v.g, m, t, {}, c);
    var empty := IsEmpty(v, c, ChainOf(t, c));
    if !empty { return; }
    u := DropDirectory(v, v.current, i, c, t);
    ghost var m1, t1 := v.View(), u;
    StruckFits(v.g, t1, d, e);
    TailKept(dir, i, Struck(e));
    u := PlaceEntry(v, v.current, i, Struck(e), t1, {(d, i)});
    assert {(d, i)} - {(d, i)} == {};
    FilesKeptThen(t, t1, m, m1, v.View(), {c});
    ConservesThen(v.g, m, m1, v.View());
    RmdirDone(v.g, m, t, m1, t1, v.View(), u, d, i, e, c, name);
    FindStruck(dir, i, Struck(e), Sfn(name), 0);
    ReachedWithout(v.g, m, v.View(), t, u, d, c);
    ok := true;
  }

  lemma ReachedWithout(g: Geo, m: Vol, after: Vol, t: Tree, u: Tree, d: nat, c: nat)
    requires WellFormed(g, m, t, {}) && WellFormed(g, after, u, {}) && Rooted(g, t, d) && c in t.owner
    requires t.owner[c].0 == d
    requires u.dirs == t.dirs - {c} && u.owner == Undir(t, c).owner - {c}
    ensures Rooted(g, u, d)
  {
    hide DirsGood, ChainsOk, Apart, Rooted;
    RootedWithout(g, t, u, d, c);
  }

  lemma RmdirDone(g: Geo, m: Vol, t: Tree, mid: Vol, s: Tree, after: Vol, u: Tree, d: nat, i: nat, e: Slot, c: nat,
                  name: seq<Byte>)
    requires WellFormed(g, m, t, {}) && WellFormed(g, after, u, {}) && d in t.dirs && c != d
    requires s.dirs == t.dirs - {c} == u.dirs
    requires FindFrom(DirOf(g, m, t, d), Sfn(name), 0) == Found(i) && e == DirOf(g, m, t, d)[i]
    requires FilesKept(t, m, after, {c}) && GoneFrom(t, d, i, {c})
    requires forall b :: b in s.dirs ==> DirOf(g, mid, s, b) == DirOf(g, m, t, b)
    requires OtherDirs(g, mid, s, after, u, d) && DirOf(g, after, u, d) == DirOf(g, m, t, d)[i := Struck(e)]
    ensures Unaffected(g, m, t, after, u, d, Sfn(name))
  {
    hide DirsGood, ChainsOk, Apart, DirsOk, DirOf, FilesKept, GoneFrom, FindFrom, Sfn, ZeroTail, Full, FullCluster,
         ReadOutcome, Object, Struck;
    FoundEntry(g, m, t, d, i, name);
    var dir := DirOf(g, m, t, d);
    assert dir + [] == dir;
    UnaffectedHere(g, m, t, after, u, d, false, i, Struck(e), {c}, Sfn(name));
    forall b | b in t.dirs && b in u.dirs && b != d
      ensures ReadsSame(g, m, DirOf(g, m, t, b), after, DirOf(g, after, u, b), [])
    {
      forall x: seq<Byte>, max: nat
        ensures ReadOutcome(g, after, DirOf(g, after, u, b), Sfn(x), max) ==
          ReadOutcome(g, m, DirOf(g, m, t, b), Sfn(x), max)
      {
        StillReads(g, m, t, after, b, DirOf(g, m, t, b), d, i, {c}, x, max);
      }
    }
  }


  /** A directory counts as empty exactly when the slots looked at hold nothing but deleted entries and end marks. */
  lemma {:induction false} EmptyExactly(dir: seq<Slot>, j: nat)
    requires SlotsOk(dir) && ZeroTail(dir)
    ensures EmptyFrom(dir, j) <==>
      forall i :: j <= i < |dir| && i < MAX_SLOTS ==> dir[i][0] == 0 || dir[i][0] == 0xE5
    decreases |dir| - j
  {
    if j < |dir| && j < MAX_SLOTS && dir[j][0] == DELETED { EmptyExactly(dir, j + 1); }
  }

  /** The entries of a new directory, byte by byte: in its parent, and its own for itself and for its parent. */
  lemma DirectoryBytes(k: Kind, name: seq<Byte>, c: nat)
    requires |name| == 11 && c < Range(k)
    ensures var e := SetCluster(k, FreshEntry(name, DIRECTORY), c);
      && e[..11] == name && e[11] == 0x10 && (forall i :: 12 <= i < 20 || 22 <= i < 26 || 28 <= i < 32 ==> e[i] == 0)
      && e[26] == c % 0x100 && e[27] == c / 0x100 % 0x100
      && (if k == Fat32 then e[20] == c / 0x1_0000 % 0x100 && e[21] == c / 0x100_0000 else e[20] == e[21] == 0)
  {
    hide Splice;
    var f := FreshEntry(name, DIRECTORY);
    var low, high := Bytes16(c), Bytes16(if k == Fat32 then c / 0x1_0000 else 0);
    SpliceAt(f, 26, low);
    SpliceAt(Splice(f, 26, low), 20, high);
    var e := SetCluster(k, f, c);
    assert e[..11] == f[..11];
  }

  lemma DotBytes(k: Kind, dots: nat, c: nat)
    requires 1 <= dots <= 2 && c < Range(k)
    ensures var name := if dots == 1 then [46, 32, 32, 32, 32, 32, 32, 32, 32, 32, 32]
                        else [46, 46, 32, 32, 32, 32, 32, 32, 32, 32, 32];
      DotEntry(k, dots, c) == SetCluster(k, FreshEntry(name, DIRECTORY), c)
  {
    assert seq(11, i => if i < dots then DOT else SPACE) ==
      if dots == 1 then [46, 32, 32, 32, 32, 32, 32, 32, 32, 32, 32] else [46, 46, 32, 32, 32, 32, 32, 32, 32, 32, 32];
  }
}
