/** The steps that file operations are made of, on a well-formed volume. */
module FatSteps {
  import opened Bytes
  import opened Geometry
  import opened FatDisk
  import opened FatChains
  import opened FatVolume
  import opened FatSpace
  import opened FatData
  import opened FatWrite
  import opened FatDir
  import opened FatLookup
  import opened FatTree
  import opened FatRead
  import opened FatEntry

  /** Directories, other than one, are as before. */
  ghost predicate OtherDirs(g: Geo, m: Vol, t: Tree, after: Vol, u: Tree, d: nat) {
    forall b :: b in t.dirs && b != d ==> DirOf(g, after, u, b) == DirOf(g, m, t, b)
  }

  lemma ConservesThen(g: Geo, m: Vol, mid: Vol, after: Vol)
    requires Shape(g, m) && Shape(g, mid) && Shape(g, after) && Conserves(g, m, mid) && Conserves(g, mid, after)
    ensures Conserves(g, m, after)
  {
    hide Tracks, Adjustments;
  }

  lemma ConservesSame(g: Geo, m: Vol, after: Vol)
    requires Shape(g, m) && Shape(g, after) && after.fat == m.fat && after.reserved == m.reserved
    ensures Conserves(g, m, after)
  {
  }

  lemma GrownConserves(g: Geo, m: Vol, ch: seq<nat>, c: nat)
    requires Shape(g, m) && TableOk(g, m.fat) && IsChain(g, m.fat, ch) && Valid(g, c) && m.fat[c] == 0
    ensures Valid(g, ch[|ch| - 1]) && Shape(g, Grown(g, m, ch, c)) && Conserves(g, m, Grown(g, m, ch, c))
    ensures |ZeroSet(Grown(g, m, ch, c).fat)| == |ZeroSet(m.fat)| - 1
  {
    hide AdjustInfo, ZeroCluster, IsChain, ZeroSet, Tracks, Adjustments;
    LastValid(g, m.fat, ch);
    FreeOffChain(g, m.fat, ch, c);
    ExtendShape(g, m, ch, c, ZeroCluster(g));
    ConservesSame(g, m, m);
    ExtendCounts(g, m, m, ch, c, ZeroCluster(g));
    GrownIsExtend(g, m, ch, c);
  }

  lemma GrownIsExtend(g: Geo, m: Vol, ch: seq<nat>, c: nat)
    requires Shape(g, m) && ch != [] && Valid(g, ch[|ch| - 1]) && Valid(g, c)
    ensures Grown(g, m, ch, c) == Extend(g, m, ch, c, ZeroCluster(g)) && FullCluster(g, ZeroCluster(g))
  {
    assert m.data[c := ZeroCluster(g)][c := ZeroCluster(g)] == m.data[c := ZeroCluster(g)];
  }

  /** Writes an entry that fits into a slot. */
  method PlaceEntry(v: Volume, d: nat, i: nat, e: Slot, ghost t: Tree, ghost h: set<(nat, nat)>) returns (ghost u: Tree)
    requires v.Ok() && WellFormed(v.g, v.View(), t, h) && d in t.dirs && |e| == SLOT && Fits(v.g, t, d, e)
    requires i < |DirOf(v.g, v.View(), t, d)| && ZeroTail(DirOf(v.g, v.View(), t, d)[i := e])
    requires (d in t.owner ==> i >= 2) && Named(v.g, v.View(), t, d, e) && Unowned(t, d, i)
    modifies v`disk
    ensures v.Ok() && u == OwnedBy(v.g, t, e, d, i) && WellFormed(v.g, v.View(), u, h - {(d, i)})
    ensures DirOf(v.g, v.View(), u, d) == DirOf(v.g, old(v.View()), t, d)[i := e]
    ensures OtherDirs(v.g, old(v.View()), t, v.View(), u, d)
    ensures v.View().fat == old(v.View()).fat && FilesKept(t, old(v.View()), v.View(), {})
    ensures Conserves(v.g, old(v.View()), v.View())
  {
    hide v.Ok, v.View, Listing, Located, ListingOk, SlotPut, DirsGood, ChainsOk, FilesKept, Conserves, Fits,
         ZeroTail, DirOf, Named;
    ghost var m, ch := v.View(), ChainOf(t, d);
    DirLocated(v.g, m, t, h, d);
    var ok := DirWrite(v, d, i, e, ch);
    EntryPut(v.g, m, v.View(), t, h, d, i, e);
    PutKeepsFiles(v.g, m, v.View(), t, d, i, e);
    SameTable(v.g, m, v.View(), ch, i, e);
    PutReserves(v.g, m, v.View(), ch, i, e);
    u := OwnedBy(v.g, t, e, d, i);
  }

  lemma PutReserves(g: Geo, m: Vol, after: Vol, ch: seq<nat>, i: nat, e: Slot)
    requires Shape(g, m) && Shape(g, after) && ListingOk(g, m, ch) && i < |Listing(g, m, ch)|
    requires SlotPut(g, m, after, ch, i, e)
    ensures Conserves(g, m, after)
  {
    ConservesSame(g, m, after);
  }

  /** Writes a file's bytes into free clusters, as a chain that belongs to no entry yet. */
  method StoreFile(v: Volume, data: seq<Byte>, ghost t: Tree, ghost h: set<(nat, nat)>)
    returns (first: nat, ghost u: Tree)
    requires v.Ok() && WellFormed(v.g, v.View(), t, h)
    modifies v`disk
    ensures v.Ok() && WellFormed(v.g, v.View(), u, h) && u.dirs == t.dirs && u.owner == t.owner
    ensures forall d :: d in t.dirs ==> DirOf(v.g, v.View(), u, d) == DirOf(v.g, old(v.View()), t, d)
    ensures FilesKept(t, old(v.View()), v.View(), {}) && SameFiles(t, u, {}) && Conserves(v.g, old(v.View()), v.View())
    ensures first != 0 <==> Wanted(v.g, |data|) <= |ZeroSet(old(v.View()).fat)|
    ensures first == 0 ==> v.View().fat == old(v.View()).fat && u == t
    ensures first != 0 ==>
      first in u.chains && first !in u.owner && first !in u.dirs && first != RootId(v.g) && Valid(v.g, first)
    ensures first != 0 ==> FileOutcome(v.g, v.View(), first, |data|) == Contents(data)
    ensures first != 0 ==>
      && |u.chains[first]| == Wanted(v.g, |data|)
      && old(forall x :: x in u.chains[first] ==> 2 <= x < |v.View().fat| && v.View().fat[x] == 0)
    ensures first != 0 ==>
      forall x :: 0 <= x < |v.View().fat| && x !in u.chains[first] ==> v.View().fat[x] == old(v.View()).fat[x]
  {
    hide v.Ok, v.View, DirsGood, DirOf, FileOutcome, FileIn, Framed, FilesKept, Conserves, ZeroSet, IsChain, Wanted;
    ghost var m := v.View();
    ghost var ch;
    first, ch := WriteChain(v, data);
    u := t;
    FramedKept(v.g, m, v.View(), t, ch);
    KeptFiles(t, m, v.View());
    if first == 0 {
      KeptWellFormed(v.g, m, v.View(), t, h);
    } else {
      StoredReads(v.g, v.View(), ch, data);
      ChainAdded(v.g, m, v.View(), t, h, ch);
      StoredFresh(v.g, m, v.View(), t, h, ch);
      u := WithChain(t, ch);
    }
  }

  lemma KeptFiles(t: Tree, m: Vol, after: Vol)
    requires Kept(t, m, after)
    ensures FilesKept(t, m, after, {})
  {
  }

  lemma StoredReads(g: Geo, m: Vol, ch: seq<nat>, data: seq<Byte>)
    requires Shape(g, m) && g.spc > 0 && TableOk(g, m.fat) && FileIn(g, m, ch, data) && |ch| == Wanted(g, |data|)
    ensures IsChain(g, m.fat, ch) && FileOutcome(g, m, ch[0], |data|) == Contents(data)
  {
    hide Gather, Take, Bad, IsChain, Pieces;
    assert |ch| > 0 by { LastValid(g, m.fat, ch); }
    ReadsBack(g, m, ch, data);
  }

  lemma StoredFresh(g: Geo, m: Vol, after: Vol, t: Tree, h: set<(nat, nat)>, ch: seq<nat>)
    requires WellFormed(g, m, t, h) && Framed(m, after, ch) && ch != [] && ch[0] !in t.chains
    ensures Valid(g, ch[0]) && ch[0] !in t.dirs && ch[0] !in t.owner && ch[0] != RootId(g)
    ensures SameFiles(t, WithChain(t, ch), {})
    ensures forall x :: x in ch ==> 2 <= x < |m.fat| && m.fat[x] == 0
    ensures |after.fat| == |m.fat| && forall x :: 0 <= x < |m.fat| && x !in ch ==> after.fat[x] == m.fat[x]
  {
    hide DirsGood, ChainsOk, Apart;
    assert ch[0] in ch;
  }

  /** The slots before i are in use, and slot i is free. */
  ghost predicate FreeSlot(dir: seq<Slot>, i: nat)
    requires SlotsOk(dir)
  {
    && i < |dir| && i < MAX_SLOTS && (dir[i][0] == 0 || dir[i][0] == DELETED)
    && forall j :: 0 <= j < i ==> dir[j][0] != 0 && dir[j][0] != DELETED
  }

  /** A chain that can get another cluster. */
  ghost predicate Growable(g: Geo, fat: seq<nat>, ch: seq<nat>) {
    |fat| == g.count + 2 && ch != [] && ch[|ch| - 1] < |fat| && FirstFree(g, fat, 2) < |fat|
  }

  /** The FAT once a chain got the first free cluster. */
  ghost function GrownFat(g: Geo, fat: seq<nat>, ch: seq<nat>): seq<nat>
    requires Growable(g, fat, ch)
  {
    Linked(g, fat, ch, FirstFree(g, fat, 2))
  }

  lemma GrownFatIs(g: Geo, m: Vol, ch: seq<nat>, c: nat)
    requires Shape(g, m) && ch != [] && Valid(g, ch[|ch| - 1]) && Valid(g, c) && c == FirstFree(g, m.fat, 2)
    ensures Growable(g, m.fat, ch) && Grown(g, m, ch, c).fat == GrownFat(g, m.fat, ch)
  {
    hide FirstFree, Full, FullCluster;
  }

  /** Finds a free slot in a directory, with another cluster for it if need be. */
  method MakeRoom(v: Volume, d: nat, ghost t: Tree) returns (room: Room, ghost u: Tree)
    requires v.Ok() && WellFormed(v.g, v.View(), t, {}) && d in t.dirs
    modifies v`disk
    ensures v.Ok() && WellFormed(v.g, v.View(), u, {}) && u.dirs == t.dirs && u.owner == t.owner
    ensures OtherDirs(v.g, old(v.View()), t, v.View(), u, d) && Conserves(v.g, old(v.View()), v.View())
    ensures FilesKept(t, old(v.View()), v.View(), {}) && SameFiles(t, u, {})
    ensures room == NoRoom || room == RoomFrom(DirOf(v.g, old(v.View()), t, d), 0)
    ensures !room.GrowAt? ==> u == t && v.View() == old(v.View())
    ensures room.GrowAt? ==> DirOf(v.g, v.View(), u, d) == DirOf(v.g, old(v.View()), t, d) + EndMarks(v.g)
    ensures room.GrowAt? ==> |ZeroSet(v.View().fat)| == |ZeroSet(old(v.View()).fat)| - 1
    ensures room.GrowAt? ==> Growable(v.g, old(v.View()).fat, ChainOf(t, d))
    ensures room.GrowAt? ==> v.View().fat == GrownFat(v.g, old(v.View()).fat, ChainOf(t, d))
    ensures room != NoRoom ==> FreeSlot(DirOf(v.g, v.View(), u, d), room.i)
    ensures room == NoRoom ==> !HasRoom(v.g, old(v.View()), t, d)
    ensures room != NoRoom ==> HasRoom(v.g, old(v.View()), t, d)
    ensures RoomMade(v.g, old(v.View()), t, d, v.View().fat)
  {
    hide v.Ok, v.View, Listing, Located, ListingOk, DirsGood, FilesKept, Conserves, ZeroSet, IsChain, Alloc, Grown,
         Full, FullCluster, DirOf, FirstFree, GrownFat;
    ghost var m, ch := v.View(), ChainOf(t, d);
    DirLocated(v.g, m, t, {}, d);
    ghost var c;
    room, c := FreeEntryIndex(v, d, ch);
    u := t;
    ConservesSame(v.g, m, m);
    SameKept(t, m);
    if room.GrowAt? {
      DirGrown(v.g, m, t, {}, d, c);
      GrownConserves(v.g, m, ch, c);
      GrowKeepsFiles(v.g, m, t, d, c);
      NotEmpty(m.fat, c);
      GrownFatIs(v.g, m, ch, c);
      u := WithGrown(t, d, c);
    } else if room == NoRoom {
      EmptyNone(m.fat);
    }
  }

  /** A directory has a free slot among those looked at, or is a chain that can grow by a free cluster. */
  ghost predicate HasRoom(g: Geo, m: Vol, t: Tree, d: nat) {
    match RoomFrom(DirOf(g, m, t, d), 0)
    case At(_) => true
    case GrowAt(_) => ChainOf(t, d) != [] && |ZeroSet(m.fat)| > 0
    case NoRoom => false
  }

  /** The FAT, once a directory that is full got another cluster if it can. */
  ghost predicate RoomMade(g: Geo, m: Vol, t: Tree, d: nat, fat: seq<nat>) {
    if RoomFrom(DirOf(g, m, t, d), 0).GrowAt? && HasRoom(g, m, t, d) then
      Growable(g, m.fat, ChainOf(t, d)) && fat == GrownFat(g, m.fat, ChainOf(t, d))
    else fat == m.fat
  }

  /** A directory with the end marks that it gets if it must grow. */
  ghost function WithRoom(g: Geo, dir: seq<Slot>): (r: seq<Slot>)
    requires SlotsOk(dir)
    ensures SlotsOk(r)
  {
    dir + if RoomFrom(dir, 0).GrowAt? then EndMarks(g) else []
  }

  /** A directory with an entry in the first free slot, behind the last one if none is free; no other slot differs. */
  ghost predicate EnteredIn(g: Geo, dir: seq<Slot>, now: seq<Slot>, e: Slot)
    requires SlotsOk(dir)
  {
    var room := RoomFrom(dir, 0);
    room != NoRoom && room.i < |WithRoom(g, dir)| && now == WithRoom(g, dir)[room.i := e]
  }

  /** A directory in which no slot differs, though it may have grown to make room. */
  ghost predicate OnlyRoom(g: Geo, m: Vol, t: Tree, d: nat, now: seq<Slot>) {
    now == if HasRoom(g, m, t, d) then WithRoom(g, DirOf(g, m, t, d)) else DirOf(g, m, t, d)
  }

  lemma NotEmpty(fat: seq<nat>, c: nat)
    requires 2 <= c < |fat| && fat[c] == 0
    ensures |ZeroSet(fat)| > 0
  {
    assert c in ZeroSet(fat);
  }

  lemma EmptyNone(fat: seq<nat>)
    ensures ZeroSet(fat) == {} <==> |ZeroSet(fat)| == 0
  {
  }

  lemma SameKept(t: Tree, m: Vol)
    requires |m.data| == |m.fat|
    ensures FilesKept(t, m, m, {}) && SameFiles(t, t, {})
  {
  }

  /** Frees the clusters of the file whose entry is in a slot; the entry is then to be replaced. */
  method DropFile(v: Volume, d: nat, i: nat, e: Slot, ghost t: Tree) returns (ghost u: Tree)
    requires v.Ok() && WellFormed(v.g, v.View(), t, {}) && d in t.dirs && i < |DirOf(v.g, v.View(), t, d)|
    requires e == DirOf(v.g, v.View(), t, d)[i] && Object(e) && !IsDirectory(e)
    modifies v`disk
    ensures v.Ok() && WellFormed(v.g, v.View(), u, {(d, i)}) && u.dirs == t.dirs && Unowned(u, d, i)
    ensures forall b :: b in t.dirs ==> DirOf(v.g, v.View(), u, b) == DirOf(v.g, old(v.View()), t, b)
    ensures FilesKept(t, old(v.View()), v.View(), {FirstCluster(v.g.kind, e)})
    ensures SameFiles(t, u, {FirstCluster(v.g.kind, e)})
    ensures Conserves(v.g, old(v.View()), v.View())
    ensures FirstCluster(v.g.kind, e) == 0 ==> u == t && v.View() == old(v.View())
    ensures FirstCluster(v.g.kind, e) != 0 ==>
      FirstCluster(v.g.kind, e) in t.chains && u == WithoutChain(t, FirstCluster(v.g.kind, e))
    ensures forall x :: 0 <= x < |old(v.View()).fat| ==>
      v.View().fat[x] == if x in ChainOf(t, FirstCluster(v.g.kind, e)) then 0 else old(v.View()).fat[x]
    ensures |ZeroSet(v.View().fat)| == |ZeroSet(old(v.View()).fat)| + |ChainOf(t, FirstCluster(v.g.kind, e))|
  {
    hide v.Ok, v.View, FilesKept, Conserves, ZeroSet, IsChain, Full, FullCluster, DirOf, FirstCluster, FreeView,
         DirsGood, Apart, Object, IsDirectory;
    ghost var m := v.View();
    var c := FirstCluster(v.g.kind, e);
    HoleAdded(v.g, m, t, {}, d, i);
    assert {} + {(d, i)} == {(d, i)};
    ConservesSame(v.g, m, m);
    SameKept(t, m);
    EntryOwns(v.g, m, t, d, i);
    FreeClusters(v, c);
    u := t;
    if c != 0 {
      ChainFreed(v.g, m, t, {(d, i)}, c);
      FreedFiles(v.g, m, v.View(), t, c);
      u := WithoutChain(t, c);
    } else {
      ZeroNoChain(v.g, m, t);
      FreeNothing(v.g, m);
      KeptGone(t, m, 0);
    }
  }

  lemma KeptGone(t: Tree, m: Vol, c: nat)
    requires |m.data| == |m.fat|
    ensures FilesKept(t, m, m, {c}) && SameFiles(t, t, {c})
  {
  }

  /** Freeing one chain keeps the files of the others, and frees as many clusters as the chain is long. */
  lemma FreedFiles(g: Geo, m: Vol, after: Vol, t: Tree, c: nat)
    requires Shape(g, m) && Shape(g, after) && TableOk(g, m.fat) && ChainsOk(g, m.fat, t) && Apart(t) && c in t.chains
    requires after == FreeView(g, m, c)
    ensures FilesKept(t, m, after, {c}) && SameFiles(t, WithoutChain(t, c), {c})
    ensures |ZeroSet(after.fat)| == |ZeroSet(m.fat)| + |t.chains[c]|
  {
    hide IsChain, Full, FullCluster, ZeroSet, FreeView;
    FreesChain(g, m.fat, t.chains[c]);
    forall b, x | b in t.chains && b != c && x in t.chains[b] ensures x !in t.chains[c] {
      assert Disjoint(t.chains[b], t.chains[c]);
    }
    FreedCount(g, m.fat, t.chains[c]);
  }

  lemma {:induction false} FreedCount(g: Geo, fat: seq<nat>, ch: seq<nat>)
    requires TableOk(g, fat) && IsChain(g, fat, ch)
    ensures |ZeroSet(FreeChain(g, fat, ch[0]))| == |ZeroSet(fat)| + |ch|
  {
    FreesChain(g, fat, ch);
    ChainInUse(g, fat, ch);
    assert ZeroSet(FreeChain(g, fat, ch[0])) == ZeroSet(fat) + Elements(ch);
    assert ZeroSet(fat) !! Elements(ch);
    forall i, j | 0 <= i < j < |ch| ensures ch[i] != ch[j] { ChainDistinct(g, fat, ch, i, j); }
    ElementCount(ch);
  }

  function Elements(ch: seq<nat>): set<nat> {
    set x | x in ch
  }

  lemma {:induction false} ElementCount(ch: seq<nat>)
    requires Distinct(ch)
    ensures |Elements(ch)| == |ch|
  {
    if ch != [] {
      var n := |ch| - 1;
      ElementCount(ch[..n]);
      assert Elements(ch) == Elements(ch[..n]) + {ch[n]};
    }
  }
}
