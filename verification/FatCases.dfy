/** Volumes on which the exceptions to the promises of the FAT driver come about. */
module FatCases {
  import opened Bytes
  import opened Geometry
  import opened Layout
  import opened FatCodec
  import opened FatDisk
  import opened FatChains
  import opened FatVolume
  import opened FatSpace
  import opened FatData
  import opened FatDir
  import opened FatName
  import opened FatLookup
  import opened FatTree
  import opened FatRead
  import opened FatSteps
  import opened FatFiles
  import opened FatTreeOps
  import opened Format

  /** The clusters of a chain and the free clusters are at most all clusters. */
  lemma ChainAndFree(g: Geo, fat: seq<nat>, ch: seq<nat>)
    requires TableOk(g, fat) && IsChain(g, fat, ch)
    ensures |ZeroSet(fat)| + |ch| <= g.count
  {
    ChainInUse(g, fat, ch);
    forall i, j | 0 <= i < j < |ch| ensures ch[i] != ch[j] { ChainDistinct(g, fat, ch, i, j); }
    ElementCount(ch);
    FreedCount(g, fat, ch);
    ZerosBounded(FreeChain(g, fat, ch[0]));
    FreesChain(g, fat, ch);
  }

  /** The root directory of a blank FAT12 or FAT16 volume has room and holds no name. */
  lemma BlankRoot(v: Volume, t: Tree, name: seq<Byte>)
    requires v.Ok() && v.g.kind == Fat12 && Blank(v, Fat12, t)
    ensures FindFrom(DirOf(v.g, v.View(), t, v.current), Sfn(name), 0) == Missing
    ensures RoomForNew(v.g, v.View(), t, v.current, 1) && RoomForDirectory(v.g, v.View(), t, v.current)
  {
    assert v.g.count > 0;
    hide v.Ok, Sfn;
    EmptyRoot(v.g, v.View());
    var dir := DirOf(v.g, v.View(), t, v.current);
    RootListing(v.g, v.View());
    assert dir[0][0] == 0;
    NotEmpty(v.View().fat, 2);
  }

  /** A file that reads back has clusters. */
  lemma ReadsHasClusters(g: Geo, m: Vol, t: Tree, d: nat, name: seq<Byte>, data: seq<Byte>)
    requires WellFormed(g, m, t, {}) && d in t.dirs && g.spc > 0
    requires ReadsAs(g, m, DirOf(g, m, t, d), Sfn(name), data) && data != []
    ensures ReplacesFile(g, m, t, d, name)
  {
    hide DirsGood, DirOf, FindFrom, Sfn, FirstCluster, IsDirectory;
    assert ReadOutcome(g, m, DirOf(g, m, t, d), Sfn(name), |data|) == Contents(data);
  }

  /** Replacing a file by one that is larger than the volume fails, and the volume is damaged. */
  method ReplaceTooLarge(v: Volume, ghost t: Tree)
    requires Good(v, t) && v.g.kind == Fat12 && Blank(v, Fat12, t)
    modifies v`disk
    ensures v.Ok() && !Repairable(v.g, v.View(), v.current)
  {
    hide v.Ok, v.View, WellFormed, DirOf, Conserves, Unaffected, Sfn, FirstCluster, IsDirectory, RoomForNew, Rooted,
         ZeroSet, FindFrom, ReadsAs, Fresh;
    BlankRoot(v, t, [65]);
    var ok, lost;
    ghost var u;
    ok, lost, u := Create(v, [65], [1], t);
    ReadsHasClusters(v.g, v.View(), u, v.current, [65], [1]);
    var size := Span(v.g, v.g.count) + 1;
    TooLarge(v.g, v.View(), u, v.current, [65], size);
    SpanFits(v);
    ok, lost, u := Create(v, [65], Zeros(size), u);
  }

  lemma SpanFits(v: Volume)
    requires v.Ok() && v.g.kind == Fat12 && v.g.spc == 32
    ensures Span(v.g, v.g.count) + 1 < 0x1_0000_0000
  {
    assert v.g.count < 4085;
    hide v.Ok;
    SpanIs(v.g, v.g.count);
  }

  lemma TooLarge(g: Geo, m: Vol, t: Tree, d: nat, name: seq<Byte>, size: nat)
    requires WellFormed(g, m, t, {}) && d in t.dirs && g.spc > 0 && ReplacesFile(g, m, t, d, name)
    requires Span(g, g.count) < size
    ensures !CanCreate(g, m, t, d, name, size)
  {
    hide DirOf, FindFrom, Sfn, FirstCluster, IsDirectory, ZeroSet, IsChain, Full, FullCluster, Needed, DirsGood,
         EntriesOk;
    var i := FindFrom(DirOf(g, m, t, d), Sfn(name), 0).i;
    FoundEntry(g, m, t, d, i, name);
    ChainAndFree(g, m.fat, t.chains[FirstCluster(g.kind, DirOf(g, m, t, d)[i])]);
    NeededBeyond(g, size, g.count);
  }

  /** Formatting a floppy disk, and then a file and a larger one under the same name: the file is lost. */
  method LoseFile(i: Installer, disk: array<seq<Byte>>) returns (v: Volume)
    requires disk.Length == 2880 && Full(disk[..])
    modifies i, disk
    ensures v.Ok() && !Repairable(v.g, v.View(), v.current)
  {
    FloppyAccepted();
    hide Blank, Repairable, Accepts, Alternating, WellFormed, Rooted, CopiesAgree, DiskOk, GeoOk;
    var status, w;
    ghost var t;
    status, w, t := Install(i, Fat12, disk);
    v := w;
    ReplaceTooLarge(v, t);
  }

  lemma FloppyAccepted()
    ensures Accepts(Fat12, 2880) && Layout.Room(Fat12, 2880) > 100 && !Alternating(Fat12, 2880)
  {
  }

  /** A file whose name starts with 0xE5 is made, and cannot be read. */
  method MakeUnreadable(v: Volume, ghost t: Tree) returns (ok: bool, ghost u: Tree)
    requires Good(v, t) && v.g.kind == Fat12 && Blank(v, Fat12, t)
    modifies v`disk
    ensures Good(v, u) && ok && !ReadsAs(v.g, v.View(), DirOf(v.g, v.View(), u, v.current), Sfn([DELETED]), [1])
  {
    hide v.Ok, v.View, WellFormed, DirOf, Conserves, Unaffected, Sfn, FirstCluster, IsDirectory, RoomForNew, Rooted,
         ZeroSet, FindFrom, ReadsAs, Fresh;
    BlankRoot(v, t, [DELETED]);
    var lost;
    ok, lost, u := Create(v, [DELETED], [1], t);
  }

  /** A directory whose name starts with 0xE5 is made, and there is no way to it. */
  method MakeUnreachable(v: Volume, ghost t: Tree) returns (ok: bool, ghost u: Tree, ghost c: nat)
    requires Good(v, t) && v.g.kind == Fat12 && Blank(v, Fat12, t)
    modifies v`disk
    ensures Good(v, u) && ok && c in u.dirs && !Rooted(v.g, u, c)
  {
    hide v.Ok, v.View, WellFormed, DirOf, Conserves, Unaffected, Sfn, FirstCluster, IsDirectory, RoomForNew, Rooted,
         ZeroSet, FindFrom, Fresh, RoomForDirectory, HasRoom, FreshDirectory, RoomMade, FirstTaken;
    BlankRoot(v, t, [DELETED]);
    ok, u, c := Mkdir(v, [DELETED], t);
  }

  // ----- free counts -----

  /** The smallest FAT32 volume, with its free-space sector in a given place. */
  function Smallest(info: nat, backup: nat): Geo {
    Geo(Fat32, 8, 1, 512, 0, 520, 1, 65525, 2, info, backup)
  }

  /** A free-space sector that counts one free cluster. */
  function InfoByte(i: nat): Byte {
    if i in {0, 1} then 0x52 else if i == 2 then 0x61 else if i == 3 then 0x41
    else if i in {484, 485} then 0x72 else if i == 486 then 0x41 else if i == 487 then 0x61
    else if i == 488 then 1 else if i == 510 then 0x55 else if i == 511 then 0xAA else 0
  }

  const ONE_FREE: seq<Byte> := seq(SECTOR, (i: nat) => InfoByte(i))

  function LinkOf(c: nat, loop: bool): nat {
    if c == 3 then 0 else if c == 5 && loop then 5 else Eoc(Fat32)
  }

  /** One cluster is free, cluster 3, and one, cluster 5, may link to itself; the count is right. */
  function OneFree(g: Geo, loop: bool): Vol {
    Vol(seq(8, (q: nat) => if q == g.info then ONE_FREE else Zeros(SECTOR)),
        seq(65527, (c: nat) => LinkOf(c, loop)),
        [], seq(65527, (c: nat) => [Zeros(SECTOR)]))
  }

  lemma OneFreeCounts(g: Geo, loop: bool)
    requires g == Smallest(g.info, g.backup) && 0 < g.info < 8
    ensures GeoOk(g) && Shape(g, OneFree(g, loop)) && Tracks(g, OneFree(g, loop), g.info)
  {
    var m := OneFree(g, loop);
    assert forall c :: 0 <= c < |m.fat| ==> m.fat[c] == LinkOf(c, loop);
    assert ZeroSet(m.fat) == {3};
    assert CountIn(m.reserved[g.info]) == Known(1) by { assert m.reserved[g.info] == ONE_FREE; }
  }

  /** With the free-space sector just behind the backup boot sector, taking a cluster counts twice. */
  lemma CountedTwice()
    ensures var g := Smallest(2, 1);
      var m := OneFree(g, false);
      && GeoOk(g) && Shape(g, m) && Tracks(g, m, 2) && FirstFree(g, m.fat, 2) == 3
      && Shape(g, Alloc(g, m, 3)) && !Tracks(g, Alloc(g, m, 3), 2)
  {
    var g := Smallest(2, 1);
    var m := OneFree(g, false);
    OneFreeCounts(g, false);
    assert m.fat[2] != 0 && m.fat[3] == 0;
    hide OneFree;
    SecondIsFirstFree(g, m.fat);
    AdjustedTwice(g, m);
  }

  lemma SecondIsFirstFree(g: Geo, fat: seq<nat>)
    requires |fat| == g.count + 2 && g.count >= 2 && fat[2] != 0 && fat[3] == 0
    ensures FirstFree(g, fat, 2) == 3
  {
    assert FirstFree(g, fat, 3) == 3;
  }

  lemma AdjustedTwice(g: Geo, m: Vol)
    requires g.kind == Fat32 && g.info == 2 && g.backup == 1 && 2 <= g.count && g.count + 2 <= Range(g.kind)
    requires Shape(g, m) && Tracks(g, m, 2) && m.fat[3] == 0
    ensures Shape(g, Alloc(g, m, 3)) && !Tracks(g, Alloc(g, m, 3), 2)
  {
    hide AdjustInfo, CountIn, ZeroCluster, Tracks;
    AllocConserves(g, m, 3);
    assert ZeroSet(Alloc(g, m, 3).fat) == ZeroSet(m.fat) - {3};
    TracksExactly(g, m, Alloc(g, m, 3), -1, 4, 2);
  }

  /** Freeing a chain that links to itself counts one cluster twice. */
  lemma LoopCountedTwice()
    ensures var g := Smallest(2, 6);
      var m := OneFree(g, true);
      && GeoOk(g) && Shape(g, m) && Tracks(g, m, 2) && Adjustments(g, 2) == 1
      && Shape(g, FreeView(g, m, 5)) && !Tracks(g, FreeView(g, m, 5), 2)
  {
    var g := Smallest(2, 6);
    var m := OneFree(g, true);
    OneFreeCounts(g, true);
    assert m.fat[5] == 5;
    hide OneFree;
    LoopEnds(g, m.fat);
    FreeTracksExactly(g, m, 5, 2);
  }

  lemma LoopEnds(g: Geo, fat: seq<nat>)
    requires |fat| == g.count + 2 && g.count >= 4 && fat[5] == 5
    ensures EndsOnZero(g, fat, 5)
  {
    assert EndsOnZero(g, fat[5 := 0], 5);
  }
}
