/** Formatting: what the installer writes is, when mounted, an empty well-formed volume. */
module Format {
  import opened Bytes
  import opened Geometry
  import opened Layout
  import opened BootSector
  import opened FatCodec
  import opened FatDisk
  import opened FatChains
  import opened FatSpace
  import opened FatDir
  import opened FatTree
  import opened FatTreeOps
  import opened FatVolume
  import opened FatFiles

  /** The volume's FAT has an entry for every cluster exactly when the layout iteration settled. */
  lemma DescribedOk(k: Kind, volume: nat, f: nat)
    requires LaidOut(k, volume, f) && volume <= LBA28
    ensures GeoOk(Described(k, volume, f)) <==> !Alternating(k, volume)
  {
    hide Alternating, Settled, Alternates;
    LayoutInside(k, volume, f);
    EndsAt(k, volume, f);
    var g := Described(k, volume, f);
    assert g.firstData == RootStart(g) + RootSectorsFor(g.rootEntries);
    assert KindOf(g.count) == k;
    assert Offset(k, g.count + 1) + EntryBytes(k) == FatBytesFor(k, g.count);
  }

  /** The first bytes of a fresh FAT: the two reserved entries and, on FAT32, the root directory's. */
  function Head(k: Kind): (h: seq<Byte>)
    ensures |h| <= 12
  {
    match k
    case Fat12 => [0xF8, 0xFF, 0xFF]
    case Fat16 => [0xF8, 0xFF, 0xFF, 0xFF]
    case Fat32 => [0xF8, 0xFF, 0xFF, 0x0F, 0xFF, 0xFF, 0xFF, 0xFF, 0xFF, 0xFF, 0xFF, 0x0F]
  }

  /** A FAT copy with those bytes and zeros. */
  ghost predicate FreshTable(k: Kind, s: seq<Byte>) {
    |s| >= 512 && s[..|Head(k)|] == Head(k) && forall j :: |Head(k)| <= j < |s| ==> s[j] == 0
  }

  lemma FreshEntries(k: Kind, s: seq<Byte>, c: nat)
    requires FreshTable(k, s) && c >= 2 && Offset(k, c) + EntryBytes(k) <= |s|
    ensures GetEntry(k, s, c) == if k == Fat32 && c == 2 then Eoc(k) else 0
  {
    var o := Offset(k, c);
    if k == Fat32 && c == 2 {
      assert s[..12][8..] == Head(k)[8..] == [0xFF, 0xFF, 0xFF, 0x0F];
      assert s[8] == s[..12][8..][0] && s[9] == s[..12][8..][1] && s[10] == s[..12][8..][2] && s[11] == s[..12][8..][3];
    } else {
      assert o >= |Head(k)|;
      assert s[o] == 0 && s[o + 1] == 0;
    }
  }

  /** The two entries before those of clusters: the media byte with all other bits set, and an end mark. */
  lemma ReservedEntries(k: Kind, s: seq<Byte>)
    requires FreshTable(k, s)
    ensures Offset(k, 1) + EntryBytes(k) <= |s| && GetEntry(k, s, 1) == Range(k) - 1
    ensures GetEntry(k, s, 0) == (match k case Fat12 => 0xFF8 case Fat16 => 0xFFF8 case Fat32 => 0xFFF_FFF8)
  {
    var n := |Head(k)|;
    forall i | 0 <= i < n ensures s[i] == Head(k)[i] { assert s[..n][i] == s[i]; }
  }

  /** The tree of an empty volume. */
  function FreshTree(g: Geo): Tree {
    if g.kind == Fat32 then Tree(map[g.rootCluster := [g.rootCluster]], {g.rootCluster}, map[])
    else Tree(map[], {0}, map[])
  }

  /** All clusters free, but for the root directory's, and the root directory zeroed. */
  ghost predicate Fresh(g: Geo, m: Vol) {
    && Shape(g, m) && (if g.kind == Fat32 then Valid(g, g.rootCluster) else true)
    && (forall c :: 2 <= c < |m.fat| ==> m.fat[c] == if g.kind == Fat32 && c == g.rootCluster then Eoc(g.kind) else 0)
    && (if g.kind == Fat32 then m.data[g.rootCluster] == ZeroCluster(g)
        else forall i :: 0 <= i < |m.root| ==> m.root[i] == Zeros(SECTOR))
  }

  /** An empty volume is well-formed. */
  lemma FreshWellFormed(g: Geo, m: Vol)
    requires GeoOk(g) && Fresh(g, m)
    ensures WellFormed(g, m, FreshTree(g), {})
  {
    hide GeoOk, ZeroCluster, Slots, EntriesOk, ZeroTail, Object, Listing, ListingOk, Full, FullCluster;
    assert g.spc > 0 && TableOk(g, m.fat) by { GeoBounds(g, m); }
    var t := FreshTree(g);
    if g.kind == Fat32 {
      EmptyDirectory(g, m, t, g.rootCluster);
    } else {
      EmptyRoot(g, m);
    }
    NoEntries(g, t, RootId(g), DirOf(g, m, t, RootId(g)), {});
  }

  lemma GeoBounds(g: Geo, m: Vol)
    requires GeoOk(g) && Shape(g, m)
    ensures g.spc > 0 && TableOk(g, m.fat)
  {
  }

  lemma EmptyRoot(g: Geo, m: Vol)
    requires Shape(g, m) && forall i :: 0 <= i < |m.root| ==> m.root[i] == Zeros(SECTOR)
    ensures ListingOk(g, m, []) && ZeroTail(Listing(g, m, []))
    ensures forall i :: 0 <= i < |Listing(g, m, [])| ==> !Object(Listing(g, m, [])[i])
  {
    var dir := Listing(g, m, []);
    forall i | 0 <= i < |dir| ensures dir[i][0] == 0 {
      assert dir[i] == m.root[i / 16][i % 16 * 32..i % 16 * 32 + 32];
    }
  }

  /** The first sector of a fresh FAT. */
  function FirstSector(k: Kind): (s: seq<Byte>)
    ensures |s| == SECTOR
  {
    Splice(Zeros(SECTOR), 0, Head(k))
  }

  /** A run of sectors that is a fresh FAT. */
  ghost predicate FatWritten(k: Kind, disk: Disk, base: nat, f: nat) {
    && base + f <= |disk|
    && forall i :: base <= i < base + f ==> disk[i] == if i == base then FirstSector(k) else Zeros(SECTOR)
  }

  ghost predicate Zeroed(disk: Disk, base: nat, n: nat) {
    base + n <= |disk| && forall i :: base <= i < base + n ==> disk[i] == Zeros(SECTOR)
  }

  /** Writes one copy of a fresh FAT. */
  method WriteFat(k: Kind, base: nat, f: nat, disk: array<seq<Byte>>)
    requires base + f <= disk.Length && Full(disk[..])
    modifies disk
    ensures Full(disk[..]) && FatWritten(k, disk[..], base, f)
    ensures forall i :: 0 <= i < disk.Length && (i < base || i >= base + f) ==> disk[i] == old(disk[i])
  {
    hide FirstSector;
    var first := FirstSector(k);
    var s := 0;
    while s < f
      invariant 0 <= s <= f && Full(disk[..])
      invariant forall i :: base <= i < base + s ==> disk[i] == if i == base then first else Zeros(SECTOR)
      invariant forall i :: 0 <= i < disk.Length && (i < base || i >= base + s) ==> disk[i] == old(disk[i])
    {
      disk[base + s] := if s == 0 then first else Zeros(SECTOR);
      s := s + 1;
    }
  }

  /** Zeroes a run of sectors. */
  method ZeroRun(base: nat, n: nat, disk: array<seq<Byte>>)
    requires base + n <= disk.Length && Full(disk[..])
    modifies disk
    ensures Full(disk[..]) && Zeroed(disk[..], base, n)
    ensures forall i :: 0 <= i < disk.Length && (i < base || i >= base + n) ==> disk[i] == old(disk[i])
  {
    var s := 0;
    while s < n
      invariant 0 <= s <= n && Full(disk[..])
      invariant forall i :: base <= i < base + s ==> disk[i] == Zeros(SECTOR)
      invariant forall i :: 0 <= i < disk.Length && (i < base || i >= base + s) ==> disk[i] == old(disk[i])
    {
      disk[base + s] := Zeros(SECTOR);
      s := s + 1;
    }
  }

  /** A fresh FAT as bytes. */
  lemma FatWrittenFresh(k: Kind, disk: Disk, base: nat, f: nat)
    requires Full(disk) && FatWritten(k, disk, base, f) && f >= 1
    ensures FreshTable(k, Flat(disk, base, f))
  {
    hide Splice, Flat;
    var r, h := Flat(disk, base, f), Head(k);
    SpliceAt(Zeros(SECTOR), 0, h);
    forall j | 0 <= j < |r| ensures r[j] == if j < |h| then h[j] else 0 {
      assert r[j] == disk[base + j / 512][j % 512];
      if j < 512 { assert j / 512 == 0 && j % 512 == j; }
    }
    assert r[..|h|] == h;
  }

  /** What formatting leaves on the disk. */
  ghost predicate Formatted(g: Geo, disk: Disk)
    requires GeoOk(g) && DiskOk(g, disk)
  {
    && g.copies == 2 && FatWritten(g.kind, disk, g.reserved, g.fatSize)
    && FatWritten(g.kind, disk, g.reserved + g.fatSize, g.fatSize)
    && Zeroed(disk, RootStart(g), RootSectorsFor(g.rootEntries))
    && (g.kind == Fat32 ==> g.rootCluster == 2 && Zeroed(disk, g.firstData, g.spc))
  }

  lemma FormattedTables(g: Geo, disk: Disk)
    requires GeoOk(g) && DiskOk(g, disk) && Formatted(g, disk)
    ensures CopiesAgree(g, disk) && FreshTable(g.kind, Copy(g, disk, 0))
  {
    hide Flat, FreshTable, FatWritten, Zeroed;
    CopiesApart(g, 0, 1);
    FatWrittenFresh(g.kind, disk, g.reserved, g.fatSize);
    FatWrittenFresh(g.kind, disk, g.reserved + g.fatSize, g.fatSize);
    FreshSame(g.kind, Copy(g, disk, 0), Copy(g, disk, 1));
    forall k: nat | k < g.copies ensures Copy(g, disk, k) == Copy(g, disk, 0) {
      assert k == 0 || k == 1;
    }
  }

  lemma FreshSame(k: Kind, a: seq<Byte>, b: seq<Byte>)
    requires FreshTable(k, a) && FreshTable(k, b) && |a| == |b|
    ensures a == b
  {
    forall j | 0 <= j < |a| ensures a[j] == b[j] {
      if j < |Head(k)| { assert a[j] == a[..|Head(k)|][j] && b[j] == b[..|Head(k)|][j]; }
    }
  }

  lemma FormattedFresh(g: Geo, disk: Disk)
    requires GeoOk(g) && DiskOk(g, disk) && Formatted(g, disk)
    ensures CopiesAgree(g, disk) && Fresh(g, Abs(g, disk))
  {
    hide Copy, FreshTable, FatWritten, ClusterSector, CopyStart, GetEntry, Offset, EntryBytes;
    FormattedTables(g, disk);
    var m := Abs(g, disk);
    forall c | 2 <= c < |m.fat| ensures m.fat[c] == if g.kind == Fat32 && c == 2 then Eoc(g.kind) else 0 {
      EntryInside(g, c);
      FreshEntries(g.kind, Copy(g, disk, 0), c);
    }
    if g.kind == Fat32 {
      RootClusterZero(g, disk);
    }
  }

  lemma RootClusterZero(g: Geo, disk: Disk)
    requires GeoOk(g) && DiskOk(g, disk) && Formatted(g, disk) && g.kind == Fat32
    ensures Abs(g, disk).data[2] == ZeroCluster(g)
  {
    hide Copy, FreshTable, FatWritten, GetEntry, Offset, EntryBytes;
    ClustersApart(g, 2, 2);
    assert Abs(g, disk).data[2] == ClusterOf(g, disk, 2) == disk[g.firstData..g.firstData + g.spc];
  }

  /** Formats the disk, as one of the listed sizes allows; boot code is kept. */
  method FormatFilesystem(i: Installer, k: Kind, disk: array<seq<Byte>>) returns (status: Status, ghost g: Geo)
    requires disk.Length <= LBA28 && Full(disk[..])
    modifies i, disk
    ensures Full(disk[..]) && (status == Ok <==> Accepts(k, disk.Length))
    ensures status == Ok ==> disk.Length > 0 && Mount(disk[0]) == Mounted.Volume(g) && g.kind == k
    ensures status == Ok ==> g.rootEntries == RootEntries(k) && g.spc == SectorsPerCluster(k)
    ensures status == Ok ==> (GeoOk(g) <==> !Alternating(k, disk.Length))
    ensures status == Ok && GeoOk(g) ==> DiskOk(g, disk[..]) && Formatted(g, disk[..])
    ensures status == Ok ==> forall j :: 90 <= j < 510 ==> disk[0][j] == old(disk[0])[j]
  {
    hide Alternating, Settled, Alternates, Mount, Accepts, Holds, InRange, FatWritten, Zeroed, GeoOk, Formatted,
         DiskOk, Clusters;
    g := Geo(k, 0, 0, 0, 0, 0, 0, 0, 0, 0, 0);
    status := i.CalculateLayout(k, disk.Length);
    if status != Ok { return; }
    ghost var f := i.fatSectors;
    g := Described(k, disk.Length, f);
    DescribedOk(k, disk.Length, f);
    WriteBootSector(i, k, disk);
    FormattedRoom(k, disk.Length, f);
    FillRegions(k, i.fatSectors, i.rootSectors, i.sectorsPerCluster, disk);
    if GeoOk(g) { FormattedIs(k, disk.Length, f, disk[..]); }
  }

  /** Writes the FATs, the root directory and, on FAT32, its cluster. */
  method FillRegions(k: Kind, f: nat, root: nat, spc: nat, disk: array<seq<Byte>>)
    requires Full(disk[..]) && RESERVED + 2 * f + root + (if k == Fat32 then spc else 0) <= disk.Length
    modifies disk
    ensures Full(disk[..]) && FatWritten(k, disk[..], RESERVED, f) && FatWritten(k, disk[..], RESERVED + f, f)
    ensures Zeroed(disk[..], RESERVED + 2 * f, root) && (k == Fat32 ==> Zeroed(disk[..], RESERVED + 2 * f + root, spc))
    ensures forall n :: 0 <= n < RESERVED ==> disk[n] == old(disk[n])
  {
    hide FirstSector;
    WriteFat(k, RESERVED, f, disk);
    WriteFat(k, RESERVED + f, f, disk);
    ZeroRun(RESERVED + 2 * f, root, disk);
    if k == Fat32 {
      ZeroRun(RESERVED + 2 * f + root, spc, disk);
    }
  }

  lemma FormattedRoom(k: Kind, volume: nat, f: nat)
    requires LaidOut(k, volume, f) && volume <= LBA28
    ensures RESERVED + 2 * f + RootSectors(k) + (if k == Fat32 then SectorsPerCluster(k) else 0) <= volume
  {
    LayoutInside(k, volume, f);
  }

  lemma FormattedIs(k: Kind, volume: nat, f: nat, disk: Disk)
    requires LaidOut(k, volume, f) && volume <= LBA28 && |disk| == volume && Full(disk)
    requires GeoOk(Described(k, volume, f))
    requires FatWritten(k, disk, RESERVED, f) && FatWritten(k, disk, RESERVED + f, f)
    requires Zeroed(disk, RESERVED + 2 * f, RootSectors(k))
    requires k == Fat32 ==> Zeroed(disk, RESERVED + 2 * f + RootSectors(k), SectorsPerCluster(k))
    ensures DiskOk(Described(k, volume, f), disk) && Formatted(Described(k, volume, f), disk)
  {
    hide FatWritten, Zeroed, LaidOut, GeoOk;
    LayoutInside(k, volume, f);
  }

  /** A volume just formatted: its root directory is current and empty. */
  ghost predicate Blank(v: Volume, k: Kind, t: Tree)
    requires v.Ok()
    reads v
  {
    && v.g.rootEntries == RootEntries(k) && v.g.spc == SectorsPerCluster(k) && v.g.kind == k
    && v.current == RootId(v.g) && t == FreshTree(v.g) && Fresh(v.g, v.View())
  }

  /** Formatting and then mounting gives an empty well-formed volume, except on alternating sizes. */
  method Install(i: Installer, k: Kind, disk: array<seq<Byte>>) returns (status: Status, v: Volume?, ghost t: Tree)
    requires disk.Length <= LBA28 && Full(disk[..])
    modifies i, disk
    ensures status == Ok <==> Accepts(k, disk.Length)
    ensures status == Ok ==> v != null && fresh(v) && v.g.kind == k
    ensures status == Ok && !Alternating(k, disk.Length) ==> v != null && Good(v, t) && Blank(v, k, t)
    ensures status == Ok && Alternating(k, disk.Length) ==> v != null && !v.Ok()
  {
    hide Alternating, Mount, Accepts, Abs, Formatted, WellFormed, GeoOk, DiskOk, CopiesAgree, Fresh;
    v, t := null, Tree(map[], {}, map[]);
    ghost var g;
    status, g := FormatFilesystem(i, k, disk);
    if status != Ok { return; }
    v := new Volume(disk[..]);
    if GeoOk(g) {
      FormattedFresh(g, disk[..]);
      FreshWellFormed(g, Abs(g, disk[..]));
      t := FreshTree(g);
      RootRooted(g, t);
    }
  }
}
