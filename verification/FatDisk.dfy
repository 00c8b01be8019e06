/** A FAT volume as sectors of a disk, and what the sectors say: reserved sectors, FAT entries, root
    directory and clusters. */
module FatDisk {
  import opened Bytes
  import opened Geometry
  import opened FatCodec

  /** A run of sectors as one sequence of bytes. */
  ghost function Flat(disk: Disk, base: nat, n: nat): (r: seq<Byte>)
    requires Full(disk) && base + n <= |disk|
    ensures |r| == 512 * n && forall i :: 0 <= i < 512 * n ==> r[i] == disk[base + i / 512][i % 512]
  {
    seq(512 * n, (i: nat) requires i < 512 * n && base + n <= |disk| && Full(disk) => disk[base + i / 512][i % 512])
  }

  /** Bytes written within one sector are bytes written in the run. */
  lemma FlatPatch(disk: Disk, base: nat, n: nat, off: nat, t: seq<Byte>)
    requires Full(disk) && base + n <= |disk| && off + |t| <= 512 * n && off % 512 + |t| <= 512 && |t| > 0
    ensures base + off / 512 < base + n
    ensures Full(disk[base + off / 512 := Splice(disk[base + off / 512], off % 512, t)])
    ensures Flat(disk[base + off / 512 := Splice(disk[base + off / 512], off % 512, t)], base, n) ==
      Splice(Flat(disk, base, n), off, t)
  {
    hide Splice;
    var q, p := off / 512, off % 512;
    var s := disk[base + q];
    var d := disk[base + q := Splice(s, p, t)];
    var f := Flat(disk, base, n);
    SpliceAt(s, p, t);
    SpliceAt(f, off, t);
    forall i | 0 <= i < 512 * n ensures Flat(d, base, n)[i] == Splice(f, off, t)[i] {
      assert Flat(d, base, n)[i] == d[base + i / 512][i % 512];
      if i / 512 == q {
        assert i - off == i % 512 - p;
      } else {
        assert !(off <= i < off + |t|);
      }
    }
  }

  /** Writing a sector outside a run leaves the run alone. */
  lemma FlatElsewhere(disk: Disk, base: nat, n: nat, q: nat, s: seq<Byte>)
    requires Full(disk) && base + n <= |disk| && |s| == SECTOR && q < |disk| && (q < base || q >= base + n)
    ensures Full(disk[q := s]) && Flat(disk[q := s], base, n) == Flat(disk, base, n)
  {
  }

  /** Where a copy of the FAT starts. */
  function CopyStart(g: Geo, k: nat): nat {
    g.reserved + k * g.fatSize
  }

  /** Where the fixed root directory starts. */
  function RootStart(g: Geo): nat {
    g.reserved + g.copies * g.fatSize
  }

  /** Where a cluster starts. */
  function ClusterSector(g: Geo, c: nat): nat
    requires c >= 2
  {
    g.firstData + (c - 2) * g.spc
  }

  predicate Valid(g: Geo, c: nat) {
    2 <= c < g.count + 2
  }

  function Eoc(k: Kind): nat {
    Range(k) - 1
  }

  predicate IsEoc(k: Kind, v: nat) {
    v >= Range(k) - 8
  }

  /** The end marks of the three kinds of FAT; the one that is written has all bits set. */
  lemma EndMarkValues(v: nat)
    ensures v < 0x1000 ==> (IsEoc(Fat12, v) <==> 0xFF8 <= v) && Eoc(Fat12) == 0xFFF
    ensures v < 0x1_0000 ==> (IsEoc(Fat16, v) <==> 0xFFF8 <= v) && Eoc(Fat16) == 0xFFFF
    ensures v < 0x1000_0000 ==> (IsEoc(Fat32, v) <==> 0xFFF_FFF8 <= v) && Eoc(Fat32) == 0xFFF_FFFF
  {
  }

  /** A mounted volume whose sizes do not wrap is one that the driver can use exactly when it has a cluster, its FAT has
      an entry for every cluster and, on FAT32, the root directory is in one of them and the count is not too large. */
  lemma MountUsable(b: seq<Byte>, f: Fields, rootSectors: nat)
    requires HasFields(b, f) && RootFits(rootSectors, f.rootEntries) && Mount(b).Volume?
    requires f.reserved + f.copies * f.fatSize + rootSectors < 0x1_0000_0000
    ensures var g := Mount(b).g;
      GeoOk(g) <==>
        && g.count > 0 && Offset(g.kind, g.count + 1) + EntryBytes(g.kind) <= 512 * g.fatSize
        && (g.kind == Fat32 ==> Valid(g, g.rootCluster) && g.count <= 0x1000_0000 - 11)
  {
    hide Mount, HasFields, Offset, RootSectorsFor, RootFits;
    MountExactly(b, f, rootSectors);
    RootSectorsHold(f.rootEntries, rootSectors);
  }

  /** A volume whose regions follow one another and whose FAT has an entry for every cluster. */
  ghost predicate GeoOk(g: Geo) {
    && g.reserved > 0 && g.copies > 0 && g.fatSize > 0 && g.spc > 0 && g.count > 0
    && g.firstData == RootStart(g) + RootSectorsFor(g.rootEntries)
    && g.kind == KindOf(g.count) && g.count + 2 <= Range(g.kind) - 9
    && Offset(g.kind, g.count + 1) + EntryBytes(g.kind) <= 512 * g.fatSize
    && (if g.kind == Fat32 then Valid(g, g.rootCluster) else g.rootCluster == 0)
  }

  /** The disk is large enough for the volume. */
  ghost predicate DiskOk(g: Geo, disk: Disk) {
    Full(disk) && g.firstData + g.count * g.spc <= |disk|
  }

  lemma CopiesApart(g: Geo, j: nat, k: nat)
    requires GeoOk(g) && k < g.copies
    ensures g.reserved <= CopyStart(g, k) && CopyStart(g, k) + g.fatSize <= RootStart(g) <= g.firstData
    ensures j < k ==> CopyStart(g, j) + g.fatSize <= CopyStart(g, k)
  {
    hide KindOf, Offset, EntryBytes, Valid, RootSectorsFor, Range;
    Multiple(k + 1, g.copies, g.fatSize);
    Multiple(0, k, g.fatSize);
    if j < k { Multiple(j + 1, k, g.fatSize); }
  }

  lemma ClustersApart(g: Geo, b: nat, c: nat)
    requires GeoOk(g) && Valid(g, c)
    ensures g.firstData <= ClusterSector(g, c) && ClusterSector(g, c) + g.spc <= g.firstData + g.count * g.spc
    ensures 2 <= b < c ==> ClusterSector(g, b) + g.spc <= ClusterSector(g, c)
  {
    hide GeoOk;
    Multiple(c - 1, g.count, g.spc);
    Multiple(0, c - 2, g.spc);
    if 2 <= b < c { Multiple(b - 1, c - 2, g.spc); }
  }

  lemma Multiple(a: nat, b: nat, n: nat)
    requires a <= b
    ensures a * n <= b * n && (a + 1) * n == a * n + n
  {
  }

  /** The entry of a valid cluster lies within the FAT. */
  lemma EntryInside(g: Geo, c: nat)
    requires GeoOk(g) && c < g.count + 2
    ensures Offset(g.kind, c) + EntryBytes(g.kind) <= 512 * g.fatSize
  {
  }

  /** What the sectors of a volume say. */
  datatype Vol = Vol(reserved: seq<seq<Byte>>, fat: seq<nat>, root: seq<seq<Byte>>, data: seq<seq<seq<Byte>>>)

  ghost predicate FullCluster(g: Geo, d: seq<seq<Byte>>) {
    |d| == g.spc && Full(d)
  }

  ghost predicate Shape(g: Geo, m: Vol) {
    && |m.reserved| == g.reserved && Full(m.reserved)
    && |m.fat| == g.count + 2 && (forall c :: 0 <= c < |m.fat| ==> m.fat[c] < Range(g.kind))
    && |m.root| == RootSectorsFor(g.rootEntries) && Full(m.root)
    && |m.data| == g.count + 2 && (forall c :: 2 <= c < |m.data| ==> FullCluster(g, m.data[c]))
  }

  function PutFat(m: Vol, c: nat, v: nat): Vol
    requires c < |m.fat|
  {
    m.(fat := m.fat[c := v])
  }

  function PutReserved(m: Vol, q: nat, s: seq<Byte>): Vol
    requires q < |m.reserved|
  {
    m.(reserved := m.reserved[q := s])
  }

  function PutRoot(m: Vol, i: nat, s: seq<Byte>): Vol
    requires i < |m.root|
  {
    m.(root := m.root[i := s])
  }

  function PutData(m: Vol, c: nat, i: nat, s: seq<Byte>): Vol
    requires c < |m.data| && i < |m.data[c]|
  {
    m.(data := m.data[c := m.data[c][i := s]])
  }

  ghost function EntryAt(g: Geo, table: seq<Byte>, c: nat): nat
    requires GeoOk(g) && |table| == 512 * g.fatSize && c < g.count + 2
  {
    EntryInside(g, c);
    GetEntry(g.kind, table, c)
  }

  ghost function FatOf(g: Geo, table: seq<Byte>): (r: seq<nat>)
    requires GeoOk(g) && |table| == 512 * g.fatSize
    ensures |r| == g.count + 2 && forall c :: 0 <= c < g.count + 2 ==> r[c] == EntryAt(g, table, c) < Range(g.kind)
  {
    seq(g.count + 2,
        (c: nat) requires c < g.count + 2 && GeoOk(g) && |table| == 512 * g.fatSize => EntryAt(g, table, c))
  }

  ghost function ClusterOf(g: Geo, disk: Disk, c: nat): (d: seq<seq<Byte>>)
    requires GeoOk(g) && DiskOk(g, disk) && Valid(g, c)
    ensures FullCluster(g, d)
  {
    ClustersApart(g, 2, c);
    disk[ClusterSector(g, c)..ClusterSector(g, c) + g.spc]
  }

  ghost function DataOf(g: Geo, disk: Disk): (r: seq<seq<seq<Byte>>>)
    requires GeoOk(g) && DiskOk(g, disk)
    ensures |r| == g.count + 2
    ensures forall c :: 2 <= c < g.count + 2 ==> r[c] == ClusterOf(g, disk, c) && FullCluster(g, r[c])
  {
    seq(g.count + 2, (c: nat) requires c < g.count + 2 && GeoOk(g) && DiskOk(g, disk) =>
      if c < 2 then [] else ClusterOf(g, disk, c))
  }

  ghost function Copy(g: Geo, disk: Disk, k: nat): (r: seq<Byte>)
    requires GeoOk(g) && DiskOk(g, disk) && k < g.copies
    ensures |r| == 512 * g.fatSize
  {
    CopiesApart(g, 0, k);
    Flat(disk, CopyStart(g, k), g.fatSize)
  }

  /** All copies of the FAT are the same. */
  ghost predicate CopiesAgree(g: Geo, disk: Disk)
    requires GeoOk(g) && DiskOk(g, disk)
  {
    forall k :: 0 <= k < g.copies ==> Copy(g, disk, k) == Copy(g, disk, 0)
  }

  ghost function ReservedOf(g: Geo, disk: Disk): (r: seq<seq<Byte>>)
    requires GeoOk(g) && DiskOk(g, disk)
    ensures |r| == g.reserved && Full(r)
  {
    CopiesApart(g, 0, 0);
    disk[..g.reserved]
  }

  ghost function RootOf(g: Geo, disk: Disk): (r: seq<seq<Byte>>)
    requires GeoOk(g) && DiskOk(g, disk)
    ensures |r| == RootSectorsFor(g.rootEntries) && Full(r)
  {
    CopiesApart(g, 0, 0);
    disk[RootStart(g)..g.firstData]
  }

  ghost function Abs(g: Geo, disk: Disk): (m: Vol)
    requires GeoOk(g) && DiskOk(g, disk)
    ensures Shape(g, m)
  {
    Vol(ReservedOf(g, disk), FatOf(g, Copy(g, disk, 0)), RootOf(g, disk), DataOf(g, disk))
  }

  /** The sectors between them that a FAT update may change. */
  ghost predicate OnlyFats(g: Geo, disk: Disk, after: Disk) {
    && |after| == |disk|
    && forall i :: 0 <= i < |disk| && (i < g.reserved || i >= RootStart(g)) ==> after[i] == disk[i]
  }

  /** Setting an entry in the table sets one entry of the view. */
  lemma TableUpdate(g: Geo, t: seq<Byte>, c: nat, v: nat)
    requires GeoOk(g) && |t| == 512 * g.fatSize && c < g.count + 2 && v < Range(g.kind)
    requires Offset(g.kind, c) + EntryBytes(g.kind) <= |t|
    ensures FatOf(g, SetEntry(g.kind, t, c, v)) == FatOf(g, t)[c := v]
  {
    hide GeoOk, SetEntry, GetEntry, Offset, EntryBytes, FatOf;
    forall d: nat | d < g.count + 2
      ensures EntryAt(g, SetEntry(g.kind, t, c, v), d) == if d == c then v else EntryAt(g, t, d)
    {
      EntryInside(g, d);
      SetThenGet(g.kind, t, c, v, d);
    }
  }

  /** The clusters depend on the data region only. */
  lemma SameData(g: Geo, disk: Disk, after: Disk)
    requires GeoOk(g) && DiskOk(g, disk) && DiskOk(g, after) && |after| == |disk|
    requires forall i :: g.firstData <= i < |disk| ==> after[i] == disk[i]
    ensures DataOf(g, after) == DataOf(g, disk)
  {
    hide GeoOk, ClusterSector;
    forall d: nat | d < g.count + 2 ensures DataOf(g, after)[d] == DataOf(g, disk)[d] {
      if d >= 2 { ClustersApart(g, 2, d); }
    }
  }

  /** Setting an entry in every copy sets one entry of the view. */
  lemma FatUpdate(g: Geo, disk: Disk, after: Disk, c: nat, v: nat)
    requires GeoOk(g) && DiskOk(g, disk) && DiskOk(g, after) && OnlyFats(g, disk, after) && c < g.count + 2
    requires v < Range(g.kind)
    requires Offset(g.kind, c) + EntryBytes(g.kind) <= 512 * g.fatSize
    requires Copy(g, after, 0) == SetEntry(g.kind, Copy(g, disk, 0), c, v)
    ensures Abs(g, after) == PutFat(Abs(g, disk), c, v)
  {
    hide SetEntry, Offset, EntryBytes, FatOf, Copy, DataOf, ReservedOf, RootOf, DiskOk, CopyStart, RootStart,
         OnlyFats;
    Elsewhere(g, disk, after);
    TableUpdate(g, Copy(g, disk, 0), c, v);
  }

  lemma Elsewhere(g: Geo, disk: Disk, after: Disk)
    requires GeoOk(g) && DiskOk(g, disk) && DiskOk(g, after) && OnlyFats(g, disk, after)
    ensures DataOf(g, after) == DataOf(g, disk) && ReservedOf(g, after) == ReservedOf(g, disk)
    ensures RootOf(g, after) == RootOf(g, disk)
  {
    CopiesApart(g, 0, 0);
    hide DataOf, CopyStart, RootStart, Offset, EntryBytes, Range, RootSectorsFor, Valid, KindOf;
    SameData(g, disk, after);
  }

  /** Writing a sector outside the FATs keeps every copy. */
  lemma CopiesKept(g: Geo, disk: Disk, after: Disk, q: nat, s: seq<Byte>)
    requires GeoOk(g) && DiskOk(g, disk) && |s| == SECTOR && q < |disk| && (q < g.reserved || q >= RootStart(g))
    requires after == disk[q := s]
    ensures DiskOk(g, after) && Copy(g, after, 0) == Copy(g, disk, 0)
    ensures CopiesAgree(g, disk) ==> CopiesAgree(g, after)
  {
    hide CopyStart, RootStart, Flat;
    forall k: nat | k < g.copies ensures Copy(g, after, k) == Copy(g, disk, k) {
      CopiesApart(g, 0, k);
      FlatElsewhere(disk, CopyStart(g, k), g.fatSize, q, s);
    }
  }

  /** Writing a reserved sector. */
  lemma ReservedUpdate(g: Geo, disk: Disk, after: Disk, q: nat, s: seq<Byte>)
    requires GeoOk(g) && DiskOk(g, disk) && |s| == SECTOR && q < g.reserved && q < |disk| && after == disk[q := s]
    ensures DiskOk(g, after) && Abs(g, after) == PutReserved(Abs(g, disk), q, s)
    ensures CopiesAgree(g, disk) ==> CopiesAgree(g, after)
  {
    hide CopyStart, RootStart, Copy, FatOf, DataOf, RootSectorsFor, Offset, EntryBytes, Range, CopiesAgree;
    CopiesApart(g, 0, 0);
    CopiesKept(g, disk, after, q, s);
    SameData(g, disk, after);
  }

  /** Writing a sector of the fixed root directory. */
  lemma RootUpdate(g: Geo, disk: Disk, after: Disk, i: nat, s: seq<Byte>)
    requires GeoOk(g) && DiskOk(g, disk) && |s| == SECTOR && i < RootSectorsFor(g.rootEntries)
    requires RootStart(g) + i < |disk| && after == disk[RootStart(g) + i := s]
    ensures DiskOk(g, after) && Abs(g, after) == PutRoot(Abs(g, disk), i, s)
    ensures CopiesAgree(g, disk) ==> CopiesAgree(g, after)
  {
    hide CopyStart, RootStart, Copy, FatOf, DataOf, RootSectorsFor, Offset, EntryBytes, Range, CopiesAgree;
    CopiesApart(g, 0, 0);
    CopiesKept(g, disk, after, RootStart(g) + i, s);
    SameData(g, disk, after);
  }

  lemma ClusterUpdate(g: Geo, disk: Disk, after: Disk, c: nat, i: nat, s: seq<Byte>, d: nat)
    requires GeoOk(g) && DiskOk(g, disk) && DiskOk(g, after) && Valid(g, c) && i < g.spc && Valid(g, d)
    requires ClusterSector(g, c) + i < |disk| && after == disk[ClusterSector(g, c) + i := s]
    ensures ClusterOf(g, after, d) == if d == c then ClusterOf(g, disk, c)[i := s] else ClusterOf(g, disk, d)
  {
    hide GeoOk, ClusterSector;
    ClustersApart(g, c, d);
    ClustersApart(g, d, c);
  }

  lemma ClustersUpdate(g: Geo, disk: Disk, after: Disk, c: nat, i: nat, s: seq<Byte>)
    requires GeoOk(g) && DiskOk(g, disk) && DiskOk(g, after) && Valid(g, c) && i < g.spc
    requires ClusterSector(g, c) + i < |disk| && after == disk[ClusterSector(g, c) + i := s]
    ensures DataOf(g, after) == DataOf(g, disk)[c := DataOf(g, disk)[c][i := s]]
  {
    hide GeoOk, ClusterSector, ClusterOf, DiskOk;
    forall d: nat | Valid(g, d)
      ensures ClusterOf(g, after, d) == if d == c then ClusterOf(g, disk, c)[i := s] else ClusterOf(g, disk, d)
    {
      ClusterUpdate(g, disk, after, c, i, s, d);
    }
  }

  /** Writing a sector of a cluster. */
  lemma DataUpdate(g: Geo, disk: Disk, after: Disk, c: nat, i: nat, s: seq<Byte>)
    requires GeoOk(g) && DiskOk(g, disk) && |s| == SECTOR && Valid(g, c) && i < g.spc
    requires ClusterSector(g, c) + i < |disk| && after == disk[ClusterSector(g, c) + i := s]
    ensures DiskOk(g, after) && Abs(g, after) == PutData(Abs(g, disk), c, i, s)
    ensures CopiesAgree(g, disk) ==> CopiesAgree(g, after)
  {
    hide CopyStart, RootStart, ClusterSector, ClusterOf, Copy, FatOf, DataOf, RootSectorsFor, Offset, EntryBytes,
         Range, CopiesAgree;
    CopiesApart(g, 0, 0);
    ClustersApart(g, 2, c);
    CopiesKept(g, disk, after, ClusterSector(g, c) + i, s);
    ClustersUpdate(g, disk, after, c, i, s);
  }


  /** Where the parts of a volume are on the disk: the reserved sectors, then the copies of the FAT, the root directory
      of fixed size and, from the first data sector on, the clusters from number 2 on. */
  lemma VolumeSectors(g: Geo, disk: Disk)
    requires GeoOk(g) && DiskOk(g, disk)
    ensures forall i :: 0 <= i < g.reserved ==> i < |disk| && Abs(g, disk).reserved[i] == disk[i]
    ensures forall i :: 0 <= i < |Abs(g, disk).root| ==>
      && g.reserved + g.copies * g.fatSize + i < |disk|
      && Abs(g, disk).root[i] == disk[g.reserved + g.copies * g.fatSize + i]
  {
    hide KindOf, Offset, EntryBytes, RootSectorsFor;
    CopiesApart(g, 0, 0);
    var m := Abs(g, disk);
    forall i | 0 <= i < |m.root| ensures RootStart(g) + i < |disk| && m.root[i] == disk[RootStart(g) + i] {
    }
  }

  lemma ClusterSectors(g: Geo, disk: Disk, c: nat, i: nat)
    requires GeoOk(g) && DiskOk(g, disk) && 2 <= c < g.count + 2 && i < g.spc
    ensures g.firstData + (c - 2) * g.spc + i < |disk|
    ensures Abs(g, disk).data[c][i] == disk[g.firstData + (c - 2) * g.spc + i]
  {
    hide GeoOk;
    ClustersApart(g, 2, c);
  }

  /** Byte i of copy k of the FAT. */
  lemma CopySectors(g: Geo, disk: Disk, k: nat, i: nat)
    requires GeoOk(g) && DiskOk(g, disk) && k < g.copies && i < 512 * g.fatSize
    ensures g.reserved + k * g.fatSize + i / 512 < |disk|
    ensures Copy(g, disk, k)[i] == disk[g.reserved + k * g.fatSize + i / 512][i % 512]
  {
    hide GeoOk;
    CopiesApart(g, 0, k);
  }
}
