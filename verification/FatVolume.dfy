/** The FAT driver's access to single FAT entries, the free-space sectors and sectors of clusters. */
module FatVolume {
  import opened Bytes
  import opened Geometry
  import opened FatCodec
  import opened FatDisk

  /** Entry bytes that fall in one sector are those of the sector. */
  lemma WithinSector(disk: Disk, base: nat, n: nat, off: nat, w: nat)
    requires Full(disk) && base + n <= |disk| && off + w <= 512 * n && off % 512 + w <= 512 && 2 <= w <= 4
    ensures base + off / 512 < |disk|
    ensures Le16(Flat(disk, base, n), off) == Le16(disk[base + off / 512], off % 512)
    ensures w == 4 ==> Le32(Flat(disk, base, n), off) == Le32(disk[base + off / 512], off % 512)
  {
    hide Flat;
    SectorByte(disk, base, n, off, 0);
    SectorByte(disk, base, n, off, 1);
    if w == 4 {
      SectorByte(disk, base, n, off, 2);
      SectorByte(disk, base, n, off, 3);
    }
  }

  lemma SectorByte(disk: Disk, base: nat, n: nat, off: nat, j: nat)
    requires Full(disk) && base + n <= |disk| && off + j < 512 * n && off % 512 + j < 512
    ensures Flat(disk, base, n)[off + j] == disk[base + off / 512][off % 512 + j]
  {
    assert (off + j) / 512 == off / 512 && (off + j) % 512 == off % 512 + j;
  }

  /** A FAT12 entry that straddles two sectors. */
  lemma AcrossSectors(disk: Disk, base: nat, n: nat, off: nat)
    requires Full(disk) && base + n <= |disk| && off + 2 <= 512 * n && off % 512 == 511
    ensures base + off / 512 + 1 < base + n
    ensures Le16(Flat(disk, base, n), off) ==
      disk[base + off / 512][511] as int + 256 * (disk[base + off / 512 + 1][0] as int)
  {
    assert (off + 1) / 512 == off / 512 + 1 && (off + 1) % 512 == 0;
  }

  /** Writing within one copy keeps the others and everything but the FATs. */
  lemma OtherCopiesKept(g: Geo, disk: Disk, after: Disk, k: nat)
    requires GeoOk(g) && DiskOk(g, disk) && Full(after) && |after| == |disk| && k < g.copies
    requires forall i :: 0 <= i < |disk| && (i < CopyStart(g, k) || i >= CopyStart(g, k) + g.fatSize) ==>
      after[i] == disk[i]
    ensures DiskOk(g, after) && OnlyFats(g, disk, after)
    ensures forall j :: 0 <= j < g.copies && j != k ==> Copy(g, after, j) == Copy(g, disk, j)
  {
    hide GeoOk, CopyStart, RootStart, Flat;
    CopiesApart(g, 0, k);
    forall j: nat | j < g.copies && j != k ensures Copy(g, after, j) == Copy(g, disk, j) {
      CopiesApart(g, j, k);
      CopiesApart(g, k, j);
      SameRun(disk, after, CopyStart(g, j), g.fatSize);
    }
  }

  lemma SameRun(disk: Disk, after: Disk, base: nat, n: nat)
    requires Full(disk) && Full(after) && base + n <= |disk| && base + n <= |after|
    requires forall i :: base <= i < base + n ==> after[i] == disk[i]
    ensures Flat(after, base, n) == Flat(disk, base, n)
  {
  }

  lemma FatAt(g: Geo, disk: Disk, c: nat)
    requires GeoOk(g) && DiskOk(g, disk) && c < g.count + 2
    ensures Full(disk) && g.reserved + g.fatSize <= |disk| && Offset(g.kind, c) + EntryBytes(g.kind) <= 512 * g.fatSize
    ensures |Abs(g, disk).fat| == g.count + 2
    ensures Abs(g, disk).fat[c] == GetEntry(g.kind, Flat(disk, g.reserved, g.fatSize), c)
  {
    hide GetEntry, RootStart, KindOf, Range, DataOf, ReservedOf, RootOf, Flat;
    CopiesApart(g, 0, 0);
    ClustersApart(g, 2, 2);
    EntryInside(g, c);
  }

  lemma RootAt(g: Geo, disk: Disk, i: nat)
    requires GeoOk(g) && DiskOk(g, disk) && i < RootSectorsFor(g.rootEntries)
    ensures RootStart(g) + i < |disk| && |Abs(g, disk).root| == RootSectorsFor(g.rootEntries)
    ensures Abs(g, disk).root[i] == disk[RootStart(g) + i] && |disk[RootStart(g) + i]| == SECTOR
  {
    hide RootStart, KindOf, Offset, EntryBytes, Range, FatOf, DataOf, ReservedOf, Copy;
    ClustersApart(g, 2, 2);
  }

  class Volume {
    const g: Geo
    var disk: Disk
    var current: nat

    ghost predicate Ok()
      reads this
    {
      GeoOk(g) && DiskOk(g, disk) && CopiesAgree(g, disk)
    }

    ghost function View(): (m: Vol)
      requires Ok()
      reads this
      ensures Shape(g, m) && g.spc > 0 && g.count + 2 <= Range(g.kind) - 9
    {
      Abs(g, disk)
    }

    /** Mounts the volume that the boot sector describes, in its root directory. */
    constructor (disk: Disk)
      requires |disk| > 0 && |disk[0]| == SECTOR && Mount(disk[0]).Volume?
      ensures this.disk == disk && g == Mount(disk[0]).g && current == (if g.kind == Fat32 then g.rootCluster else 0)
    {
      g := Mount(disk[0]).g;
      this.disk := disk;
      current := if Mount(disk[0]).g.kind == Fat32 then Mount(disk[0]).g.rootCluster else 0;
    }

    /** The entry at an offset of the FAT copy that starts at a sector. */
    method ReadEntry(base: nat, c: nat) returns (v: nat)
      requires Full(disk) && base + g.fatSize <= |disk| && Offset(g.kind, c) + EntryBytes(g.kind) <= 512 * g.fatSize
      ensures v == GetEntry(g.kind, Flat(disk, base, g.fatSize), c)
    {
      hide Flat, Le16, Le32;
      var offset := Offset(g.kind, c);
      var sector, pos := base + offset / 512, offset % 512;
      var sec := disk[sector];
      if g.kind == Fat12 {
        var w;
        if pos == 511 {
          AcrossSectors(disk, base, g.fatSize, offset);
          w := sec[pos] as int + 256 * (disk[sector + 1][0] as int);
        } else {
          WithinSector(disk, base, g.fatSize, offset, 2);
          w := Le16(sec, pos);
        }
        v := if c % 2 == 1 then w / 16 else w % 4096;
      } else if g.kind == Fat16 {
        WithinSector(disk, base, g.fatSize, offset, 2);
        v := Le16(sec, pos);
      } else {
        WithinSector(disk, base, g.fatSize, offset, 4);
        v := Le32(sec, pos) % 0x1000_0000;
      }
    }

    /** The driver reads entries from the first copy. */
    method FatGet(c: nat) returns (v: nat)
      requires Ok() && c < g.count + 2
      ensures v == View().fat[c]
    {
      hide CopiesAgree, GeoOk, DiskOk, Abs, GetEntry, Flat, Offset, EntryBytes;
      FatAt(g, disk, c);
      v := ReadEntry(g.reserved, c);
    }

    /** Sets an entry of one copy, by reading and writing back the one or two sectors that hold it. */
    method FatSetCopy(base: nat, c: nat, value: nat)
      requires Full(disk) && base + g.fatSize <= |disk| && Offset(g.kind, c) + EntryBytes(g.kind) <= 512 * g.fatSize
      modifies this`disk
      ensures Full(disk) && |disk| == old(|disk|)
      ensures forall i :: 0 <= i < |disk| && (i < base || i >= base + g.fatSize) ==> disk[i] == old(disk[i])
      ensures Flat(disk, base, g.fatSize) == SetEntry(g.kind, old(Flat(disk, base, g.fatSize)), c, value)
    {
      var offset := Offset(g.kind, c);
      var sector, pos := base + offset / 512, offset % 512;
      var sec := disk[sector];
      if g.kind == Fat12 && pos == 511 {
        SetAcross(base, c, value);
      } else if g.kind == Fat12 {
        WithinSector(disk, base, g.fatSize, offset, 2);
        var w := Merge12(Le16(sec, pos), c % 2 == 1, value);
        SetWithin(base, offset, Bytes16(w));
      } else if g.kind == Fat16 {
        SetWithin(base, offset, Bytes16(value));
      } else {
        WithinSector(disk, base, g.fatSize, offset, 4);
        var w := Merge32(Le32(sec, pos), value);
        SetWithin(base, offset, Bytes32(w));
      }
    }

    /** Writes bytes within one sector of a run. */
    method SetWithin(base: nat, offset: nat, t: seq<Byte>)
      requires Full(disk) && base + g.fatSize <= |disk| && offset + |t| <= 512 * g.fatSize
      requires offset % 512 + |t| <= 512 && |t| > 0
      modifies this`disk
      ensures Full(disk) && |disk| == old(|disk|)
      ensures forall i :: 0 <= i < |disk| && (i < base || i >= base + g.fatSize) ==> disk[i] == old(disk[i])
      ensures Flat(disk, base, g.fatSize) == Splice(old(Flat(disk, base, g.fatSize)), offset, t)
    {
      hide Flat, Splice;
      FlatPatch(disk, base, g.fatSize, offset, t);
      var sector := base + offset / 512;
      disk := disk[sector := Splice(disk[sector], offset % 512, t)];
    }

    /** Sets a FAT12 entry that straddles two sectors, the second sector first. */
    method SetAcross(base: nat, c: nat, value: nat)
      requires Full(disk) && base + g.fatSize <= |disk| && g.kind == Fat12
      requires Offset(Fat12, c) + 2 <= 512 * g.fatSize && Offset(Fat12, c) % 512 == 511
      modifies this`disk
      ensures Full(disk) && |disk| == old(|disk|)
      ensures forall i :: 0 <= i < |disk| && (i < base || i >= base + g.fatSize) ==> disk[i] == old(disk[i])
      ensures Flat(disk, base, g.fatSize) == SetEntry(Fat12, old(Flat(disk, base, g.fatSize)), c, value)
    {
      hide Flat, Splice, SetEntry, Merge12, Le16, Bytes16, Offset;
      var offset := Offset(Fat12, c);
      var sector := base + offset / 512;
      AcrossSectors(disk, base, g.fatSize, offset);
      SetEntry12Is(Flat(disk, base, g.fatSize), c, value);
      var was := disk[sector][511] as int + 256 * (disk[sector + 1][0] as int);
      var t := Bytes16(Merge12(was, c % 2 == 1, value));
      ghost var f := Flat(disk, base, g.fatSize);
      SetWithin(base, offset + 1, [t[1]]);
      SetWithin(base, offset, [t[0]]);
      SpliceTwo(f, offset, t);
    }

    /** Sets an entry in every copy. */
    method FatSet(c: nat, value: nat)
      requires Ok() && c < g.count + 2 && value < Range(g.kind)
      modifies this`disk
      ensures Ok() && View() == PutFat(old(View()), c, value)
    {
      hide GetEntry, SetEntry, Offset, EntryBytes, RootStart, CopyStart, Flat;
      EntryInside(g, c);
      ghost var was, t := disk, Copy(g, disk, 0);
      var i := 0;
      while i < g.copies
        invariant 0 <= i <= g.copies && DiskOk(g, disk) && OnlyFats(g, was, disk)
        invariant forall k :: 0 <= k < i ==> Copy(g, disk, k) == SetEntry(g.kind, t, c, value)
        invariant forall k :: i <= k < g.copies ==> Copy(g, disk, k) == t
      {
        SetCopy(i, c, value);
        i := i + 1;
      }
      FatUpdate(g, was, disk, c, value);
    }

    method ReadReserved(q: nat) returns (s: seq<Byte>)
      requires Ok() && q < g.reserved
      ensures s == View().reserved[q] && |s| == SECTOR
    {
      hide RootStart, CopiesAgree, FatOf, DataOf, Copy, RootOf, Offset, EntryBytes, Range, KindOf, Valid,
           RootSectorsFor;
      CopiesApart(g, 0, 0);
      s := disk[q];
    }

    method WriteReserved(q: nat, s: seq<Byte>)
      requires Ok() && q < g.reserved && |s| == SECTOR
      modifies this`disk
      ensures Ok() && View() == PutReserved(old(View()), q, s)
    {
      hide RootStart, CopiesAgree, Offset, EntryBytes, Range, Abs, KindOf, Valid, RootSectorsFor;
      CopiesApart(g, 0, 0);
      ReservedUpdate(g, disk, disk[q := s], q, s);
      disk := disk[q := s];
    }

    method ReadRoot(i: nat) returns (s: seq<Byte>)
      requires Ok() && i < RootSectorsFor(g.rootEntries)
      ensures s == View().root[i] && |s| == SECTOR
    {
      hide RootStart, CopiesAgree, GeoOk, DiskOk, Abs;
      RootAt(g, disk, i);
      s := disk[RootStart(g) + i];
    }

    method WriteRoot(i: nat, s: seq<Byte>)
      requires Ok() && i < RootSectorsFor(g.rootEntries) && |s| == SECTOR
      modifies this`disk
      ensures Ok() && View() == PutRoot(old(View()), i, s)
    {
      hide RootStart, CopiesAgree, FatOf, DataOf, Offset, EntryBytes, Range, Abs;
      CopiesApart(g, 0, 0);
      RootUpdate(g, disk, disk[RootStart(g) + i := s], i, s);
      disk := disk[RootStart(g) + i := s];
    }

    method ReadData(c: nat, i: nat) returns (s: seq<Byte>)
      requires Ok() && Valid(g, c) && i < g.spc
      ensures s == View().data[c][i] && |s| == SECTOR
    {
      hide RootStart, CopiesAgree, FatOf, Offset, EntryBytes, Range, ClusterSector;
      ClustersApart(g, 2, c);
      s := disk[ClusterSector(g, c) + i];
    }

    method WriteData(c: nat, i: nat, s: seq<Byte>)
      requires Ok() && Valid(g, c) && i < g.spc && |s| == SECTOR
      modifies this`disk
      ensures Ok() && View() == PutData(old(View()), c, i, s)
    {
      hide RootStart, CopiesAgree, FatOf, DataOf, Offset, EntryBytes, Range, Abs, ClusterSector;
      ClustersApart(g, 2, c);
      DataUpdate(g, disk, disk[ClusterSector(g, c) + i := s], c, i, s);
      disk := disk[ClusterSector(g, c) + i := s];
    }

    /** Sets an entry in one copy and leaves the others alone. */
    method SetCopy(k: nat, c: nat, value: nat)
      requires GeoOk(g) && DiskOk(g, disk) && k < g.copies && Offset(g.kind, c) + EntryBytes(g.kind) <= 512 * g.fatSize
      modifies this`disk
      ensures DiskOk(g, disk) && OnlyFats(g, old(disk), disk)
      ensures Copy(g, disk, k) == SetEntry(g.kind, old(Copy(g, disk, k)), c, value)
      ensures forall j :: 0 <= j < g.copies && j != k ==> Copy(g, disk, j) == old(Copy(g, disk, j))
    {
      hide GetEntry, SetEntry, Offset, EntryBytes, RootStart, CopyStart, Flat, OnlyFats, RootSectorsFor, Range,
           KindOf, Valid;
      ghost var was := disk;
      CopiesApart(g, 0, k);
      FatSetCopy(CopyStart(g, k), c, value);
      OtherCopiesKept(g, was, disk, k);
    }
  }

  /** Two single bytes written are two bytes written. */
  lemma SpliceTwo(s: seq<Byte>, i: nat, t: seq<Byte>)
    requires |t| == 2 && i + 2 <= |s|
    ensures Splice(Splice(s, i + 1, [t[1]]), i, [t[0]]) == Splice(s, i, t)
  {
  }
}
