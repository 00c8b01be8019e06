/** What the FAT driver learns about a volume from its boot sector. */
module Geometry {
  import opened Bytes

  datatype Kind = Fat12 | Fat16 | Fat32

  datatype Geo = Geo(kind: Kind, reserved: nat, copies: nat, fatSize: nat, rootEntries: nat, firstData: nat,
                     spc: nat, count: nat, rootCluster: nat, info: nat, backup: nat)

  datatype Mounted = NotMounted | Volume(g: Geo)

  function RootSectorsFor(entries: nat): nat {
    (entries * 32 + 511) / 512
  }

  /** The kind of FAT is a matter of the cluster count alone. */
  function KindOf(count: nat): Kind {
    if count < 4085 then Fat12 else if count < 65525 then Fat16 else Fat32
  }

  function TotalSectors(boot: seq<Byte>): nat
    requires |boot| == SECTOR
  {
    if Le16(boot, 19) != 0 then Le16(boot, 19) else Le32(boot, 32)
  }

  function FatSize(boot: seq<Byte>): nat
    requires |boot| == SECTOR
  {
    if Le16(boot, 22) != 0 then Le16(boot, 22) else Le32(boot, 36)
  }

  /** The first data sector, as a 32-bit sum. */
  function FirstData(boot: seq<Byte>): nat
    requires |boot| == SECTOR
  {
    (Le16(boot, 14) + boot[16] * FatSize(boot) + RootSectorsFor(Le16(boot, 17))) % 0x1_0000_0000
  }

  /** Reads the volume's shape out of its boot sector. */
  function Mount(boot: seq<Byte>): Mounted
    requires |boot| == SECTOR
  {
    if boot[510] != 0x55 || boot[511] != 0xAA then NotMounted
    else if Le16(boot, 11) != 512 || boot[13] == 0 || boot[16] == 0 || Le16(boot, 14) == 0 then NotMounted
    else if FatSize(boot) == 0 || TotalSectors(boot) <= FirstData(boot) then NotMounted
    else
      var count := (TotalSectors(boot) - FirstData(boot)) / boot[13];
      var kind := KindOf(count);
      var root := if kind == Fat32 then Le32(boot, 44) % 0x1000_0000 else 0;
      if kind == Fat32 && root < 2 then NotMounted
      else
        Volume(Geo(kind, Le16(boot, 14), boot[16], FatSize(boot), Le16(boot, 17), FirstData(boot), boot[13], count,
                   root, if kind == Fat32 then Le16(boot, 48) else 0, if kind == Fat32 then Le16(boot, 50) else 0))
  }

  // ----- what a mount makes of any boot sector -----

  /** The fields of a boot sector. */
  datatype Fields = Fields(bytes: nat, spc: nat, reserved: nat, copies: nat, rootEntries: nat, total: nat, fatSize: nat,
                           rootCluster: nat, info: nat, backup: nat)

  /** The two, or four, bytes at a place hold a value, the lowest byte first. */
  predicate Has16(b: seq<Byte>, i: nat, v: nat) {
    i + 2 <= |b| && b[i] == v % 0x100 && b[i + 1] == v / 0x100 && v < 0x1_0000
  }

  predicate Has32(b: seq<Byte>, i: nat, v: nat) {
    Has16(b, i, v % 0x1_0000) && Has16(b, i + 2, v / 0x1_0000)
  }

  /** A count in a field of two bytes or, if that is zero, in one of four. */
  predicate HasEither(b: seq<Byte>, short: nat, long: nat, v: nat) {
    (Has16(b, short, v) && v != 0) || (Has16(b, short, 0) && Has32(b, long, v))
  }

  /** A boot sector with these fields, as the FAT specification places them. */
  predicate HasFields(b: seq<Byte>, f: Fields) {
    && |b| == SECTOR
    && Has16(b, 11, f.bytes) && b[13] == f.spc && Has16(b, 14, f.reserved) && b[16] == f.copies
    && Has16(b, 17, f.rootEntries) && HasEither(b, 19, 32, f.total) && HasEither(b, 22, 36, f.fatSize)
    && Has32(b, 44, f.rootCluster) && Has16(b, 48, f.info) && Has16(b, 50, f.backup)
  }

  /** Every sector has fields. */
  lemma SomeFields(b: seq<Byte>) returns (f: Fields)
    requires |b| == SECTOR
    ensures HasFields(b, f)
  {
    f := Fields(Le16(b, 11), b[13], Le16(b, 14), b[16], Le16(b, 17), TotalSectors(b), FatSize(b), Le32(b, 44),
                Le16(b, 48), Le16(b, 50));
    forall i: nat | i + 2 <= |b| ensures Has16(b, i, Le16(b, i)) { In16(b, i); }
    forall i: nat | i + 4 <= |b| ensures Has32(b, i, Le32(b, i)) { In32(b, i); }
    hide Le16, Le32, Has16, Has32;
  }

  lemma In16(b: seq<Byte>, i: nat)
    requires i + 2 <= |b|
    ensures Has16(b, i, Le16(b, i))
  {
    Digits(b[i] as nat, b[i + 1] as nat, 0x100);
  }

  lemma In32(b: seq<Byte>, i: nat)
    requires i + 4 <= |b|
    ensures Has32(b, i, Le32(b, i))
  {
    hide Le16, Has16;
    Digits(Le16(b, i), Le16(b, i + 2), 0x1_0000);
    In16(b, i);
    In16(b, i + 2);
  }

  lemma Digits(low: nat, high: nat, n: nat)
    requires low < n
    ensures (low + n * high) % n == low && (low + n * high) / n == high
  {
    var q, r := (low + n * high) / n, (low + n * high) % n;
    assert low + n * high == n * q + r;
    if q < high { Product(q + 1, high, n); }
    if high < q { Product(high + 1, q, n); }
  }

  /** The sectors that a root directory of fixed size takes: as few as hold its entries of 32 bytes. */
  predicate RootFits(sectors: nat, entries: nat) {
    32 * entries <= 512 * sectors < 32 * entries + 512
  }

  lemma Field16(b: seq<Byte>, i: nat, v: nat)
    requires Has16(b, i, v)
    ensures i + 2 <= |b| && Le16(b, i) == v
  {
  }

  lemma Field32(b: seq<Byte>, i: nat, v: nat)
    requires Has32(b, i, v)
    ensures i + 4 <= |b| && Le32(b, i) == v
  {
    hide Has16, Le16;
    Field16(b, i, v % 0x1_0000);
    Field16(b, i + 2, v / 0x1_0000);
  }

  lemma FieldEither(b: seq<Byte>, short: nat, long: nat, v: nat)
    requires HasEither(b, short, long, v) && long + 4 <= |b|
    ensures v == if Le16(b, short) != 0 then Le16(b, short) else Le32(b, long)
  {
    hide Le16, Le32, Has16, Has32;
    if Has16(b, short, v) && v != 0 {
      Field16(b, short, v);
    } else {
      Field16(b, short, 0);
      Field32(b, long, v);
    }
  }

  lemma RootSectorsHold(entries: nat, sectors: nat)
    requires RootFits(sectors, entries)
    ensures RootSectorsFor(entries) == sectors
  {
  }

  lemma Quotients(a: nat, d: nat)
    requires d > 0
    ensures a / d * d <= a < (a / d + 1) * d
    ensures forall n: nat :: n * d <= a ==> n <= a / d
  {
    forall n: nat | n * d <= a ensures n <= a / d {
      if n > a / d { Product(a / d + 1, n, d); }
    }
  }

  lemma Product(a: nat, b: nat, d: nat)
    requires a <= b
    ensures a * d <= b * d && d * a <= d * b
  {
  }

  /** The fields with which a volume is mounted: sectors of 512 bytes, no zero where there must be something, room for
      data, and on FAT32 a root directory. The first data sector is a 32-bit sum. */
  predicate Mountable(f: Fields, first: nat) {
    && f.bytes == 512 && f.spc > 0 && f.copies > 0 && f.reserved > 0 && f.fatSize > 0 && first < f.total
    && (65525 * f.spc <= f.total - first ==> f.rootCluster % 0x1000_0000 >= 2)
  }

  /** The shape of the volume with these fields: as many clusters as fit behind the first data sector, and the kind of
      FAT by their number. */
  predicate ShapeOf(g: Geo, f: Fields, first: nat) {
    && g.reserved == f.reserved && g.copies == f.copies && g.fatSize == f.fatSize && g.rootEntries == f.rootEntries
    && g.spc == f.spc && g.firstData == first
    && g.count * g.spc <= f.total - first < (g.count + 1) * g.spc
    && (g.kind == Fat12 <==> g.count < 4085) && (g.kind == Fat32 <==> g.count >= 65525)
    && g.rootCluster == (if g.kind == Fat32 then f.rootCluster % 0x1000_0000 else 0)
    && g.info == (if g.kind == Fat32 then f.info else 0) && g.backup == (if g.kind == Fat32 then f.backup else 0)
  }

  /** For every boot sector: it is mounted exactly with the signature and mountable fields, and then with the shape
      that its fields describe. */
  lemma MountExactly(b: seq<Byte>, f: Fields, rootSectors: nat)
    requires HasFields(b, f) && RootFits(rootSectors, f.rootEntries)
    ensures var first := (f.reserved + f.copies * f.fatSize + rootSectors) % 0x1_0000_0000;
      && (Mount(b).Volume? <==> b[510] == 0x55 && b[511] == 0xAA && Mountable(f, first))
      && (Mount(b).Volume? ==> ShapeOf(Mount(b).g, f, first))
  {
    hide Le16, Le32, Has16, Has32, HasEither, RootSectorsFor, RootFits;
    RootSectorsHold(f.rootEntries, rootSectors);
    Field16(b, 11, f.bytes);
    Field16(b, 14, f.reserved);
    Field16(b, 17, f.rootEntries);
    FieldEither(b, 19, 32, f.total);
    FieldEither(b, 22, 36, f.fatSize);
    Field32(b, 44, f.rootCluster);
    Field16(b, 48, f.info);
    Field16(b, 50, f.backup);
    var first := FirstData(b);
    assert first == (f.reserved + f.copies * f.fatSize + rootSectors) % 0x1_0000_0000;
    if f.spc > 0 && first < f.total {
      Quotients(f.total - first, f.spc);
      var count := (f.total - first) / f.spc;
      if count >= 65525 { Product(65525, count, f.spc); }
    }
  }
}
