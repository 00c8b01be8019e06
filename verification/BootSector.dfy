/** The boot sector the installer writes, read back by the FAT driver's mount. */
module BootSector {
  import opened Bytes
  import opened Geometry
  import opened Layout

  function Put16(s: seq<Byte>, i: nat, v: nat): (r: seq<Byte>)
    requires i + 2 <= |s|
    ensures |r| == |s| && Le16(r, i) == v % 0x1_0000
    ensures forall j :: 0 <= j < |s| && (j < i || j >= i + 2) ==> r[j] == s[j]
  {
    s[i := v % 256][i + 1 := v / 256 % 256]
  }

  function Put32(s: seq<Byte>, i: nat, v: nat): (r: seq<Byte>)
    requires i + 4 <= |s|
    ensures |r| == |s| && Le32(r, i) == v % 0x1_0000_0000
    ensures forall j :: 0 <= j < |s| && (j < i || j >= i + 4) ==> r[j] == s[j]
  {
    Put16(Put16(s, i, v), i + 2, v / 65536)
  }

  const OEM: seq<Byte> := [65, 79, 79, 83, 50, 46, 48, 32]
  const LABEL: seq<Byte> := [65, 79, 32, 79, 83, 32, 32, 32, 32, 32, 32]

  /** The file-system name field, "FAT12   ", "FAT16   " or "FAT32   ". */
  function TypeName(k: Kind): (r: seq<Byte>)
    ensures |r| == 8
  {
    [70, 65, 84, if k == Fat32 then 51 else 49, if k == Fat16 then 54 else 50, 32, 32, 32]
  }

  /** What is written besides the fields that a mount reads: the jump over the parameter block, the name of the system,
      the media byte, the disk geometry, and the extended block with its label. */
  ghost predicate Trimmings(b: seq<Byte>, k: Kind) {
    && |b| == SECTOR && b[..3] == [0xEB, 0x58, 0x90] && b[3..11] == OEM && b[21] == 0xF8
    && Le16(b, 24) == 63 && Le16(b, 26) == 255 && Le32(b, 28) == 0
    && Extended(b, k)
  }

  ghost predicate Extended(b: seq<Byte>, k: Kind)
    requires |b| == SECTOR
  {
    if k == Fat32 then
      && Le16(b, 40) == 0 && Le16(b, 42) == 0 && b[52..64] == Zeros(12) && b[64] == 0x80 && b[66] == 0x29
      && Le32(b, 67) == 0xA0200032 && b[71..82] == LABEL && b[82..90] == TypeName(k)
    else
      && b[36] == 0x80 && b[38] == 0x29 && Le32(b, 39) == (if k == Fat16 then 0xA0200016 else 0xA0200012)
      && b[43..54] == LABEL && b[54..62] == TypeName(k)
  }

  /** The bytes that the parameter block takes; the others up to the signature are code. */
  predicate Written(k: Kind, j: nat) {
    if k == Fat32 then j < 90 && j != 65 else j < 62 && j != 37
  }

  /** Little-endian fields set by the parameter block. */
  ghost predicate Common(b: seq<Byte>, k: Kind, volume: nat, fat: nat) {
    && |b| == SECTOR && Le16(b, 11) == 512 && b[13] == SectorsPerCluster(k) && Le16(b, 14) == RESERVED && b[16] == 2
    && Le16(b, 17) == RootEntries(k) && Le16(b, 19) == (if volume < 65536 then volume else 0)
    && Le16(b, 22) == (if k == Fat32 then 0 else fat % 65536) && Le32(b, 32) == (if volume >= 65536 then volume else 0)
  }

  /** The parameter block common to all kinds, over whatever code the sector held. */
  method PutCommon(k: Kind, volume: nat, fat: nat, code: seq<Byte>) returns (b: seq<Byte>)
    requires |code| == SECTOR && volume <= LBA28
    ensures Common(b, k, volume, fat)
    ensures b[..3] == [0xEB, 0x58, 0x90] && b[3..11] == OEM && b[21] == 0xF8
    ensures Le16(b, 24) == 63 && Le16(b, 26) == 255 && Le32(b, 28) == 0
    ensures forall j :: 36 <= j < SECTOR ==> b[j] == code[j]
  {
    b := code[0 := 0xEB][1 := 0x58][2 := 0x90];
    b := Splice(b, 3, OEM);
    assert b[36..] == code[36..];
    ghost var start := b[..11];
    assert start == [0xEB, 0x58, 0x90] + OEM;
    b := PutGeometry(k, b);
    assert b[..11] == start;
    b := PutSizes(k, volume, fat, b);
    assert b[..11] == start && b[..3] == start[..3] && b[3..11] == start[3..];
  }

  method PutGeometry(k: Kind, code: seq<Byte>) returns (b: seq<Byte>)
    requires |code| == SECTOR
    ensures |b| == SECTOR && Le16(b, 11) == 512 && b[13] == SectorsPerCluster(k) && Le16(b, 14) == RESERVED
    ensures b[16] == 2
    ensures Le16(b, 17) == RootEntries(k)
    ensures forall j :: 0 <= j < 11 || 19 <= j < SECTOR ==> b[j] == code[j]
  {
    b := Put16(code, 11, 512)[13 := SectorsPerCluster(k)];
    b := Put16(b, 14, RESERVED)[16 := 2];
    b := Put16(b, 17, RootEntries(k));
  }

  method PutSizes(k: Kind, volume: nat, fat: nat, code: seq<Byte>) returns (b: seq<Byte>)
    requires |code| == SECTOR && volume <= LBA28
    ensures |b| == SECTOR && Le16(b, 19) == (if volume < 65536 then volume else 0)
    ensures Le16(b, 22) == (if k == Fat32 then 0 else fat % 65536)
    ensures Le32(b, 32) == (if volume >= 65536 then volume else 0)
    ensures b[21] == 0xF8 && Le16(b, 24) == 63 && Le16(b, 26) == 255 && Le32(b, 28) == 0
    ensures forall j :: 0 <= j < 19 || 36 <= j < SECTOR ==> b[j] == code[j]
  {
    hide Put16, Put32;
    b := Put16(code, 19, if volume < 65536 then volume else 0)[21 := 0xF8];
    b := Put16(b, 22, if k == Fat32 then 0 else fat);
    ghost var c := b;
    b := Put16(b, 24, 63);
    b := Put16(b, 26, 255);
    b := Put32(b, 28, 0);
    b := Put32(b, 32, if volume >= 65536 then volume else 0);
    assert forall j :: 0 <= j < 24 ==> b[j] == c[j];
  }

  method PutExtended32(fat: nat, code: seq<Byte>) returns (b: seq<Byte>)
    requires |code| == SECTOR && fat < 0x1_0000_0000
    ensures |b| == SECTOR && Le32(b, 36) == fat && Le32(b, 44) == 2 && Le16(b, 48) == 256 && Le16(b, 50) == 257
    ensures Extended(b, Fat32)
    ensures forall j :: 0 <= j < 36 || j == 65 || 90 <= j < SECTOR ==> b[j] == code[j]
  {
    b := PutPointers32(fat, code);
    b := PutLabels32(b);
  }

  method PutPointers32(fat: nat, code: seq<Byte>) returns (b: seq<Byte>)
    requires |code| == SECTOR && fat < 0x1_0000_0000
    ensures |b| == SECTOR && Le32(b, 36) == fat && Le32(b, 44) == 2 && Le16(b, 48) == 256 && Le16(b, 50) == 257
    ensures Le16(b, 40) == 0 && Le16(b, 42) == 0
    ensures forall j :: 0 <= j < 36 || 52 <= j < SECTOR ==> b[j] == code[j]
  {
    hide Put16, Put32;
    b := Put32(code, 36, fat);
    b := Put16(b, 40, 0);
    b := Put16(b, 42, 0);
    b := Put32(b, 44, 2);
    b := Put16(b, 48, 256);
    b := Put16(b, 50, 257);
  }

  method PutLabels32(code: seq<Byte>) returns (b: seq<Byte>)
    requires |code| == SECTOR
    ensures |b| == SECTOR && forall j :: 0 <= j < 52 || j == 65 || 90 <= j < SECTOR ==> b[j] == code[j]
    ensures b[52..64] == Zeros(12) && b[64] == 0x80 && b[66] == 0x29
    ensures Le32(b, 67) == 0xA0200032 && b[71..82] == LABEL && b[82..90] == TypeName(Fat32)
  {
    hide Put32, Splice, Le32;
    b := Splice(code, 52, Zeros(12))[64 := 0x80][66 := 0x29];
    SpliceAt(code, 52, Zeros(12));
    assert b[52..64] == Zeros(12);
    ghost var c := b;
    b := Put32(b, 67, 0xA0200032);
    ghost var d := b;
    b := Splice(Splice(b, 71, LABEL), 82, TypeName(Fat32));
    Labelled(d, 71, TypeName(Fat32));
    assert b[52..64] == c[52..64];
  }

  /** A label and a file-system name written behind a serial number. */
  lemma Labelled(code: seq<Byte>, i: nat, name: seq<Byte>)
    requires |code| == SECTOR && 4 <= i <= 400 && |name| == 8
    ensures var b := Splice(Splice(code, i, LABEL), i + 11, name);
      && |b| == SECTOR && b[i..i + 11] == LABEL && b[i + 11..i + 19] == name && Le32(b, i - 4) == Le32(code, i - 4)
      && forall j :: 0 <= j < i || i + 19 <= j < SECTOR ==> b[j] == code[j]
  {
    hide Splice;
    var c := Splice(code, i, LABEL);
    var b := Splice(c, i + 11, name);
    SpliceAt(code, i, LABEL);
    SpliceAt(c, i + 11, name);
  }

  method PutExtended16(k: Kind, code: seq<Byte>) returns (b: seq<Byte>)
    requires |code| == SECTOR && k != Fat32
    ensures |b| == SECTOR && Extended(b, k)
    ensures forall j :: 0 <= j < 36 || j == 37 || 62 <= j < SECTOR ==> b[j] == code[j]
  {
    hide Put32, Splice, Le32;
    b := code[36 := 0x80][38 := 0x29];
    b := Put32(b, 39, if k == Fat16 then 0xA0200016 else 0xA0200012);
    Labelled(b, 43, TypeName(k));
    b := Splice(Splice(b, 43, LABEL), 54, TypeName(k));
  }

  /** The free-space sector of a fresh FAT32 volume: both hints unknown. */
  method PutInfo() returns (b: seq<Byte>)
    ensures |b| == SECTOR && Le32(b, 0) == 0x41615252 && Le32(b, 484) == 0x61417272 && Le32(b, 508) == 0xAA550000
    ensures Le32(b, 488) == 0xFFFFFFFF && Le32(b, 492) == 0xFFFFFFFF
    ensures forall j :: 4 <= j < 484 || 496 <= j < 508 ==> b[j] == 0
  {
    b := Put32(Zeros(SECTOR), 0, 0x41615252);
    b := Put32(b, 484, 0x61417272);
    b := Put32(b, 488, 0xFFFFFFFF);
    b := Put32(b, 492, 0xFFFFFFFF);
    b := Put32(b, 508, 0xAA550000);
  }

  /** The volume that a layout describes. */
  function Described(k: Kind, volume: nat, f: nat): Geo
    requires 2 * f <= Room(k, volume)
  {
    Geo(k, RESERVED, 2, f, RootEntries(k), RESERVED + 2 * f + RootSectors(k), SectorsPerCluster(k),
        Clusters(k, volume, f), if k == Fat32 then 2 else 0, if k == Fat32 then 256 else 0,
        if k == Fat32 then 257 else 0)
  }

  /** The sizes a mount computes. */
  lemma SizesReadBack(b: seq<Byte>, k: Kind, volume: nat, f: nat)
    requires LaidOut(k, volume, f) && volume <= LBA28 && Common(b, k, volume, f)
    requires k == Fat32 ==> Le32(b, 36) == f
    ensures FatSize(b) == f && TotalSectors(b) == volume && FirstData(b) == RESERVED + 2 * f + RootSectors(k)
    ensures KindOf(Clusters(k, volume, f)) == k && Clusters(k, volume, f) == (volume - FirstData(b)) / b[13]
  {
    hide Settled, Alternates, Le16, Le32;
    if k != Fat32 { SmallFat(k, volume, f); }
    assert FatSize(b) == f;
    assert FirstData(b) == RESERVED + 2 * f + RootSectors(k) by { hide Clusters, InRange; }
  }

  /** A sector with these fields mounts as the volume they describe. */
  lemma MountReadsBack(b: seq<Byte>, k: Kind, volume: nat, f: nat)
    requires LaidOut(k, volume, f) && volume <= LBA28 && Common(b, k, volume, f)
    requires b[510] == 0x55 && b[511] == 0xAA
    requires k == Fat32 ==> Le32(b, 36) == f && Le32(b, 44) == 2 && Le16(b, 48) == 256 && Le16(b, 50) == 257
    ensures Mount(b) == Volume(Described(k, volume, f))
  {
    hide Settled, Alternates, InRange, Le16, Le32;
    SizesReadBack(b, k, volume, f);
  }

  /** Regions of a volume follow one another and lie inside it. */
  ghost predicate RegionsInside(g: Geo, volume: nat) {
    && 0 < g.reserved && g.copies * g.fatSize > 0
    && g.reserved + g.copies * g.fatSize + RootSectorsFor(g.rootEntries) == g.firstData
    && 0 < g.count && g.firstData + g.count * g.spc <= volume
  }

  lemma LayoutInside(k: Kind, volume: nat, f: nat)
    requires LaidOut(k, volume, f)
    ensures RegionsInside(Described(k, volume, f), volume)
  {
    hide Alternates;
    if k == Fat12 { RoomForCluster(volume, f); }
  }

  lemma RoomForCluster(volume: nat, f: nat)
    requires LaidOut(Fat12, volume, f)
    ensures Clusters(Fat12, volume, f) > 0
  {
  }

  lemma CommonKept(b: seq<Byte>, c: seq<Byte>, k: Kind, volume: nat, f: nat)
    requires Common(b, k, volume, f) && |c| == SECTOR && forall j :: 0 <= j < 36 ==> c[j] == b[j]
    ensures Common(c, k, volume, f)
  {
  }

  lemma Pointers(b: seq<Byte>, c: seq<Byte>)
    requires |b| == |c| == SECTOR && forall j :: 36 <= j < 52 ==> c[j] == b[j]
    ensures Le32(c, 36) == Le32(b, 36) && Le32(c, 44) == Le32(b, 44) && Le16(c, 48) == Le16(b, 48)
    ensures Le16(c, 50) == Le16(b, 50)
  {
  }

  lemma TrimmingsKept(b: seq<Byte>, c: seq<Byte>, d: seq<Byte>, k: Kind)
    requires |b| == |c| == |d| == SECTOR && b[..3] == [0xEB, 0x58, 0x90] && b[3..11] == OEM && b[21] == 0xF8
    requires Le16(b, 24) == 63 && Le16(b, 26) == 255 && Le32(b, 28) == 0
    requires forall j :: 0 <= j < 36 ==> c[j] == b[j]
    requires forall j :: 0 <= j < 90 ==> d[j] == c[j]
    requires Extended(c, k)
    ensures Trimmings(d, k)
  {
    hide TypeName;
    assert d[..3] == b[..3] && d[3..11] == b[3..11];
    if k == Fat32 {
      assert d[52..64] == c[52..64] && d[71..82] == c[71..82] && d[82..90] == c[82..90];
    } else {
      assert d[43..54] == c[43..54] && d[54..62] == c[54..62];
    }
  }

  /** The boot sector; code beyond the parameter block is kept. */
  method BuildBoot(k: Kind, volume: nat, f: nat, code: seq<Byte>) returns (b: seq<Byte>)
    requires |code| == SECTOR && LaidOut(k, volume, f) && volume <= LBA28
    ensures |b| == SECTOR && Mount(b) == Volume(Described(k, volume, f)) && Trimmings(b, k)
    ensures forall j :: 0 <= j < 510 && !Written(k, j) ==> b[j] == code[j]
  {
    hide Settled, Alternates, InRange, Mount, Described, Clusters, TypeName, Le16, Le32, Common, Trimmings;
    b := PutCommon(k, volume, f, code);
    ghost var c := b;
    if k == Fat32 {
      b := PutExtended32(f, b);
    } else {
      b := PutExtended16(k, b);
    }
    CommonKept(c, b, k, volume, f);
    ghost var d := b;
    b := b[510 := 0x55][511 := 0xAA];
    CommonKept(d, b, k, volume, f);
    TrimmingsKept(c, d, b, k);
    Pointers(d, b);
    MountReadsBack(b, k, volume, f);
  }

  /** Writes the boot sector and, on FAT32, the free-space sector and their backups. Mounting the volume
      finds the layout again, in regions that follow one another; boot code is kept. */
  method WriteBootSector(i: Installer, k: Kind, disk: array<seq<Byte>>)
    requires i.Laid(k) && i.volumeSectors <= LBA28 && disk.Length == i.volumeSectors && Full(disk[..])
    modifies disk
    ensures Full(disk[..])
    ensures Mount(disk[0]) == Volume(Described(k, i.volumeSectors, i.fatSectors))
    ensures RegionsInside(Described(k, i.volumeSectors, i.fatSectors), disk.Length)
    ensures Trimmings(disk[0], k) && forall j :: 0 <= j < 510 && !Written(k, j) ==> disk[0][j] == old(disk[0][j])
    ensures forall n :: 1 <= n < disk.Length && !(k == Fat32 && 256 <= n <= 258) ==> disk[n] == old(disk[n])
    ensures k == Fat32 ==> disk[257] == disk[0] && disk[258] == disk[256] && Le32(disk[256], 488) == 0xFFFFFFFF
  {
    hide Settled, Alternates, InRange, RegionsInside, Mount, Described, Le32, Clusters, Trimmings;
    LayoutInside(k, i.volumeSectors, i.fatSectors);
    var b := BuildBoot(k, i.volumeSectors, i.fatSectors, disk[0]);
    disk[0] := b;
    if k == Fat32 {
      var info := PutInfo();
      disk[256] := info;
      disk[257] := disk[0];
      disk[258] := disk[256];
    }
  }
}
