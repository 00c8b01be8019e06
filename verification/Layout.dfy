/** The installer's choice of a FAT layout for a disk of a given size. */
module Layout {
  import opened Geometry

  const RESERVED: nat := 512
  const LBA28: nat := 0x1000_0000

  function RootEntries(k: Kind): nat {
    match k case Fat12 => 224 case Fat16 => 512 case Fat32 => 0
  }

  function RootSectors(k: Kind): nat {
    (RootEntries(k) * 32 + 511) / 512
  }

  function SectorsPerCluster(k: Kind): (r: nat)
    ensures r > 0
  {
    match k case Fat12 => 32 case Fat16 => 2 case Fat32 => 1
  }

  /** The bytes a FAT needs for its two reserved entries and one entry per cluster. */
  function FatBytesFor(k: Kind, clusters: nat): nat {
    match k
    case Fat12 => ((clusters + 2) * 3 + 1) / 2
    case Fat16 => (clusters + 2) * 2
    case Fat32 => (clusters + 2) * 4
  }

  /** The sectors left for the two FATs and the data. */
  function Room(k: Kind, volume: nat): int {
    volume - RESERVED - RootSectors(k)
  }

  /** The clusters there are when each FAT takes f sectors. */
  function Clusters(k: Kind, volume: nat, f: nat): nat
    requires 2 * f <= Room(k, volume)
  {
    (Room(k, volume) - 2 * f) / SectorsPerCluster(k)
  }

  /** The sectors a FAT needs for the clusters there are when each FAT takes f sectors. */
  function Next(k: Kind, volume: nat, f: nat): nat
    requires 2 * f <= Room(k, volume)
  {
    (FatBytesFor(k, Clusters(k, volume, f)) + 511) / 512
  }

  /** A larger FAT leaves fewer clusters, hence needs fewer sectors, but only slowly so. */
  lemma NextAntitone(k: Kind, volume: nat, a: nat, b: nat)
    requires a <= b && 2 * b <= Room(k, volume)
    ensures Next(k, volume, b) <= Next(k, volume, a) <= Next(k, volume, b) + (b - a) / 64 + 1
  {
    var ca, cb := Clusters(k, volume, a), Clusters(k, volume, b);
    match k {
      case Fat12 =>
        assert cb <= ca <= cb + (b - a) / 16 + 1;
        assert FatBytesFor(k, cb) <= FatBytesFor(k, ca) <= FatBytesFor(k, cb) + (b - a) / 8 + 3;
      case Fat16 =>
        assert ca == cb + (b - a);
      case Fat32 =>
        assert ca == cb + 2 * (b - a);
    }
  }

  /** On an admissible volume the sizes tried always leave room, so the check inside the loop never fires. */
  lemma NextFits(k: Kind, volume: nat, f: nat)
    requires Room(k, volume) > 100 && f >= 1 && 2 * f <= Room(k, volume)
    ensures 1 <= Next(k, volume, f) && 2 * Next(k, volume, f) < Room(k, volume)
    ensures volume <= LBA28 ==> Next(k, volume, f) <= 0x20_0000
  {
    var c := Clusters(k, volume, f);
    assert c <= Room(k, volume) - 2;
    match k {
      case Fat12 =>
        assert 32 * c <= Room(k, volume);
        assert 2 * FatBytesFor(k, c) <= 3 * c + 7;
      case Fat16 =>
        assert 2 * c <= Room(k, volume);
      case Fat32 =>
    }
  }

  /** Each FAT of f sectors is just what its clusters need. */
  ghost predicate Settled(k: Kind, volume: nat, f: nat) {
    2 * f <= Room(k, volume) && Next(k, volume, f) == f
  }

  /** f is one sector short of what its clusters need, and one sector more would be one too many. */
  ghost predicate Alternates(k: Kind, volume: nat, f: nat) {
    2 * f + 2 <= Room(k, volume) && Next(k, volume, f) == f + 1 && Next(k, volume, f + 1) == f
  }

  /** The FAT holds an entry for every cluster and the two reserved ones. */
  predicate Holds(k: Kind, volume: nat, f: nat)
    requires 2 * f <= Room(k, volume)
  {
    FatBytesFor(k, Clusters(k, volume, f)) <= 512 * f
  }

  /** The disk sizes on which the iteration alternates for ever. */
  predicate Alternating(k: Kind, volume: nat)
    requires Room(k, volume) > 100
  {
    match k
    case Fat12 => Room(k, volume) % 32774 in {10882, 10883, 21796, 21797, 32742, 32743}
    case Fat16 => Room(k, volume) / 2 % 257 == 256
    case Fat32 => Room(k, volume) % 130 in {0, 129}
  }

  /** Where the iteration ends: the closed form of the size, and of when the FAT is too short. */
  lemma EndsAt(k: Kind, volume: nat, f: nat)
    requires Room(k, volume) > 100 && f >= 1 && (Settled(k, volume, f) || Alternates(k, volume, f))
    ensures Holds(k, volume, f) <==> !Alternating(k, volume)
    ensures Settled(k, volume, f) <==> !Alternating(k, volume)
    ensures k == Fat16 ==> f == Room(k, volume) / 2 / 257 + 1
    ensures k == Fat32 ==> f == (Room(k, volume) + 129) / 130
  {
    match k {
      case Fat12 => EndsAt12(volume, f);
      case Fat16 => EndsAt16(volume, f);
      case Fat32 => EndsAt32(volume, f);
    }
  }

  lemma EndsAt32(volume: nat, f: nat)
    requires Room(Fat32, volume) > 100 && f >= 1 && (Settled(Fat32, volume, f) || Alternates(Fat32, volume, f))
    ensures Settled(Fat32, volume, f) <==> Holds(Fat32, volume, f)
    ensures Holds(Fat32, volume, f) <==> !Alternating(Fat32, volume)
    ensures f == (Room(Fat32, volume) + 129) / 130
  {
    var r := 130 * f - Room(Fat32, volume);
    if Settled(Fat32, volume, f) {
      assert 2 <= r <= 129;
    } else {
      assert 0 <= r <= 1;
    }
    assert r > 0 ==> Room(Fat32, volume) == 130 * (f - 1) + (130 - r);
  }

  lemma EndsAt16(volume: nat, f: nat)
    requires Room(Fat16, volume) > 100 && f >= 1 && (Settled(Fat16, volume, f) || Alternates(Fat16, volume, f))
    ensures Settled(Fat16, volume, f) <==> Holds(Fat16, volume, f)
    ensures Holds(Fat16, volume, f) <==> !Alternating(Fat16, volume)
    ensures f == Room(Fat16, volume) / 2 / 257 + 1
  {
    var d := Room(Fat16, volume) / 2;
    assert Clusters(Fat16, volume, f) == d - f;
    var r := d - 257 * (f - 1);
    if Settled(Fat16, volume, f) {
      assert 0 <= r <= 255;
    } else {
      assert Clusters(Fat16, volume, f + 1) == d - f - 1;
      assert r == 256;
    }
  }

  lemma EndsAt12(volume: nat, f: nat)
    requires Room(Fat12, volume) > 100 && f >= 1 && (Settled(Fat12, volume, f) || Alternates(Fat12, volume, f))
    ensures Settled(Fat12, volume, f) <==> Holds(Fat12, volume, f)
    ensures Holds(Fat12, volume, f) <==> !Alternating(Fat12, volume)
  {
    var room, c := Room(Fat12, volume), Clusters(Fat12, volume, f);
    var q, p, z := (f - 1) / 3, (f - 1) % 3, (room - 2 * f) % 32;
    if Settled(Fat12, volume, f) {
      assert 1024 * f - 1023 <= 3 * c + 6 <= 1024 * f;
      var r := 32 * (c - 1024 * q) + 2 * (p + 1) + z;
      assert room == 32774 * q + r;
      Settled12(c - 1024 * q, p, z, r);
      Remainder12(room, if r < 0 then q - 1 else q, if r < 0 then r + 32774 else r);
    } else {
      var d := Clusters(Fat12, volume, f + 1);
      assert 3 * c + 6 > 1024 * f >= 3 * d + 6;
      assert c <= d + 1 && z <= 1;
      var r := 32 * (c - 1024 * q) + 2 * (p + 1) + z;
      assert room == 32774 * q + r;
      Alternates12(c - 1024 * q, p, z, r);
      Remainder12(room, q, r);
    }
  }

  lemma Remainder12(x: int, q: int, r: int)
    requires x == 32774 * q + r && 0 <= r < 32774
    ensures x % 32774 == r
  {
  }

  lemma Settled12(c: int, p: nat, z: nat, r: int)
    requires p < 3 && z < 32 && 1024 * p + 1 <= 3 * c + 6 <= 1024 * p + 1024 && r == 32 * c + 2 * (p + 1) + z
    ensures -32774 <= r < 32774 && r !in {10882, 10883, 21796, 21797, 32742, 32743} && r >= -32774 + 32744
  {
    if p == 0 { assert -1 <= c <= 339; } else if p == 1 { assert 340 <= c <= 680; } else { assert 681 <= c <= 1022; }
  }

  lemma Alternates12(c: int, p: nat, z: nat, r: int)
    requires p < 3 && z <= 1 && 3 * c + 3 <= 1024 * p + 1024 < 3 * c + 6 && r == 32 * c + 2 * (p + 1) + z
    ensures r in {10882, 10883, 21796, 21797, 32742, 32743}
  {
    if p == 0 { assert c == 340; } else if p == 1 { assert c == 681; } else { assert c == 1023; }
  }

  /** Disk sizes accepted for each kind of FAT. */
  predicate Accepts(k: Kind, volume: nat) {
    match k
    case Fat12 => 627 <= volume <= 131269
    case Fat16 => 8746 <= volume <= 132105
    case Fat32 => 67061 <= volume
  }

  /** The cluster count lies in the range that the kind of FAT calls for. */
  predicate InRange(k: Kind, clusters: nat) {
    match k
    case Fat12 => clusters < 4085
    case Fat16 => 4085 <= clusters < 65525
    case Fat32 => 65525 <= clusters
  }

  lemma AcceptsExactly(k: Kind, volume: nat, f: nat)
    requires Room(k, volume) > 100 && f >= 1 && (Settled(k, volume, f) || Alternates(k, volume, f))
    ensures InRange(k, Clusters(k, volume, f)) <==> Accepts(k, volume)
  {
    match k {
      case Fat12 => Accepts12(volume, f);
      case Fat16 =>
        EndsAt16(volume, f);
        assert Clusters(k, volume, f) == Room(k, volume) / 2 - f;
      case Fat32 =>
        EndsAt32(volume, f);
    }
  }

  lemma Accepts12(volume: nat, f: nat)
    requires Room(Fat12, volume) > 100 && f >= 1 && (Settled(Fat12, volume, f) || Alternates(Fat12, volume, f))
    ensures InRange(Fat12, Clusters(Fat12, volume, f)) <==> Accepts(Fat12, volume)
  {
    var c := Clusters(Fat12, volume, f);
    var z := (Room(Fat12, volume) - 2 * f) % 32;
    assert Room(Fat12, volume) == 32 * c + 2 * f + z;
    if Settled(Fat12, volume, f) {
      assert 1024 * f - 1023 <= 3 * c + 6 <= 1024 * f;
    } else {
      var d := Clusters(Fat12, volume, f + 1);
      assert c <= d + 1;
      assert 3 * d + 6 <= 1024 * f < 3 * c + 6;
    }
  }

  /** How many entries the FAT lacks at worst. */
  function Missing(k: Kind): nat {
    if k == Fat32 then 2 else 1
  }

  lemma ShortAtMost(k: Kind, volume: nat, f: nat)
    requires Settled(k, volume, f) || Alternates(k, volume, f)
    ensures 2 * f <= Room(k, volume)
    ensures exists held: nat :: FatBytesFor(k, held) <= 512 * f && Clusters(k, volume, f) <= held + Missing(k)
  {
    if Settled(k, volume, f) {
      var held := Clusters(k, volume, f);
      assert FatBytesFor(k, held) <= 512 * f && Clusters(k, volume, f) <= held + Missing(k);
    } else {
      var held := Clusters(k, volume, f + 1);
      assert FatBytesFor(k, held) <= 512 * f && Clusters(k, volume, f) <= held + Missing(k);
    }
  }

  /** A FAT32 volume of 67072 sectors is accepted with a FAT that lacks the last two entries. */
  lemma AlternatingVolumeAccepted()
    ensures Accepts(Fat32, 67072) && Alternates(Fat32, 67072, 512)
    ensures Clusters(Fat32, 67072, 512) == 65536 && !Holds(Fat32, 67072, 512)
  {
  }

  /** One round of the iteration: the sizes tried stay on either side of the end and close in on it. */
  ghost predicate Closing(k: Kind, volume: nat, round: nat, f: nat, width: nat) {
    && 1 <= f && 2 * f < Room(k, volume)
    && (round % 2 == 0 ==> f <= Next(k, volume, f) <= f + width)
    && (round % 2 == 1 ==> Next(k, volume, f) <= f <= Next(k, volume, f) + width)
  }

  lemma ClosesIn(k: Kind, volume: nat, round: nat, f: nat, width: nat)
    requires Room(k, volume) > 100 && Closing(k, volume, round, f, width)
    ensures Closing(k, volume, round + 1, Next(k, volume, f), width / 64 + 1)
  {
    hide Next, Room;
    var g := Next(k, volume, f);
    NextFits(k, volume, f);
    if round % 2 == 0 {
      NextAntitone(k, volume, f, g);
    } else {
      NextAntitone(k, volume, g, f);
    }
  }

  /** The width after a number of rounds. */
  function Width(round: nat): nat {
    if round == 0 then 0x20_0000
    else if round == 1 then 0x8001
    else if round == 2 then 513
    else if round == 3 then 9
    else 1
  }

  /** Round after round, from the first guess of one sector. */
  ghost predicate Tried(k: Kind, volume: nat, round: nat, f: nat) {
    1 <= f && 2 * f < Room(k, volume) && Closing(k, volume, round, f, Width(round))
  }

  lemma TriedNext(k: Kind, volume: nat, round: nat, f: nat)
    requires Room(k, volume) > 100 && Tried(k, volume, round, f)
    ensures Tried(k, volume, round + 1, Next(k, volume, f))
  {
    ClosesIn(k, volume, round, f, Width(round));
  }

  /** After sixteen rounds the size is settled or the smaller of two alternating ones. */
  lemma SixteenRounds(k: Kind, volume: nat, before: nat, f: nat)
    requires Room(k, volume) > 100 && Tried(k, volume, 15, before) && Tried(k, volume, 16, f)
    requires f == Next(k, volume, before)
    ensures Settled(k, volume, f) || Alternates(k, volume, f)
  {
  }

  /** A FAT size with which the reserved sectors, two FATs, root directory and data fit the volume. */
  ghost predicate LaidOut(k: Kind, volume: nat, f: nat) {
    && Room(k, volume) > 100 && f >= 1 && 2 * f < Room(k, volume)
    && InRange(k, Clusters(k, volume, f))
    && (Settled(k, volume, f) || Alternates(k, volume, f))
  }

  datatype Status = Ok | Unsupported

  class Installer {
    var volumeSectors: nat
    var rootEntries: nat
    var rootSectors: nat
    var sectorsPerCluster: nat
    var fatSectors: nat
    var firstDataSector: nat
    var rootCluster: nat

    /** The fields that depend on the kind of FAT only. */
    ghost predicate Sized(k: Kind)
      reads this
    {
      rootEntries == RootEntries(k) && rootSectors == RootSectors(k) && sectorsPerCluster == SectorsPerCluster(k)
    }

    /** The sectors a FAT needs if it takes fatSectors. */
    method NeededSectors(k: Kind) returns (next: nat)
      requires Sized(k) && 2 * fatSectors <= Room(k, volumeSectors)
      ensures next == Next(k, volumeSectors, fatSectors)
    {
      var data := volumeSectors - RESERVED - rootSectors - 2 * fatSectors;
      var clusters := data / sectorsPerCluster;
      next := (FatBytesFor(k, clusters) + 511) / 512;
    }

    /** The iteration; it never gives up on a volume with room for it. */
    method SizeFat(k: Kind) returns (ok: bool)
      requires Sized(k) && volumeSectors <= LBA28 && Room(k, volumeSectors) > 100
      modifies this`fatSectors
      ensures ok && fatSectors >= 1 && 2 * fatSectors < Room(k, volumeSectors)
      ensures Settled(k, volumeSectors, fatSectors) || Alternates(k, volumeSectors, fatSectors)
    {
      hide Next, Closing, Width, Alternates, RootEntries, SectorsPerCluster;
      FirstTry(k, volumeSectors);
      fatSectors := 1;
      var i := 0;
      ghost var before := 1;
      while i < 16
        invariant 0 <= i <= 16 && Tried(k, volumeSectors, i, fatSectors)
        invariant i > 0 ==> Tried(k, volumeSectors, i - 1, before) && fatSectors == Next(k, volumeSectors, before)
      {
        if RESERVED + rootSectors + 2 * fatSectors >= volumeSectors { return false; }
        var next := NeededSectors(k);
        if next == fatSectors { return true; }
        TriedNext(k, volumeSectors, i, fatSectors);
        before := fatSectors;
        fatSectors := next;
        i := i + 1;
      }
      SixteenRounds(k, volumeSectors, before, fatSectors);
      ok := true;
    }

    /** The layout for a disk of the given size. It is accepted exactly on the listed disk sizes; the FAT
        then has an entry for every cluster except on alternating sizes, where it is the smaller of the
        two sizes between which the iteration alternates. */
    method CalculateLayout(k: Kind, sectors: nat) returns (status: Status)
      requires sectors <= LBA28
      modifies this
      ensures status == Ok <==> Accepts(k, sectors)
      ensures status == Ok ==> volumeSectors == sectors && Laid(k)
      ensures status == Ok ==>
        if Alternating(k, sectors) then Alternates(k, sectors, fatSectors) else Settled(k, sectors, fatSectors)
      ensures status == Ok ==> (Holds(k, sectors, fatSectors) <==> !Alternating(k, sectors))
    {
      hide Next, Alternates, Settled, Alternating, Holds, InRange;
      volumeSectors := sectors;
      rootEntries := RootEntries(k);
      rootSectors := (rootEntries * 32 + 511) / 512;
      sectorsPerCluster := SectorsPerCluster(k);
      if volumeSectors <= RESERVED + rootSectors + 100 { return Unsupported; }
      var ok := SizeFat(k);
      if !ok { return Unsupported; }
      EndsAt(k, sectors, fatSectors);
      AcceptsExactly(k, sectors, fatSectors);
      firstDataSector := RESERVED + 2 * fatSectors + rootSectors;
      if firstDataSector >= volumeSectors { return Unsupported; }
      var clusters := (volumeSectors - firstDataSector) / sectorsPerCluster;
      if !InRange(k, clusters) { return Unsupported; }
      rootCluster := if k == Fat32 then 2 else 0;
      status := Ok;
    }

    ghost predicate Laid(k: Kind)
      reads this
    {
      && Sized(k) && LaidOut(k, volumeSectors, fatSectors)
      && firstDataSector == RESERVED + 2 * fatSectors + rootSectors
      && rootCluster == (if k == Fat32 then 2 else 0)
    }
  }

  /** The FAT size of a FAT12 or FAT16 volume fits in sixteen bits. */
  lemma SmallFat(k: Kind, volume: nat, f: nat)
    requires k != Fat32 && 2 * f <= Room(k, volume) && InRange(k, Clusters(k, volume, f))
    requires Settled(k, volume, f) || Alternates(k, volume, f)
    ensures f < 65536
  {
  }

  lemma FirstTry(k: Kind, volume: nat)
    requires Room(k, volume) > 100 && volume <= LBA28
    ensures Tried(k, volume, 0, 1)
  {
    NextFits(k, volume, 1);
  }
}
