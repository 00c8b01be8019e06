/** Directories: 32-byte slots in the fixed root or in the clusters of a chain. */
module FatDir {
  import opened Bytes
  import opened Geometry
  import opened FatCodec
  import opened FatDisk
  import opened FatChains
  import opened FatVolume

  type Slot = seq<Byte>

  const SLOT: nat := 32
  const MAX_SLOTS: nat := 512
  const DELETED: Byte := 0xE5

  /** The slots of a run of sectors. */
  ghost function Slots(ss: Disk): (r: seq<Slot>)
    requires Full(ss)
    ensures |r| == 16 * |ss|
    ensures forall i :: 0 <= i < |r| ==> r[i] == ss[i / 16][i % 16 * 32..i % 16 * 32 + 32] && |r[i]| == SLOT
  {
    seq(16 * |ss|, (i: nat) requires i < 16 * |ss| && Full(ss) => ss[i / 16][i % 16 * 32..i % 16 * 32 + 32])
  }

  /** Writing a slot's bytes within its sector changes that slot only. */
  lemma SlotWritten(ss: Disk, i: nat, e: Slot)
    requires Full(ss) && i < 16 * |ss| && |e| == SLOT
    ensures var after := ss[i / 16 := Splice(ss[i / 16], i % 16 * 32, e)];
      Full(after) && Slots(after) == Slots(ss)[i := e]
  {
    hide Slots, Splice;
    var q, p := i / 16, i % 16 * 32;
    var s := Splice(ss[q], p, e);
    var after := ss[q := s];
    SpliceAt(ss[q], p, e);
    forall j: nat | j < 16 * |ss| ensures Slots(after)[j] == Slots(ss)[i := e][j] {
      var o := j % 16 * 32;
      if j / 16 == q && j != i {
        assert o + 32 <= p || p + 32 <= o;
        assert s[o..o + 32] == ss[q][o..o + 32];
      } else if j == i {
        assert s[p..p + 32] == e;
      }
    }
  }

  lemma SlotsJoined(ss: Disk, tt: Disk)
    requires Full(ss) && Full(tt)
    ensures Slots(ss + tt) == Slots(ss) + Slots(tt)
  {
    hide Slots;
    forall j: nat | j < 16 * |ss + tt| ensures Slots(ss + tt)[j] == (Slots(ss) + Slots(tt))[j] {
      if j >= 16 * |ss| {
        assert j / 16 == |ss| + (j - 16 * |ss|) / 16 && j % 16 == (j - 16 * |ss|) % 16;
      }
    }
  }

  ghost predicate ClustersOk(g: Geo, data: seq<Disk>, ch: seq<nat>) {
    && |data| == g.count + 2 && (forall c :: 2 <= c < |data| ==> FullCluster(g, data[c]))
    && forall i :: 0 <= i < |ch| ==> Valid(g, ch[i])
  }

  /** The sectors of clusters in a row. */
  ghost function Sectors(g: Geo, data: seq<Disk>, ch: seq<nat>): (r: Disk)
    requires ClustersOk(g, data, ch)
    ensures Full(r)
  {
    if ch == [] then []
    else
      var c := ch[|ch| - 1];
      assert Valid(g, c) && FullCluster(g, data[c]);
      Sectors(g, data, ch[..|ch| - 1]) + data[c]
  }

  /** The place of sector s of cluster k in such a row. */
  function Place(g: Geo, k: nat, s: nat): nat {
    k * g.spc + s
  }

  lemma PlaceNext(g: Geo, k: nat, s: nat)
    ensures Place(g, k, s) == Place(g, k, 0) + s && Place(g, k + 1, 0) == Place(g, k, g.spc)
  {
  }

  lemma {:induction false} SectorsLength(g: Geo, data: seq<Disk>, ch: seq<nat>)
    requires ClustersOk(g, data, ch)
    ensures |Sectors(g, data, ch)| == Place(g, |ch|, 0)
  {
    if ch != [] {
      SectorsLength(g, data, ch[..|ch| - 1]);
      PlaceNext(g, |ch| - 1, g.spc);
      assert Valid(g, ch[|ch| - 1]);
    }
  }

  lemma {:induction false} SectorsAt(g: Geo, data: seq<Disk>, ch: seq<nat>, k: nat, s: nat)
    requires ClustersOk(g, data, ch) && k < |ch| && s < g.spc
    ensures Valid(g, ch[k]) && Place(g, k, s) < |Sectors(g, data, ch)|
    ensures Sectors(g, data, ch)[Place(g, k, s)] == data[ch[k]][s]
  {
    hide Place;
    var n := |ch| - 1;
    SectorsLength(g, data, ch[..n]);
    PlaceNext(g, k, s);
    assert Valid(g, ch[n]);
    if k < n { SectorsAt(g, data, ch[..n], k, s); }
  }

  lemma {:induction false} SectorsSame(g: Geo, data: seq<Disk>, after: seq<Disk>, ch: seq<nat>)
    requires ClustersOk(g, data, ch) && ClustersOk(g, after, ch)
    requires forall i :: 0 <= i < |ch| ==> after[ch[i]] == data[ch[i]]
    ensures Sectors(g, after, ch) == Sectors(g, data, ch)
  {
    if ch != [] { SectorsSame(g, data, after, ch[..|ch| - 1]); }
  }

  /** Writing a sector of one of the clusters. */
  lemma {:induction false} SectorsUpdated(g: Geo, data: seq<Disk>, after: seq<Disk>, ch: seq<nat>, k: nat, s: nat,
                                          sec: seq<Byte>)
    requires ClustersOk(g, data, ch) && ClustersOk(g, after, ch) && k < |ch| && s < g.spc
    requires forall i, j :: 0 <= i < j < |ch| ==> ch[i] != ch[j]
    requires after[ch[k]] == data[ch[k]][s := sec]
    requires forall i :: 0 <= i < |ch| && i != k ==> after[ch[i]] == data[ch[i]]
    ensures Place(g, k, s) < |Sectors(g, data, ch)|
    ensures Sectors(g, after, ch) == Sectors(g, data, ch)[Place(g, k, s) := sec]
  {
    hide Place;
    var n := |ch| - 1;
    var p := Place(g, k, s);
    SectorsAt(g, data, ch, k, s);
    if k < n {
      SectorsAt(g, data, ch[..n], k, s);
      SectorsUpdated(g, data, after, ch[..n], k, s, sec);
    } else {
      SectorsSame(g, data, after, ch[..n]);
      SectorsLength(g, data, ch[..n]);
      PlaceNext(g, n, s);
    }
  }

  /** The slots of a cluster. */
  function PerCluster(g: Geo): (n: nat)
    requires g.spc > 0
    ensures n > 0
  {
    g.spc * 16
  }

  /** The cluster of a directory that holds a slot, and the sector within it. */
  function Skip(g: Geo, index: nat): nat
    requires g.spc > 0
  {
    Quotient(index, PerCluster(g))
  }

  function Quotient(x: nat, n: nat): nat
    requires n > 0
  {
    x / n
  }

  function Within(g: Geo, index: nat): nat
    requires g.spc > 0
  {
    index % PerCluster(g) / 16
  }

  lemma SlotPlace(g: Geo, i: nat)
    requires g.spc > 0
    ensures Within(g, i) < g.spc && i % (g.spc * 16) % 16 == i % 16 && Place(g, Skip(g, i), Within(g, i)) == i / 16
  {
    var per := g.spc * 16;
    var k, w := i / per, i % per;
    assert i == k * per + w;
    assert k * per == 16 * (k * g.spc);
    assert i == 16 * (k * g.spc + w / 16) + w % 16;
  }

  /** A directory's clusters; none for the fixed root of FAT12 and FAT16. */
  ghost predicate Located(g: Geo, m: Vol, dir: nat, ch: seq<nat>)
    requires Shape(g, m)
  {
    if dir == 0 && g.kind != Fat32 then ch == []
    else IsChain(g, m.fat, ch) && ch[0] == if dir == 0 then g.rootCluster else dir
  }

  ghost predicate ListingOk(g: Geo, m: Vol, ch: seq<nat>) {
    Shape(g, m) && forall i :: 0 <= i < |ch| ==> Valid(g, ch[i])
  }

  /** The sectors a directory's slots are in. */
  ghost function DirSectors(g: Geo, m: Vol, ch: seq<nat>): (r: Disk)
    requires ListingOk(g, m, ch)
    ensures Full(r)
  {
    if ch == [] then m.root else Sectors(g, m.data, ch)
  }

  /** The slots of a directory. */
  ghost function Listing(g: Geo, m: Vol, ch: seq<nat>): (r: seq<Slot>)
    requires ListingOk(g, m, ch)
    ensures forall i :: 0 <= i < |r| ==> |r[i]| == SLOT
  {
    if ch == [] then Slots(m.root)[..g.rootEntries] else Slots(DirSectors(g, m, ch))
  }

  lemma LocatedOk(g: Geo, m: Vol, dir: nat, ch: seq<nat>)
    requires Shape(g, m) && Located(g, m, dir, ch)
    ensures ListingOk(g, m, ch) && (ch == [] <==> dir == 0 && g.kind != Fat32)
  {
  }

  /** The place of a slot, as a sector of the root or of a cluster. */
  datatype Spot = Nowhere | InRoot(i: nat) | InCluster(c: nat, s: nat)

  ghost predicate SpotOk(g: Geo, m: Vol, ch: seq<nat>, index: nat, spot: Spot)
    requires ListingOk(g, m, ch)
  {
    match spot
    case Nowhere => index >= |Listing(g, m, ch)|
    case InRoot(i) => ch == [] && i == index / 16 && i < |m.root| && index < |Listing(g, m, ch)|
    case InCluster(c, s) =>
      && index < |Listing(g, m, ch)| && s < g.spc
      && exists k: nat :: k < |ch| && ch[k] == c && Place(g, k, s) == index / 16
  }

  /** Follows the directory's chain to the cluster that holds a slot. */
  method Locate(v: Volume, dir: nat, index: nat, ghost ch: seq<nat>) returns (spot: Spot)
    requires v.Ok() && Located(v.g, v.View(), dir, ch) && ListingOk(v.g, v.View(), ch)
    ensures SpotOk(v.g, v.View(), ch, index, spot)
  {
    hide v.Ok, v.View, Place, Listing, Skip, Within, IsChain;
    if dir == 0 && v.g.kind != Fat32 {
      RootListing(v.g, v.View());
      if index >= v.g.rootEntries { return Nowhere; }
      return InRoot(index / 16);
    }
    LocatedOk(v.g, v.View(), dir, ch);
    SlotPlace(v.g, index);
    ChainListing(v.g, v.View(), ch, index);
    var c := Follow(v, if dir != 0 then dir else v.g.rootCluster, Skip(v.g, index), ch);
    spot := if c == 0 then Nowhere else InCluster(c, Within(v.g, index));
  }

  /** Follows a chain for a number of links; zero if it is not that long. */
  method Follow(v: Volume, first: nat, skip: nat, ghost ch: seq<nat>) returns (c: nat)
    requires v.Ok() && IsChain(v.g, v.View().fat, ch) && ch[0] == first
    ensures if skip < |ch| then c == ch[skip] && Valid(v.g, c) else c == 0
  {
    hide v.Ok, v.View, Shape;
    c := first;
    var k := 0;
    while k < skip
      invariant 0 <= k <= skip && k < |ch| && c == ch[k]
    {
      c := v.FatGet(c);
      assert k < |ch| - 1 ==> c == ch[k + 1] && Valid(v.g, c);
      if IsEoc(v.g.kind, c) || c < 2 { return 0; }
      k := k + 1;
    }
  }

  lemma RootListing(g: Geo, m: Vol)
    requires ListingOk(g, m, [])
    ensures |Listing(g, m, [])| == g.rootEntries && forall i :: 0 <= i < g.rootEntries ==> i / 16 < |m.root|
  {
  }

  lemma ChainListing(g: Geo, m: Vol, ch: seq<nat>, index: nat)
    requires ListingOk(g, m, ch) && ch != [] && g.spc > 0
    ensures index < |Listing(g, m, ch)| <==> Skip(g, index) < |ch|
  {
    var per := g.spc * 16;
    SectorsLength(g, m.data, ch);
    var n := |ch|;
    assert |Listing(g, m, ch)| == 16 * (n * g.spc) == n * per;
    DivLess(index, per, n);
  }

  lemma DivLess(x: nat, d: nat, n: nat)
    requires d > 0
    ensures x < n * d <==> x / d < n
  {
    var q, r := x / d, x % d;
    assert x == q * d + r;
    if q < n { assert q * d + d <= n * d by { assert (q + 1) * d <= n * d; } }
    if q >= n { assert q * d >= n * d; }
  }

  /** The sector at a spot. */
  ghost function SectorAt(g: Geo, m: Vol, spot: Spot): seq<Byte>
    requires Shape(g, m) && spot != Nowhere
    requires spot.InRoot? ==> spot.i < |m.root|
    requires spot.InCluster? ==> Valid(g, spot.c) && spot.s < g.spc
  {
    match spot case InRoot(i) => m.root[i] case InCluster(c, s) => m.data[c][s]
  }

  /** The volume with another sector at a spot. */
  function PutAt(m: Vol, spot: Spot, sec: seq<Byte>): Vol
    requires spot != Nowhere
    requires spot.InRoot? ==> spot.i < |m.root|
    requires spot.InCluster? ==> spot.c < |m.data| && spot.s < |m.data[spot.c]|
  {
    match spot case InRoot(i) => PutRoot(m, i, sec) case InCluster(c, s) => PutData(m, c, s, sec)
  }

  /** The sector at a slot's spot is the directory's sector with that slot. */
  lemma SpotSector(g: Geo, m: Vol, ch: seq<nat>, index: nat, spot: Spot)
    requires ListingOk(g, m, ch) && g.spc > 0 && SpotOk(g, m, ch, index, spot) && spot != Nowhere
    ensures spot.InRoot? ==> spot.i < |m.root|
    ensures spot.InCluster? ==> Valid(g, spot.c) && spot.s < g.spc
    ensures index / 16 < |DirSectors(g, m, ch)| && SectorAt(g, m, spot) == DirSectors(g, m, ch)[index / 16]
    ensures index < |Listing(g, m, ch)|
    ensures Listing(g, m, ch)[index] == SectorAt(g, m, spot)[index % 16 * 32..index % 16 * 32 + 32]
  {
    hide Place;
    match spot {
      case InRoot(i) =>
      case InCluster(c, s) =>
        var k: nat :| k < |ch| && ch[k] == c && Place(g, k, s) == index / 16;
        SectorsAt(g, m.data, ch, k, s);
    }
  }

  datatype MaybeSlot = NoSlot | SomeSlot(e: Slot)

  /** Reads a slot; there is none past the directory's end. */
  method DirRead(v: Volume, dir: nat, index: nat, ghost ch: seq<nat>) returns (r: MaybeSlot)
    requires v.Ok() && Located(v.g, v.View(), dir, ch) && ListingOk(v.g, v.View(), ch)
    ensures r == if index < |Listing(v.g, v.View(), ch)| then SomeSlot(Listing(v.g, v.View(), ch)[index]) else NoSlot
  {
    hide v.Ok, v.View, Listing, Located;
    var spot := Locate(v, dir, index, ch);
    if spot == Nowhere { return NoSlot; }
    SpotSector(v.g, v.View(), ch, index, spot);
    var sec;
    match spot {
      case InRoot(i) => sec := v.ReadRoot(i);
      case InCluster(c, s) => sec := v.ReadData(c, s);
    }
    r := SomeSlot(sec[index % 16 * 32..index % 16 * 32 + 32]);
  }

  /** One slot of a directory was written, and nothing else. */
  ghost predicate SlotPut(g: Geo, m: Vol, after: Vol, ch: seq<nat>, index: nat, e: Slot)
    requires ListingOk(g, m, ch) && index < |Listing(g, m, ch)|
  {
    && ListingOk(g, after, ch) && Listing(g, after, ch) == Listing(g, m, ch)[index := e]
    && after.fat == m.fat && after.reserved == m.reserved
    && (ch != [] ==> after.root == m.root)
    && (forall x :: 0 <= x < |m.data| && x !in ch ==> after.data[x] == m.data[x])
  }

  ghost predicate Distinct(ch: seq<nat>) {
    forall i, j :: 0 <= i < j < |ch| ==> ch[i] != ch[j]
  }

  /** Writing a slot's bytes into its sector puts the slot. */
  lemma PutsSlot(g: Geo, m: Vol, ch: seq<nat>, index: nat, spot: Spot, e: Slot)
    requires ListingOk(g, m, ch) && g.spc > 0 && SpotOk(g, m, ch, index, spot) && spot != Nowhere
    requires Distinct(ch) && |e| == SLOT
    requires spot.InRoot? ==> spot.i < |m.root|
    requires spot.InCluster? ==> Valid(g, spot.c) && spot.s < g.spc
    requires |SectorAt(g, m, spot)| == SECTOR && index < |Listing(g, m, ch)|
    ensures SlotPut(g, m, PutAt(m, spot, Splice(SectorAt(g, m, spot), index % 16 * 32, e)), ch, index, e)
  {
    hide Place, Slots, Splice, Sectors;
    var sec := Splice(SectorAt(g, m, spot), index % 16 * 32, e);
    var after := PutAt(m, spot, sec);
    SpotSector(g, m, ch, index, spot);
    SlotWritten(DirSectors(g, m, ch), index, e);
    match spot {
      case InRoot(i) =>
      case InCluster(c, s) =>
        var k: nat :| k < |ch| && ch[k] == c && Place(g, k, s) == index / 16;
        SectorsUpdated(g, m.data, after.data, ch, k, s, sec);
    }
  }

  lemma ChainsDistinct(g: Geo, m: Vol, dir: nat, ch: seq<nat>)
    requires Shape(g, m) && TableOk(g, m.fat) && Located(g, m, dir, ch)
    ensures Distinct(ch)
  {
    hide IsChain;
    if ch != [] {
      forall i, j | 0 <= i < j < |ch| ensures ch[i] != ch[j] { ChainDistinct(g, m.fat, ch, i, j); }
    }
  }

  /** Writes a slot of a directory. */
  method DirWrite(v: Volume, dir: nat, index: nat, e: Slot, ghost ch: seq<nat>) returns (ok: bool)
    requires v.Ok() && Located(v.g, v.View(), dir, ch) && ListingOk(v.g, v.View(), ch) && |e| == SLOT
    modifies v`disk
    ensures v.Ok() && (ok <==> index < |Listing(v.g, old(v.View()), ch)|)
    ensures ok ==> SlotPut(v.g, old(v.View()), v.View(), ch, index, e)
    ensures !ok ==> v.View() == old(v.View())
  {
    hide v.Ok, v.View, Listing, Located, SlotPut, Splice;
    ChainsDistinct(v.g, v.View(), dir, ch);
    var spot := Locate(v, dir, index, ch);
    if spot == Nowhere { return false; }
    SpotSector(v.g, v.View(), ch, index, spot);
    match spot {
      case InRoot(i) =>
        var sec := v.ReadRoot(i);
        PutsSlot(v.g, v.View(), ch, index, spot, e);
        v.WriteRoot(i, Splice(sec, index % 16 * 32, e));
      case InCluster(c, s) =>
        var sec := v.ReadData(c, s);
        PutsSlot(v.g, v.View(), ch, index, spot, e);
        v.WriteData(c, s, Splice(sec, index % 16 * 32, e));
    }
    ok := true;
  }


  /** The slots of a directory in clusters are 32 bytes each, sixteen to a sector, one cluster after the other. */
  lemma ListingAt(g: Geo, m: Vol, ch: seq<nat>, k: nat, s: nat, x: nat)
    requires ListingOk(g, m, ch) && k < |ch| && s < g.spc && x < 16
    ensures |Listing(g, m, ch)| == 16 * (g.spc * |ch|) && (k * g.spc + s) * 16 + x < |Listing(g, m, ch)|
    ensures Valid(g, ch[k])
    ensures Listing(g, m, ch)[(k * g.spc + s) * 16 + x] == m.data[ch[k]][s][32 * x..32 * x + 32]
  {
    hide Sectors;
    SectorsAt(g, m.data, ch, k, s);
    SectorsLength(g, m.data, ch);
    var i := (k * g.spc + s) * 16 + x;
    assert i / 16 == Place(g, k, s) && i % 16 == x;
  }

  /** The slots of the root directory of fixed size. */
  lemma RootAt(g: Geo, m: Vol, i: nat)
    requires Shape(g, m) && i < g.rootEntries
    ensures |Listing(g, m, [])| == g.rootEntries && i / 16 < |m.root|
    ensures Listing(g, m, [])[i] == m.root[i / 16][32 * (i % 16)..32 * (i % 16) + 32]
  {
  }
}
