/** Taking and giving back clusters, and the free count kept in the FSInfo sectors of a FAT32 volume. */
module FatSpace {
  import opened Bytes
  import opened Geometry
  import opened FatCodec
  import opened FatDisk
  import opened FatChains
  import opened FatCycle
  import opened FatVolume

  predicate IsInfo(s: seq<Byte>)
    requires |s| == SECTOR
  {
    Le32(s, 0) == 0x41615252 && Le32(s, 484) == 0x61417272 && Le32(s, 508) == 0xAA550000
  }

  const UNKNOWN: nat := 0xFFFFFFFF

  /** A free-space sector after the count moved by delta; the hint is the next cluster to try. */
  function AdjustSector(g: Geo, s: seq<Byte>, delta: int, next: nat): (r: seq<Byte>)
    requires |s| == SECTOR
    ensures |r| == SECTOR
  {
    if !IsInfo(s) then s
    else
      var n := Le32(s, 488);
      var t := if n != UNKNOWN then Splice(s, 488, Bytes32((n + delta) % 0x1_0000_0000)) else s;
      Splice(t, 492, Bytes32(if next < g.count + 2 then next else 2))
  }

  function AdjustAt(g: Geo, reserved: Disk, q: nat, delta: int, next: nat): (r: Disk)
    requires Full(reserved) && |reserved| == g.reserved
    ensures Full(r) && |r| == |reserved|
  {
    if q < |reserved| then reserved[q := AdjustSector(g, reserved[q], delta, next)] else reserved
  }

  predicate InUse(sector: nat) {
    sector != 0 && sector != 0xFFFF
  }

  /** Both free-space sectors after the count moved by delta. */
  function AdjustInfo(g: Geo, reserved: Disk, delta: int, next: nat): (r: Disk)
    requires Full(reserved) && |reserved| == g.reserved
    ensures Full(r) && |r| == |reserved|
  {
    if g.kind != Fat32 || !InUse(g.info) then reserved
    else
      var r := AdjustAt(g, reserved, g.info, delta, next);
      if InUse(g.backup) then AdjustAt(g, r, g.backup + 1, delta, next) else r
  }

  datatype Count = Unknown | Known(n: nat)

  function CountIn(s: seq<Byte>): Count
    requires |s| == SECTOR
  {
    if !IsInfo(s) || Le32(s, 488) == UNKNOWN then Unknown else Known(Le32(s, 488))
  }

  /** An adjustment moves a known count and keeps an unknown one. */
  lemma AdjustMoves(g: Geo, s: seq<Byte>, delta: int, next: nat)
    requires |s| == SECTOR
    ensures CountIn(s) == Unknown ==> CountIn(AdjustSector(g, s, delta, next)) == Unknown
    ensures CountIn(s).Known? && 0 <= CountIn(s).n + delta < UNKNOWN ==>
      CountIn(AdjustSector(g, s, delta, next)) == Known(CountIn(s).n + delta)
  {
    hide IsInfo, Le32, Splice, Bytes32;
    if IsInfo(s) {
      var n := Le32(s, 488);
      var h := Bytes32(if next < g.count + 2 then next else 2);
      var w := Bytes32((n + delta) % 0x1_0000_0000);
      var t := if n != UNKNOWN then Splice(s, 488, w) else s;
      InfoField(s, 488, w);
      InfoField(t, 492, h);
    }
  }

  /** An adjustment leaves as hint the cluster after the one that was taken, or the first one past the end, and changes
      nothing but the count and the hint. */
  lemma AdjustHints(g: Geo, s: seq<Byte>, delta: int, next: nat)
    requires |s| == SECTOR && g.count + 2 <= 0x1_0000_0000
    ensures var r := AdjustSector(g, s, delta, next);
      && (IsInfo(s) ==> Le32(r, 492) == if next < g.count + 2 then next else 2)
      && (!IsInfo(s) ==> r == s)
      && forall i :: 0 <= i < 488 || 496 <= i < SECTOR ==> r[i] == s[i]
  {
    hide IsInfo, Splice, Bytes32;
    if IsInfo(s) {
      var n := Le32(s, 488);
      var h := Bytes32(if next < g.count + 2 then next else 2);
      var w := Bytes32((n + delta) % 0x1_0000_0000);
      var t := if n != UNKNOWN then Splice(s, 488, w) else s;
      SpliceAt(s, 488, w);
      SpliceAt(t, 492, h);
      assert Le32(Splice(t, 492, h), 492) == Le32(h, 0);
    }
  }

  /** Writing one of the two fields keeps the signatures and the other field. */
  lemma InfoField(s: seq<Byte>, i: nat, t: seq<Byte>)
    requires |s| == SECTOR && |t| == 4 && (i == 488 || i == 492)
    ensures IsInfo(Splice(s, i, t)) == IsInfo(s)
    ensures Le32(Splice(s, i, t), 488) == if i == 488 then Le32(t, 0) else Le32(s, 488)
  {
    hide Splice;
    SpliceAt(s, i, t);
  }

  /** How often an adjustment touches a reserved sector. */
  function Adjustments(g: Geo, q: nat): nat {
    if g.kind != Fat32 || !InUse(g.info) then 0
    else (if q == g.info then 1 else 0) + (if InUse(g.backup) && q == g.backup + 1 then 1 else 0)
  }

  /** A free-space sector whose count is right. */
  ghost predicate Tracks(g: Geo, m: Vol, q: nat)
    requires Shape(g, m)
  {
    q < g.reserved && CountIn(m.reserved[q]) == Known(|ZeroSet(m.fat)|)
  }

  /** Every free-space sector that is adjusted once per change keeps a right count. */
  ghost predicate Conserves(g: Geo, m: Vol, after: Vol)
    requires Shape(g, m) && Shape(g, after)
  {
    forall q :: 0 <= q < g.reserved && Adjustments(g, q) == 1 && Tracks(g, m, q) ==> Tracks(g, after, q)
  }

  /** Counting a cluster more or less keeps a right count right exactly in sectors that are adjusted once. */
  lemma TracksExactly(g: Geo, m: Vol, after: Vol, delta: int, next: nat, q: nat)
    requires Shape(g, m) && Shape(g, after) && Tracks(g, m, q) && g.count + 2 <= Range(g.kind)
    requires (delta == 1 || delta == -1)
    requires after.reserved == AdjustInfo(g, m.reserved, delta, next)
    requires |ZeroSet(after.fat)| == |ZeroSet(m.fat)| + delta
    ensures Adjustments(g, q) == 1 <==> Tracks(g, after, q)
  {
    hide AdjustSector, CountIn, ZeroSet;
    var s := m.reserved[q];
    ZerosBounded(m.fat);
    ZerosBounded(after.fat);
    AdjustMoves(g, s, delta, next);
    if Adjustments(g, q) == 2 {
      AdjustTwice(g, s, delta, next);
    }
  }

  /** Two adjustments of a count do not amount to one. */
  lemma AdjustTwice(g: Geo, s: seq<Byte>, delta: int, next: nat)
    requires |s| == SECTOR && CountIn(s).Known? && CountIn(s).n < 0x1000_0000 && (delta == 1 || delta == -1)
    requires 0 <= CountIn(s).n + delta
    ensures CountIn(AdjustSector(g, AdjustSector(g, s, delta, next), delta, next)) != Known(CountIn(s).n + delta)
  {
    hide IsInfo, Le32, Splice, Bytes32;
    AdjustMoves(g, s, delta, next);
    var t := AdjustSector(g, s, delta, next);
    if CountIn(t).n + delta >= 0 {
      AdjustMoves(g, t, delta, next);
    } else {
      AdjustBelowZero(g, t, next);
    }
  }

  /** A count of zero turns into the mark of an unknown count. */
  lemma AdjustBelowZero(g: Geo, s: seq<Byte>, next: nat)
    requires |s| == SECTOR && CountIn(s) == Known(0)
    ensures CountIn(AdjustSector(g, s, -1, next)) == Unknown
  {
    hide IsInfo, Le32, Splice, Bytes32;
    var w := Bytes32(UNKNOWN);
    InfoField(s, 488, w);
    InfoField(Splice(s, 488, w), 492, Bytes32(if next < g.count + 2 then next else 2));
  }

  lemma ZerosBounded(fat: seq<nat>)
    requires |fat| >= 2
    ensures |ZeroSet(fat)| <= |fat| - 2
  {
    Subset(ZeroSet(fat), Upto(|fat| - 2));
  }

  function AdjustView(g: Geo, m: Vol, delta: int, next: nat): Vol
    requires Full(m.reserved) && |m.reserved| == g.reserved
  {
    m.(reserved := AdjustInfo(g, m.reserved, delta, next))
  }

  method AdjustInfoSector(v: Volume, q: nat, delta: int, next: nat)
    requires v.Ok() && v.g.kind == Fat32
    modifies v`disk
    ensures v.Ok() && v.View() == old(v.View()).(reserved := AdjustAt(v.g, old(v.View()).reserved, q, delta, next))
  {
    if q < v.g.reserved {
      var s := v.ReadReserved(q);
      var r := AdjustSector(v.g, s, delta, next);
      v.WriteReserved(q, r);
    }
  }

  /** Moves the free count in both free-space sectors. */
  method AdjustInfoSectors(v: Volume, delta: int, next: nat)
    requires v.Ok()
    modifies v`disk
    ensures v.Ok() && v.View() == AdjustView(v.g, old(v.View()), delta, next)
  {
    hide v.Ok, v.View, AdjustAt;
    if v.g.kind == Fat32 && InUse(v.g.info) {
      AdjustInfoSector(v, v.g.info, delta, next);
      if InUse(v.g.backup) {
        AdjustInfoSector(v, v.g.backup + 1, delta, next);
      }
    }
  }

  function ZeroCluster(g: Geo): (d: Disk)
    ensures |d| == g.spc && forall i :: 0 <= i < |d| ==> d[i] == Zeros(SECTOR)
  {
    seq(g.spc, _ => Zeros(SECTOR))
  }

  /** The first free cluster from c on; past the last cluster if there is none. */
  function FirstFree(g: Geo, fat: seq<nat>, c: nat): (r: nat)
    requires |fat| == g.count + 2 && 2 <= c <= g.count + 2
    ensures c <= r <= g.count + 2 && (r < g.count + 2 ==> fat[r] == 0) && forall x :: c <= x < r ==> fat[x] != 0
    decreases g.count + 2 - c
  {
    if c == g.count + 2 || fat[c] == 0 then c else FirstFree(g, fat, c + 1)
  }

  /** A free cluster taken: marked as the end of a chain, zeroed and counted. */
  function Alloc(g: Geo, m: Vol, c: nat): (r: Vol)
    requires |m.reserved| == g.reserved && Full(m.reserved) && c < |m.fat| && c < |m.data|
  {
    AdjustView(g, m.(fat := m.fat[c := Eoc(g.kind)], data := m.data[c := ZeroCluster(g)]), -1, c + 1)
  }

  /** A volume with some of the sectors of a cluster zeroed. */
  function ZeroedTo(m: Vol, c: nat, n: nat): Vol
    requires c < |m.data| && n <= |m.data[c]|
  {
    m.(data := m.data[c := seq(n, _ => Zeros(SECTOR)) + m.data[c][n..]])
  }

  lemma ZeroedNext(m: Vol, c: nat, n: nat)
    requires c < |m.data| && n < |m.data[c]|
    ensures PutData(ZeroedTo(m, c, n), c, n, Zeros(SECTOR)) == ZeroedTo(m, c, n + 1)
  {
    assert (seq(n, _ => Zeros(SECTOR)) + m.data[c][n..])[n := Zeros(SECTOR)] ==
           seq(n + 1, _ => Zeros(SECTOR)) + m.data[c][n + 1..];
  }

  lemma ZeroedEnds(g: Geo, m: Vol, c: nat)
    requires c < |m.data| && |m.data[c]| == g.spc
    ensures ZeroedTo(m, c, 0) == m && ZeroedTo(m, c, g.spc) == m.(data := m.data[c := ZeroCluster(g)])
  {
    assert seq(0, _ => Zeros(SECTOR)) + m.data[c][0..] == m.data[c];
    assert m.data[c := m.data[c]] == m.data;
    assert seq(g.spc, _ => Zeros(SECTOR)) + m.data[c][g.spc..] == ZeroCluster(g);
  }

  method ZeroSectors(v: Volume, c: nat)
    requires v.Ok() && Valid(v.g, c)
    modifies v`disk
    ensures v.Ok() && v.View() == old(v.View()).(data := old(v.View()).data[c := ZeroCluster(v.g)])
  {
    hide v.Ok, v.View, PutData, ZeroedTo;
    ghost var m := v.View();
    ZeroedEnds(v.g, m, c);
    var s := 0;
    while s < v.g.spc
      invariant 0 <= s <= v.g.spc && v.Ok() && v.View() == ZeroedTo(m, c, s)
    {
      ZeroedNext(m, c, s);
      v.WriteData(c, s, Zeros(SECTOR));
      s := s + 1;
    }
  }

  /** Takes the first free cluster; zero if there is none. */
  method AllocCluster(v: Volume) returns (c: nat)
    requires v.Ok()
    modifies v`disk
    ensures v.Ok()
    ensures c == 0 ==> v.View() == old(v.View()) && FirstFree(v.g, v.View().fat, 2) == v.g.count + 2
    ensures c != 0 ==>
      c == FirstFree(v.g, old(v.View()).fat, 2) && Valid(v.g, c) && v.View() == Alloc(v.g, old(v.View()), c)
  {
    hide v.Ok, v.View, ZeroCluster;
    c := 2;
    while c < v.g.count + 2
      invariant 2 <= c <= v.g.count + 2 && v.Ok() && v.View() == old(v.View())
      invariant FirstFree(v.g, v.View().fat, 2) == FirstFree(v.g, v.View().fat, c)
    {
      var x := v.FatGet(c);
      if x == 0 {
        v.FatSet(c, Eoc(v.g.kind));
        ZeroSectors(v, c);
        AdjustInfoSectors(v, -1, c + 1);
        return;
      }
      c := c + 1;
    }
    c := 0;
  }

  /** The chain loop on the whole volume: every round counts a cluster. */
  function FreeView(g: Geo, m: Vol, c: nat): (r: Vol)
    requires |m.fat| == g.count + 2 && |m.reserved| == g.reserved && Full(m.reserved)
    ensures r.fat == FreeChain(g, m.fat, c) && r.root == m.root && r.data == m.data
    ensures |r.reserved| == g.reserved && Full(r.reserved)
    decreases NonZero(m.fat)
  {
    if !Valid(g, c) then m
    else
      var n := AdjustView(g, PutFat(m, c, 0), 1, c);
      if !Valid(g, m.fat[c]) then n
      else
        assert NonZero(n.fat) < NonZero(m.fat) by { assert c in NonZero(m.fat); }
        FreeView(g, n, m.fat[c])
  }

  /** Frees the chain from a cluster, whatever the FAT holds. */
  method FreeClusters(v: Volume, first: nat)
    requires v.Ok()
    modifies v`disk
    ensures v.Ok() && v.View() == FreeView(v.g, old(v.View()), first)
  {
    hide v.Ok, v.View, AdjustInfo;
    ghost var m := FreeView(v.g, v.View(), first);
    var c: nat := first;
    while 2 <= c < v.g.count + 2
      invariant v.Ok() && FreeView(v.g, v.View(), c) == m
      decreases NonZero(v.View().fat)
    {
      ghost var t := v.View().fat;
      var next := v.FatGet(c);
      v.FatSet(c, 0);
      AdjustInfoSectors(v, 1, c);
      if IsEoc(v.g.kind, next) || next < 2 {
        assert !Valid(v.g, next) by { EocInvalid(v, next); }
        return;
      }
      assert NonZero(v.View().fat) < NonZero(t) by { assert c in NonZero(t); }
      c := next;
    }
  }

  lemma EocInvalid(v: Volume, x: nat)
    requires v.Ok() && (IsEoc(v.g.kind, x) || x < 2)
    ensures !Valid(v.g, x)
  {
  }

  lemma AllocConserves(g: Geo, m: Vol, c: nat)
    requires Shape(g, m) && g.count + 2 <= Range(g.kind) && Valid(g, c) && m.fat[c] == 0
    ensures Shape(g, Alloc(g, m, c)) && Conserves(g, m, Alloc(g, m, c))
  {
    hide AdjustInfo, CountIn;
    var a := Alloc(g, m, c);
    assert ZeroSet(a.fat) == ZeroSet(m.fat) - {c};
    forall q | 0 <= q < g.reserved && Adjustments(g, q) == 1 && Tracks(g, m, q) ensures Tracks(g, a, q) {
      TracksExactly(g, m, a, -1, c + 1, q);
    }
  }

  lemma {:induction false} FreeCounts(g: Geo, m: Vol, c: nat, q: nat)
    requires |m.fat| == g.count + 2 && |m.reserved| == g.reserved && Full(m.reserved) && q < g.reserved
    requires Adjustments(g, q) == 1
    requires CountIn(m.reserved[q]).Known? && CountIn(m.reserved[q]).n + FreeRounds(g, m.fat, c) < UNKNOWN
    ensures CountIn(FreeView(g, m, c).reserved[q]) == Known(CountIn(m.reserved[q]).n + FreeRounds(g, m.fat, c))
    decreases NonZero(m.fat)
  {
    hide AdjustSector, CountIn;
    if Valid(g, c) {
      AdjustMoves(g, m.reserved[q], 1, c);
      var n := AdjustView(g, PutFat(m, c, 0), 1, c);
      if Valid(g, m.fat[c]) {
        assert NonZero(n.fat) < NonZero(m.fat) by { assert c in NonZero(m.fat); }
        FreeCounts(g, n, m.fat[c], q);
      }
    }
  }

  /** Freeing keeps a right count right exactly when the chain does not end on a free cluster or a cycle. */
  lemma FreeTracksExactly(g: Geo, m: Vol, c: nat, q: nat)
    requires Shape(g, m) && g.count + 2 <= Range(g.kind) && Tracks(g, m, q) && Adjustments(g, q) == 1
    ensures Shape(g, FreeView(g, m, c)) && (Tracks(g, FreeView(g, m, c), q) <==> !EndsOnZero(g, m.fat, c))
  {
    hide CountIn, ZeroSet, FreeView;
    FreeShape(g, m, c);
    RoundsCountFreed(g, m.fat, c);
    ZerosBounded(m.fat);
    ZerosBounded(FreeChain(g, m.fat, c));
    FreeCounts(g, m, c, q);
  }

  lemma FreeShape(g: Geo, m: Vol, c: nat)
    requires Shape(g, m)
    ensures Shape(g, FreeView(g, m, c))
  {
    FreesExactlyReached(g, m.fat, c);
  }

  lemma FreeConserves(g: Geo, m: Vol, c: nat)
    requires Shape(g, m) && g.count + 2 <= Range(g.kind) && !EndsOnZero(g, m.fat, c)
    ensures Shape(g, FreeView(g, m, c)) && Conserves(g, m, FreeView(g, m, c))
  {
    hide FreeView, Tracks, Adjustments;
    FreeShape(g, m, c);
    forall q | 0 <= q < g.reserved && Adjustments(g, q) == 1 && Tracks(g, m, q)
      ensures Tracks(g, FreeView(g, m, c), q)
    {
      FreeTracksExactly(g, m, c, q);
    }
  }
}
