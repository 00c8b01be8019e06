/** Reading a file by name, and what keeps the outcome of a read. */
module FatRead {
  import opened Bytes
  import opened Geometry
  import opened FatDisk
  import opened FatChains
  import opened FatVolume
  import opened FatData
  import opened FatDir
  import opened FatName
  import opened FatLookup
  import opened FatTree

  datatype Outcome = Refused | TooBig(size: nat) | Broken(bytes: seq<Byte>) | Contents(bytes: seq<Byte>)

  /** The first bad link from the j-th on, or n. */
  ghost function FirstBad(g: Geo, fat: seq<nat>, c: nat, j: nat, n: nat): (r: nat)
    requires |fat| == g.count + 2 && j <= n
    ensures j <= r <= n && (r < n ==> Bad(g, fat, c, r)) && forall i :: j <= i < r ==> !Bad(g, fat, c, i)
    decreases n - j
  {
    if j == n then n else if Bad(g, fat, c, j) then j else FirstBad(g, fat, c, j + 1, n)
  }

  ghost function FileOutcome(g: Geo, m: Vol, c: nat, size: nat): Outcome
    requires Shape(g, m) && g.spc > 0
  {
    var n := Needed(g, size);
    var stop := FirstBad(g, m.fat, c, 0, n);
    if stop == n then Contents(Take(Gather(g, m, c, n), size)) else Broken(Gather(g, m, c, stop))
  }

  /** What reading a name in a directory comes to. */
  ghost function ReadOutcome(g: Geo, m: Vol, dir: seq<Slot>, name: seq<Byte>, max: nat): Outcome
    requires Shape(g, m) && g.spc > 0 && SlotsOk(dir)
  {
    match FindFrom(dir, name, 0)
    case Missing => Refused
    case Found(i) =>
      if IsDirectory(dir[i]) then Refused
      else if SizeOf(dir[i]) > max then TooBig(SizeOf(dir[i]))
      else FileOutcome(g, m, FirstCluster(g.kind, dir[i]), SizeOf(dir[i]))
  }

  /** Reads a file of the current directory, on any volume whose directory chain is sound. */
  method Read(v: Volume, name: seq<Byte>, max: nat, ghost ch: seq<nat>) returns (o: Outcome)
    requires v.Ok() && Located(v.g, v.View(), v.current, ch) && ListingOk(v.g, v.View(), ch)
    ensures o == ReadOutcome(v.g, v.View(), Listing(v.g, v.View(), ch), Sfn(name), max)
  {
    hide v.Ok, v.View, Listing, Located, ListingOk, Gather, Take, Bad;
    var r, e := FindEntry(v, v.current, name, ch);
    if r == Missing || IsDirectory(e) { return Refused; }
    if SizeOf(e) > max { return TooBig(SizeOf(e)); }
    var c := FirstCluster(v.g.kind, e);
    var x := ReadChain(v, c, SizeOf(e));
    OutcomeIs(v.g, v.View(), c, SizeOf(e), x);
    o := if x.ok then Contents(x.bytes) else Broken(x.bytes);
  }

  lemma OutcomeIs(g: Geo, m: Vol, c: nat, size: nat, r: ReadResult)
    requires Shape(g, m) && g.spc > 0 && (r.ok <==> Sound(g, m.fat, c, Needed(g, size)))
    requires r.ok ==> r.bytes == Take(Gather(g, m, c, Needed(g, size)), size)
    requires !r.ok ==> exists j: nat :: j < Needed(g, size) && StopsAt(g, m, c, j, r)
    ensures FileOutcome(g, m, c, size) == if r.ok then Contents(r.bytes) else Broken(r.bytes)
  {
    hide Gather, Take, Bad;
    if !r.ok {
      var j: nat :| j < Needed(g, size) && StopsAt(g, m, c, j, r);
      assert FirstBad(g, m.fat, c, 0, Needed(g, size)) == j;
    }
  }

  /** A file whose clusters are as before reads as before. */
  lemma {:induction false} SameLinks(g: Geo, m: Vol, after: Vol, ch: seq<nat>, k: nat)
    requires Shape(g, m) && Shape(g, after) && TableOk(g, m.fat) && IsChain(g, m.fat, ch)
    requires forall x :: x in ch && x < |m.fat| ==> after.fat[x] == m.fat[x] && after.data[x] == m.data[x]
    ensures Link(g, after.fat, ch[0], k) == Link(g, m.fat, ch[0], k)
    ensures Gather(g, after, ch[0], k) == Gather(g, m, ch[0], k)
  {
    hide Shape, IsChain;
    if k > 0 {
      SameLinks(g, m, after, ch, k - 1);
      ChainLinks(g, m.fat, ch, k - 1);
    }
  }

  lemma {:induction false} NoLinks(g: Geo, m: Vol, after: Vol, c: nat, k: nat)
    requires Shape(g, m) && Shape(g, after) && !Valid(g, c)
    ensures Link(g, after.fat, c, k) == Link(g, m.fat, c, k) && (k > 0 ==> !Valid(g, Link(g, m.fat, c, k)))
    ensures Gather(g, after, c, k) == Gather(g, m, c, k)
  {
    if k > 0 { NoLinks(g, m, after, c, k - 1); }
  }

  /** A file's outcome depends on its links and the bytes they lead to. */
  lemma SameOutcome(g: Geo, m: Vol, after: Vol, c: nat, size: nat)
    requires Shape(g, m) && Shape(g, after) && g.spc > 0
    requires forall k: nat ::
      Link(g, after.fat, c, k) == Link(g, m.fat, c, k) && Gather(g, after, c, k) == Gather(g, m, c, k)
    ensures FileOutcome(g, after, c, size) == FileOutcome(g, m, c, size)
  {
    hide Link, Gather, Full, FullCluster;
    SameFirstBad(g, m.fat, after.fat, c, 0, Needed(g, size));
  }

  lemma {:induction false} SameFirstBad(g: Geo, fat: seq<nat>, after: seq<nat>, c: nat, j: nat, n: nat)
    requires |fat| == |after| == g.count + 2 && j <= n
    requires forall k: nat :: Link(g, after, c, k) == Link(g, fat, c, k)
    ensures FirstBad(g, after, c, j, n) == FirstBad(g, fat, c, j, n)
    decreases n - j
  {
    hide Link;
    if j < n {
      assert Bad(g, after, c, j) == Bad(g, fat, c, j);
      SameFirstBad(g, fat, after, c, j + 1, n);
    }
  }

  lemma FileSame(g: Geo, m: Vol, after: Vol, ch: seq<nat>, size: nat)
    requires Shape(g, m) && Shape(g, after) && g.spc > 0 && TableOk(g, m.fat) && IsChain(g, m.fat, ch)
    requires forall x :: x in ch && x < |m.fat| ==> after.fat[x] == m.fat[x] && after.data[x] == m.data[x]
    ensures FileOutcome(g, after, ch[0], size) == FileOutcome(g, m, ch[0], size)
  {
    hide Link, Gather, Full, FullCluster;
    forall k: nat
      ensures Link(g, after.fat, ch[0], k) == Link(g, m.fat, ch[0], k)
      ensures Gather(g, after, ch[0], k) == Gather(g, m, ch[0], k)
    {
      SameLinks(g, m, after, ch, k);
    }
    SameOutcome(g, m, after, ch[0], size);
  }

  lemma NoFileSame(g: Geo, m: Vol, after: Vol, c: nat, size: nat)
    requires Shape(g, m) && Shape(g, after) && g.spc > 0 && !Valid(g, c)
    ensures FileOutcome(g, after, c, size) == FileOutcome(g, m, c, size)
  {
    hide Link, Gather, Full, FullCluster;
    forall k: nat
      ensures Link(g, after.fat, c, k) == Link(g, m.fat, c, k) && Gather(g, after, c, k) == Gather(g, m, c, k)
    {
      NoLinks(g, m, after, c, k);
    }
    SameOutcome(g, m, after, c, size);
  }

  /** Writing a slot that matches a name neither before nor after does not change what the name finds. */
  lemma {:induction false} FindPut(dir: seq<Slot>, i: nat, e: Slot, name: seq<Byte>, k: nat)
    requires SlotsOk(dir) && ZeroTail(dir) && i < |dir| && |e| == SLOT && e[0] != 0
    requires !Matches(dir[i], name) && !Matches(e, name)
    ensures SlotsOk(dir[i := e]) && FindFrom(dir[i := e], name, k) == FindFrom(dir, name, k)
    decreases |dir| - k
  {
    hide Matches;
    if k < |dir| { FindPut(dir, i, e, name, k + 1); }
  }

  /** Nor does adding end marks. */
  lemma {:induction false} FindGrown(g: Geo, dir: seq<Slot>, name: seq<Byte>, k: nat)
    requires SlotsOk(dir) && k <= |dir|
    ensures SlotsOk(dir + EndMarks(g)) && FindFrom(dir + EndMarks(g), name, k) == FindFrom(dir, name, k)
    decreases |dir| - k
  {
    hide Matches;
    if k < |dir| {
      FindGrown(g, dir, name, k + 1);
    }
  }

  /** A new entry in the first free slot is what its name finds, if no earlier one matched. */
  lemma {:induction false} FindNew(dir: seq<Slot>, i: nat, e: Slot, name: seq<Byte>, k: nat)
    requires SlotsOk(dir) && k <= i < |dir| && i < MAX_SLOTS && |e| == SLOT && Matches(e, name)
    requires forall j :: k <= j < i ==> dir[j][0] != 0 && !Matches(dir[j], name)
    ensures FindFrom(dir[i := e], name, k) == Found(i)
    decreases i - k
  {
    if k < i { FindNew(dir, i, e, name, k + 1); }
  }

  /** Once the entry that a name finds is struck out, the name finds its next match, if there is one. */
  lemma {:induction false} FindStruck(dir: seq<Slot>, i: nat, e: Slot, name: seq<Byte>, k: nat)
    requires SlotsOk(dir) && k <= i && FindFrom(dir, name, k) == Found(i) && |e| == SLOT && e[0] == DELETED
    ensures SlotsOk(dir[i := e]) && FindFrom(dir[i := e], name, k) == FindFrom(dir, name, i + 1)
    decreases i - k
  {
    if k < i { FindStruck(dir, i, e, name, k + 1); } else { FindBeyond(dir, i, e, name, k + 1); }
  }

  lemma {:induction false} FindBeyond(dir: seq<Slot>, i: nat, e: Slot, name: seq<Byte>, k: nat)
    requires SlotsOk(dir) && i < |dir| && i < k && |e| == SLOT
    ensures SlotsOk(dir[i := e]) && FindFrom(dir[i := e], name, k) == FindFrom(dir, name, k)
    decreases |dir| - k
  {
    hide Matches;
    if k < |dir| { FindBeyond(dir, i, e, name, k + 1); }
  }


  /** The bytes of a file that is read, one by one: byte i of the k-th cluster of its chain. The read gives as many
      bytes as the entry says. */
  lemma FileBytes(g: Geo, m: Vol, ch: seq<nat>, size: nat)
    requires Shape(g, m) && g.spc > 0 && TableOk(g, m.fat) && IsChain(g, m.fat, ch) && size <= 512 * g.spc * |ch|
    ensures FileOutcome(g, m, ch[0], size).Contents? && |FileOutcome(g, m, ch[0], size).bytes| == size
    ensures forall k: nat, i: nat :: k < |ch| && i < 512 * g.spc && 512 * g.spc * k + i < size ==>
      Valid(g, ch[k]) && FileOutcome(g, m, ch[0], size).bytes[512 * g.spc * k + i] == m.data[ch[k]][i / 512][i % 512]
  {
    hide Link, Gather, Take, Bad, Join, Needed, Span;
    var n := Needed(g, size);
    NeededFits(g, size, |ch|);
    ChainSound(g, m.fat, ch, n);
    assert Sound(g, m.fat, ch[0], n);
    forall x | 0 <= x < n ensures Valid(g, Link(g, m.fat, ch[0], x)) {
      ChainLinks(g, m.fat, ch, x);
    }
    GatherLength(g, m, ch[0], n);
    assert FileOutcome(g, m, ch[0], size) == Contents(Take(Gather(g, m, ch[0], n), size));
    forall k: nat, i: nat | k < |ch| && i < 512 * g.spc && 512 * g.spc * k + i < size
      ensures Valid(g, ch[k]) &&
        FileOutcome(g, m, ch[0], size).bytes[512 * g.spc * k + i] == m.data[ch[k]][i / 512][i % 512]
    {
      SpanIs(g, k);
      ClusterNeeded(g, size, k);
      ChainLinks(g, m.fat, ch, k);
      GatherAt(g, m, ch[0], n, k, i);
    }
  }

  lemma NeededFits(g: Geo, size: nat, k: nat)
    requires g.spc > 0 && size <= 512 * g.spc * k
    ensures Needed(g, size) <= k
  {
    SpanIs(g, k);
    var n := Needed(g, size);
    if n > 0 && k != n - 1 { SpanOrder(g, k, n - 1); }
  }

  lemma SpanOrder(g: Geo, i: nat, j: nat)
    requires g.spc > 0 && i != j
    ensures Span(g, i) < Span(g, j) <==> i < j
  {
    if i < j { SpanGrows(g, i, j); } else { SpanGrows(g, j, i); }
  }

  lemma ClusterNeeded(g: Geo, size: nat, k: nat)
    requires g.spc > 0 && 512 * g.spc * k < size
    ensures k < Needed(g, size)
  {
    SpanIs(g, k);
    var n := Needed(g, size);
    if n < k { SpanGrows(g, n, k); }
  }

  /** A read never gives more than was asked for: a file that is larger is refused, with its size. */
  lemma ReadFits(g: Geo, m: Vol, dir: seq<Slot>, name: seq<Byte>, max: nat)
    requires Shape(g, m) && g.spc > 0 && SlotsOk(dir)
    ensures var r, o := FindFrom(dir, name, 0), ReadOutcome(g, m, dir, name, max);
      && (o == Refused <==> r == Missing || IsDirectory(dir[r.i]))
      && (o.TooBig? <==> o != Refused && SizeOf(dir[r.i]) > max)
      && (o.TooBig? ==> o.size == SizeOf(dir[r.i]))
      && (o.Contents? ==> |o.bytes| == SizeOf(dir[r.i]) <= max)
  {
    hide Gather, Take, Join, Needed, Span, FullCluster, Full;
    var r := FindFrom(dir, name, 0);
    if r.Found? && !IsDirectory(dir[r.i]) && SizeOf(dir[r.i]) <= max {
      var c, size := FirstCluster(g.kind, dir[r.i]), SizeOf(dir[r.i]);
      var n := Needed(g, size);
      if FirstBad(g, m.fat, c, 0, n) == n {
        forall x | 0 <= x < n ensures Valid(g, Link(g, m.fat, c, x)) { assert !Bad(g, m.fat, c, x); }
        GatherLength(g, m, c, n);
      }
    }
  }
}
