/** The bytes of a file: reading a chain with the cycle detector, on any FAT content. */
module FatData {
  import opened Bytes
  import opened Geometry
  import opened FatCodec
  import opened FatDisk
  import opened FatChains
  import opened FatCycle
  import opened FatVolume

  /** The bytes of sectors in a row. */
  ghost function Join(d: Disk): (r: seq<Byte>)
    requires Full(d)
    ensures |r| == 512 * |d|
  {
    if d == [] then [] else Join(d[..|d| - 1]) + d[|d| - 1]
  }

  function Take(s: seq<Byte>, n: nat): (r: seq<Byte>)
    ensures |r| == (if |s| <= n then |s| else n) && r <= s
  {
    if |s| <= n then s else s[..n]
  }

  /** The bytes of j clusters. */
  function Span(g: Geo, j: nat): (n: nat)
    ensures j > 0 && g.spc > 0 ==> n > 0
  {
    if j == 0 then 0 else Span(g, j - 1) + 512 * g.spc
  }

  /** The clusters that hold a number of bytes. */
  function Needed(g: Geo, size: nat): (k: nat)
    requires g.spc > 0
    ensures Span(g, k) >= size && (k > 0 ==> Span(g, k - 1) < size)
  {
    if size == 0 then 0
    else if size <= 512 * g.spc then assert Span(g, 1) == 512 * g.spc; 1
    else 1 + Needed(g, size - 512 * g.spc)
  }

  lemma {:induction false} SpanGrows(g: Geo, i: nat, j: nat)
    requires g.spc > 0 && i < j
    ensures Span(g, i) < Span(g, j)
  {
    if i < j - 1 { SpanGrows(g, i, j - 1); }
  }

  lemma NeededUnique(g: Geo, size: nat, k: nat)
    requires g.spc > 0 && Span(g, k) >= size && (k > 0 ==> Span(g, k - 1) < size)
    ensures k == Needed(g, size)
  {
    var n := Needed(g, size);
    if k < n && k < n - 1 { SpanGrows(g, k, n - 1); }
    if n < k && n < k - 1 { SpanGrows(g, n, k - 1); }
  }

  /** The bytes of the first j clusters that the links lead to. */
  ghost function Gather(g: Geo, m: Vol, c: nat, j: nat): (r: seq<Byte>)
    requires Shape(g, m)
  {
    if j == 0 then []
    else
      var x := Link(g, m.fat, c, j - 1);
      Gather(g, m, c, j - 1) + (if Valid(g, x) then Join(m.data[x]) else [])
  }

  lemma {:induction false} GatherLength(g: Geo, m: Vol, c: nat, j: nat)
    requires Shape(g, m) && forall i :: 0 <= i < j ==> Valid(g, Link(g, m.fat, c, i))
    ensures |Gather(g, m, c, j)| == Span(g, j)
  {
    if j > 0 { GatherLength(g, m, c, j - 1); }
  }

  /** A link at which reading stops: outside the valid clusters, or where the cycle detector fires. */
  ghost predicate Bad(g: Geo, fat: seq<nat>, c: nat, j: nat)
    requires |fat| == g.count + 2
  {
    !Valid(g, Link(g, fat, c, j)) || Fires(g, fat, c, j)
  }

  /** No bad link among the first n. */
  ghost predicate Sound(g: Geo, fat: seq<nat>, c: nat, n: nat)
    requires |fat| == g.count + 2
  {
    forall j :: 0 <= j < n ==> !Bad(g, fat, c, j)
  }

  /** Reads the sectors of a cluster until the size is reached. */
  method ReadCluster(v: Volume, c: nat, size: nat, before: seq<Byte>) returns (bytes: seq<Byte>)
    requires v.Ok() && Valid(v.g, c) && |before| < size
    ensures bytes == Take(before + Join(v.View().data[c]), size)
  {
    hide v.Ok, v.View, Take, Join;
    ghost var d := v.View().data[c];
    bytes := before;
    var s := 0;
    TakeStart(d, before, size);
    while s < v.g.spc && |bytes| < size
      invariant 0 <= s <= v.g.spc && bytes == Take(before + Join(d[..s]), size)
    {
      var sec := v.ReadData(c, s);
      var n := if size - |bytes| > SECTOR then SECTOR else size - |bytes|;
      TakeStep(d, before, size, s);
      bytes := bytes + sec[..n];
      s := s + 1;
    }
    TakeEnd(d, before, size, s);
  }

  lemma TakeStart(d: Disk, before: seq<Byte>, size: nat)
    requires Full(d) && |before| <= size
    ensures before == Take(before + Join(d[..0]), size)
  {
    assert before + Join(d[..0]) == before;
  }

  lemma TakeStep(d: Disk, before: seq<Byte>, size: nat, s: nat)
    requires Full(d) && s < |d| && |Take(before + Join(d[..s]), size)| < size
    ensures var bytes := Take(before + Join(d[..s]), size);
      Take(before + Join(d[..s + 1]), size) ==
      bytes + d[s][..if size - |bytes| > SECTOR then SECTOR else size - |bytes|]
  {
    assert d[..s + 1][..s] == d[..s];
    assert before + Join(d[..s + 1]) == before + Join(d[..s]) + d[s];
  }

  lemma TakeEnd(d: Disk, before: seq<Byte>, size: nat, s: nat)
    requires Full(d) && s <= |d| && (s == |d| || |Take(before + Join(d[..s]), size)| >= size)
    ensures Take(before + Join(d[..s]), size) == Take(before + Join(d), size)
  {
    JoinPrefix(d, s);
    assert s == |d| ==> d[..s] == d;
  }

  lemma {:induction false} JoinPrefix(d: Disk, s: nat)
    requires Full(d) && s <= |d|
    ensures Join(d[..s]) <= Join(d)
    decreases |d| - s
  {
    if s == |d| {
      assert d[..s] == d;
    } else {
      JoinPrefix(d, s + 1);
      assert d[..s + 1][..s] == d[..s];
    }
  }

  /** The value after c, if it is a valid cluster; zero otherwise. */
  method CheckedNext(v: Volume, c: nat) returns (next: nat)
    requires v.Ok() && Valid(v.g, c)
    ensures if Valid(v.g, v.View().fat[c]) then next == v.View().fat[c] else next == 0
  {
    next := v.FatGet(c);
    if IsEoc(v.g.kind, next) || !Valid(v.g, next) { next := 0; }
  }

  datatype ReadResult = ReadResult(ok: bool, done: nat, bytes: seq<Byte>)

  /** The state of a read after j links, none of them bad. */
  ghost predicate Reading(g: Geo, m: Vol, first: nat, j: nat, c: nat, k: nat, anchor: nat, power: nat, length: nat)
    requires Shape(g, m)
  {
    && c == Link(g, m.fat, first, j) && (forall i :: 1 <= i <= j ==> !Bad(g, m.fat, first, i))
    && power == Pow2(k) && length < power && j == power - 1 + length && anchor == Link(g, m.fat, first, power - 1)
  }

  /** Following one more link, with the detector's comparison and move. */
  lemma ReadingNext(g: Geo, m: Vol, first: nat, j: nat, c: nat, k: nat, anchor: nat, power: nat, length: nat)
    requires Shape(g, m) && Valid(g, c) && Reading(g, m, first, j, c, k, anchor, power, length)
    ensures Link(g, m.fat, first, j + 1) == m.fat[c]
    ensures Valid(g, m.fat[c]) ==> (Bad(g, m.fat, first, j + 1) <==> m.fat[c] == anchor)
    ensures Valid(g, m.fat[c]) && m.fat[c] != anchor ==>
      if length + 1 == power then Reading(g, m, first, j + 1, m.fat[c], k + 1, m.fat[c], 2 * power, 0)
      else Reading(g, m, first, j + 1, m.fat[c], k, anchor, power, length + 1)
  {
    LogUnique(j + 1, k);
  }

  /** Reads a file's bytes. It succeeds exactly when no link needed is bad, and then returns the first bytes
      of the clusters visited; a failure stops at the first bad link, after the clusters before it. */
  method ReadChain(v: Volume, first: nat, size: nat) returns (r: ReadResult)
    requires v.Ok()
    ensures r.ok <==> Sound(v.g, v.View().fat, first, Needed(v.g, size))
    ensures r.ok ==>
      r.done == size && r.bytes == Take(Gather(v.g, v.View(), first, Needed(v.g, size)), size) && |r.bytes| == size
    ensures !r.ok ==> exists j: nat :: j < Needed(v.g, size) && StopsAt(v.g, v.View(), first, j, r)
  {
    hide v.Ok, v.View, Link, Bad, Sound, Pow2, Reading, Take, Gather, Span;
    ghost var m := v.View();
    var c, bytes: seq<Byte> := first, [];
    var anchor: nat, power: nat, length: nat := c, 1, 0;
    ghost var j: nat, k: nat := 0, 0;
    ReadStarts(v.g, m, first);
    while |bytes| < size
      invariant |bytes| < size ==>
        InRead(v.g, m, first, j, bytes) && Reading(v.g, m, first, j, c, k, anchor, power, length)
      invariant |bytes| >= size ==> |bytes| == size && ReadDone(v.g, m, first, size, bytes)
    {
      if !Valid(v.g, c) {
        ReadStops(v.g, m, first, j, c, k, anchor, power, length, size, bytes);
        return ReadResult(false, |bytes|, bytes);
      }
      ReadGrows(v.g, m, first, j, c, k, anchor, power, length, size, bytes);
      bytes := ReadCluster(v, c, size, bytes);
      if |bytes| < size {
        var next := CheckedNext(v, c);
        ReadingNext(v.g, m, first, j, c, k, anchor, power, length);
        NeededBeyond(v.g, size, j + 1);
        if next == 0 || next == anchor {
          BadLink(v.g, m, first, j + 1, m.fat[c], Needed(v.g, size));
          r := ReadResult(false, |bytes|, bytes);
          assert StopsAt(v.g, m, first, j + 1, r);
          return;
        }
        c, length, j := next, length + 1, j + 1;
        if length == power { anchor, power, length, k := c, 2 * power, 0, k + 1; }
      }
    }
    r := ReadResult(true, |bytes|, bytes);
  }

  /** What a read has when it goes on: all the bytes of j sound clusters. */
  ghost predicate InRead(g: Geo, m: Vol, first: nat, j: nat, bytes: seq<Byte>)
    requires Shape(g, m)
  {
    Sound(g, m.fat, first, j) && bytes == Gather(g, m, first, j) && |bytes| == Span(g, j)
  }

  /** What a read has when it ends. */
  ghost predicate ReadDone(g: Geo, m: Vol, first: nat, size: nat, bytes: seq<Byte>)
    requires Shape(g, m) && g.spc > 0
  {
    Sound(g, m.fat, first, Needed(g, size)) && bytes == Take(Gather(g, m, first, Needed(g, size)), size)
  }

  lemma ReadStarts(g: Geo, m: Vol, first: nat)
    requires Shape(g, m) && g.spc > 0
    ensures InRead(g, m, first, 0, []) && Reading(g, m, first, 0, first, 0, first, 1, 0) && ReadDone(g, m, first, 0, [])
  {
  }

  lemma BadLink(g: Geo, m: Vol, first: nat, j: nat, x: nat, n: nat)
    requires Shape(g, m) && Link(g, m.fat, first, j) == x && (!Valid(g, x) || Bad(g, m.fat, first, j)) && j < n
    ensures Bad(g, m.fat, first, j) && !Sound(g, m.fat, first, n)
  {
    assert Bad(g, m.fat, first, j);
  }

  lemma NeededBeyond(g: Geo, size: nat, j: nat)
    requires g.spc > 0
    ensures Span(g, j) < size ==> j < Needed(g, size)
  {
    if Needed(g, size) < j { SpanGrows(g, Needed(g, size), j); }
  }

  lemma ReadStops(g: Geo, m: Vol, first: nat, j: nat, c: nat, k: nat, anchor: nat, power: nat, length: nat, size: nat,
                  bytes: seq<Byte>)
    requires Shape(g, m) && g.spc > 0 && !Valid(g, c) && |bytes| < size
    requires InRead(g, m, first, j, bytes) && Reading(g, m, first, j, c, k, anchor, power, length)
    ensures j < Needed(g, size) && StopsAt(g, m, first, j, ReadResult(false, |bytes|, bytes))
    ensures !Sound(g, m.fat, first, Needed(g, size))
  {
    hide Pow2, Fires;
    NeededBeyond(g, size, j);
  }

  /** After one more cluster the read is over or has the bytes of j + 1 sound clusters. */
  lemma ReadGrows(g: Geo, m: Vol, first: nat, j: nat, c: nat, k: nat, anchor: nat, power: nat, length: nat, size: nat,
                  bytes: seq<Byte>)
    requires Shape(g, m) && g.spc > 0 && Valid(g, c) && |bytes| < size
    requires InRead(g, m, first, j, bytes) && Reading(g, m, first, j, c, k, anchor, power, length)
    ensures var more := Take(bytes + Join(m.data[c]), size);
      |more| <= size && if |more| < size then InRead(g, m, first, j + 1, more) else ReadDone(g, m, first, size, more)
  {
    hide Pow2, Join;
    assert Sound(g, m.fat, first, j + 1);
    assert bytes + Join(m.data[c]) == Gather(g, m, first, j + 1);
    forall i: nat | i < j + 1 ensures Valid(g, Link(g, m.fat, first, i)) { assert !Bad(g, m.fat, first, i); }
    GatherLength(g, m, first, j + 1);
    if Span(g, j + 1) >= size { NeededUnique(g, size, j + 1); }
  }

  /** A read that got through j whole clusters and found link j bad. */
  ghost predicate StopsAt(g: Geo, m: Vol, first: nat, j: nat, r: ReadResult)
    requires Shape(g, m)
  {
    && Sound(g, m.fat, first, j) && Bad(g, m.fat, first, j)
    && r.bytes == Gather(g, m, first, j) && r.done == Span(g, j)
  }

  /** On a tail of m and a cycle of n clusters, reading gets through exactly the links before 2^k - 1 + n. */
  lemma CyclicRead(g: Geo, fat: seq<nat>, c: nat, m: nat, n: nat, k: nat, needed: nat)
    requires |fat| == g.count + 2 && n >= 1 && Rho(g, fat, c, m, n) && Least(m, n, k)
    ensures Sound(g, fat, c, needed) <==> needed <= Pow2(k) - 1 + n
  {
    hide Link, Rho, Fires;
    FiresExactly(g, fat, c, m, n, k);
    assert Bad(g, fat, c, Pow2(k) - 1 + n);
    forall j: nat | j < Pow2(k) - 1 + n ensures !Bad(g, fat, c, j) {
      FoldLink(g, fat, c, m, n, j);
    }
  }

  /** A chain that reaches its end mark is read whenever it is long enough. */
  lemma ChainSound(g: Geo, fat: seq<nat>, ch: seq<nat>, needed: nat)
    requires TableOk(g, fat) && IsChain(g, fat, ch)
    ensures Sound(g, fat, ch[0], needed) <==> needed <= |ch|
  {
    hide Link, Fires;
    assert |ch| > 0;
    forall j: nat | j < |ch| ensures !Bad(g, fat, ch[0], j) {
      ChainLinks(g, fat, ch, j);
      NoFalseAlarm(g, fat, ch, j);
      ChainValid(g, fat, ch, j);
    }
    ChainLinks(g, fat, ch, |ch|);
    assert Bad(g, fat, ch[0], |ch|);
  }

  lemma ChainValid(g: Geo, fat: seq<nat>, ch: seq<nat>, j: nat)
    requires |fat| == g.count + 2 && IsChain(g, fat, ch) && j < |ch|
    ensures Valid(g, ch[j])
  {
  }


  /** The sectors in a row, byte by byte. */
  lemma {:induction false} JoinAt(d: Disk, i: nat)
    requires Full(d) && i < 512 * |d|
    ensures Join(d)[i] == d[i / 512][i % 512]
  {
    var n := |d| - 1;
    if i < 512 * n {
      JoinAt(d[..n], i);
    } else {
      assert i / 512 == n && i % 512 == i - 512 * n;
    }
  }

  /** The bytes of a cluster are 512 for each of its sectors. */
  lemma {:induction false} SpanIs(g: Geo, j: nat)
    ensures Span(g, j) == 512 * g.spc * j
  {
    if j > 0 { SpanIs(g, j - 1); }
  }

  /** Clusters in a row, byte by byte: byte i of the k-th one. */
  lemma {:induction false} GatherAt(g: Geo, m: Vol, c: nat, j: nat, k: nat, i: nat)
    requires Shape(g, m) && (forall x :: 0 <= x < j ==> Valid(g, Link(g, m.fat, c, x))) && k < j && i < 512 * g.spc
    ensures Span(g, k) + i < |Gather(g, m, c, j)| && Valid(g, Link(g, m.fat, c, k))
    ensures Gather(g, m, c, j)[Span(g, k) + i] == m.data[Link(g, m.fat, c, k)][i / 512][i % 512]
  {
    hide Join, FullCluster, Full, Link;
    GatherLength(g, m, c, j - 1);
    ClusterAt(g, m, Link(g, m.fat, c, k), i);
    if k < j - 1 { GatherAt(g, m, c, j - 1, k, i); }
  }

  lemma ClusterAt(g: Geo, m: Vol, x: nat, i: nat)
    requires Shape(g, m) && Valid(g, x) && i < 512 * g.spc
    ensures x < |m.data| && Full(m.data[x]) && |m.data[x]| == g.spc
    ensures Join(m.data[x])[i] == m.data[x][i / 512][i % 512]
  {
    hide Join;
    assert FullCluster(g, m.data[x]);
    JoinAt(m.data[x], i);
  }
}
