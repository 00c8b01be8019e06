/** Writing a file's bytes into a new chain of clusters. */
module FatWrite {
  import opened Bytes
  import opened Geometry
  import opened FatCodec
  import opened FatDisk
  import opened FatChains
  import opened FatVolume
  import opened FatSpace
  import opened FatData

  function Drop(s: seq<Byte>, n: nat): (r: seq<Byte>)
    ensures |r| == (if n <= |s| then |s| - n else 0)
  {
    if n <= |s| then s[n..] else []
  }

  /** The sector that holds the bytes from a position on, padded with zeros. */
  function SectorFrom(rest: seq<Byte>, n: nat): (r: seq<Byte>)
    ensures |r| == SECTOR
  {
    var t := Take(Drop(rest, n), SECTOR);
    t + Zeros(SECTOR - |t|)
  }

  /** The cluster that holds the first of the remaining bytes, padded with zeros. */
  function Piece(g: Geo, rest: seq<Byte>): (d: Disk)
    ensures |d| == g.spc && forall i :: 0 <= i < |d| ==> d[i] == SectorFrom(rest, 512 * i) && |d[i]| == SECTOR
  {
    seq(g.spc, i requires i >= 0 => SectorFrom(rest, 512 * i))
  }

  /** s and t hold the bytes of a file up to n and on from there, with padding beyond its end. */
  lemma Append(s: seq<Byte>, t: seq<Byte>, data: seq<Byte>, n: nat)
    requires |s| == n && Take(s, |data|) == Take(data, n)
    requires n <= |data| ==> Take(t, |data| - n) == Take(Drop(data, n), |t|)
    ensures Take(s + t, |data|) == Take(data, n + |t|)
  {
    if n >= |data| {
      assert (s + t)[..|data|] == s[..|data|];
    } else if n + |t| <= |data| {
      assert t == data[n..][..|t|] == data[n..n + |t|];
      assert data[..n] + data[n..n + |t|] == data[..n + |t|];
    } else {
      assert (s + t)[..|data|] == s + t[..|data| - n];
      assert data[..n] + data[n..] == data;
    }
  }

  /** Reading a piece back gives the bytes it was made of. */
  lemma {:induction false} PieceBytes(g: Geo, rest: seq<Byte>, n: nat)
    requires n <= g.spc
    ensures Take(Join(Piece(g, rest)[..n]), |rest|) == Take(rest, 512 * n)
  {
    hide Piece, Take, SectorFrom, Drop;
    var d := Piece(g, rest);
    assert d[..0] == [];
    if n > 0 {
      PieceBytes(g, rest, n - 1);
      assert d[..n][..n - 1] == d[..n - 1];
      SectorBytes(rest, 512 * (n - 1));
      Append(Join(d[..n - 1]), d[n - 1], rest, 512 * (n - 1));
    }
  }

  lemma SectorBytes(rest: seq<Byte>, n: nat)
    ensures n <= |rest| ==> Take(SectorFrom(rest, n), |rest| - n) == Take(Drop(rest, n), SECTOR)
  {
  }

  /** Clusters that hold a file's bytes in order. */
  ghost predicate Pieces(g: Geo, clusters: seq<Disk>, ch: seq<nat>, data: seq<Byte>) {
    forall j :: 0 <= j < |ch| ==> ch[j] < |clusters| && clusters[ch[j]] == Piece(g, Drop(data, Span(g, j)))
  }

  lemma PiecesMore(g: Geo, clusters: seq<Disk>, ch: seq<nat>, data: seq<Byte>, c: nat)
    requires Pieces(g, clusters, ch, data) && c !in ch && c < |clusters|
    ensures Pieces(g, clusters[c := Piece(g, Drop(data, Span(g, |ch|)))], ch + [c], data)
  {
    hide Piece, Drop, Span;
  }

  /** A chain that holds a file's bytes. */
  ghost predicate FileIn(g: Geo, m: Vol, ch: seq<nat>, data: seq<Byte>)
    requires Shape(g, m)
  {
    IsChain(g, m.fat, ch) && Pieces(g, m.data, ch, data)
  }

  lemma {:induction false} GatherPieces(g: Geo, m: Vol, ch: seq<nat>, data: seq<Byte>, j: nat)
    requires Shape(g, m) && TableOk(g, m.fat) && FileIn(g, m, ch, data) && j <= |ch|
    ensures |Gather(g, m, ch[0], j)| == Span(g, j) && Take(Gather(g, m, ch[0], j), |data|) == Take(data, Span(g, j))
  {
    hide Take, Link, Drop, Join;
    if j > 0 {
      GatherPieces(g, m, ch, data, j - 1);
      ChainLinks(g, m.fat, ch, j - 1);
      var rest := Drop(data, Span(g, j - 1));
      var d := Piece(g, rest);
      PieceBytes(g, rest, g.spc);
      assert d[..g.spc] == d;
      Append(Gather(g, m, ch[0], j - 1), Join(d), data, Span(g, j - 1));
    }
  }

  /** A file of any size is read back from its chain byte for byte. */
  lemma ReadsBack(g: Geo, m: Vol, ch: seq<nat>, data: seq<Byte>)
    requires Shape(g, m) && g.spc > 0 && TableOk(g, m.fat) && FileIn(g, m, ch, data) && Needed(g, |data|) <= |ch|
    ensures Sound(g, m.fat, ch[0], Needed(g, |data|))
    ensures Take(Gather(g, m, ch[0], Needed(g, |data|)), |data|) == data
  {
    hide Take, Link, Join, Sound, Gather;
    ChainSound(g, m.fat, ch, Needed(g, |data|));
    GatherPieces(g, m, ch, data, Needed(g, |data|));
    assert Take(data, Span(g, Needed(g, |data|))) == data by { TakeAll(data, Span(g, Needed(g, |data|))); }
  }

  lemma TakeAll(data: seq<Byte>, n: nat)
    requires |data| <= n
    ensures Take(data, n) == data
  {
  }

  /** A cluster whose first n sectors hold the remaining bytes and whose others are zero. */
  function PieceTo(g: Geo, rest: seq<Byte>, n: nat): (d: Disk)
    ensures |d| == g.spc
    ensures forall i :: 0 <= i < |d| ==> d[i] == if i < n then SectorFrom(rest, 512 * i) else Zeros(SECTOR)
  {
    seq(g.spc, i requires i >= 0 => if i < n then SectorFrom(rest, 512 * i) else Zeros(SECTOR))
  }

  lemma PieceEnds(g: Geo, rest: seq<Byte>, n: nat)
    requires n == g.spc || 512 * n >= |rest|
    ensures PieceTo(g, rest, 0) == ZeroCluster(g) && PieceTo(g, rest, n) == Piece(g, rest)
  {
    forall i | 0 <= i < g.spc && i >= n ensures SectorFrom(rest, 512 * i) == Zeros(SECTOR) {
      assert Take(Drop(rest, 512 * i), SECTOR) == [];
    }
  }

  function WithCluster(m: Vol, c: nat, d: Disk): Vol
    requires c < |m.data|
  {
    m.(data := m.data[c := d])
  }

  lemma PieceNext(g: Geo, m: Vol, c: nat, rest: seq<Byte>, n: nat)
    requires c < |m.data| && n < g.spc
    ensures PutData(WithCluster(m, c, PieceTo(g, rest, n)), c, n, SectorFrom(rest, 512 * n)) ==
      WithCluster(m, c, PieceTo(g, rest, n + 1))
  {
    assert PieceTo(g, rest, n)[n := SectorFrom(rest, 512 * n)] == PieceTo(g, rest, n + 1);
  }

  /** Writes the next of a file's bytes into a zeroed cluster. */
  method WriteSectors(v: Volume, c: nat, data: seq<Byte>, from: nat) returns (written: nat)
    requires v.Ok() && Valid(v.g, c) && from <= |data| && v.View().data[c] == ZeroCluster(v.g)
    modifies v`disk
    ensures v.Ok() && v.View() == WithCluster(old(v.View()), c, Piece(v.g, data[from..]))
    ensures written == if from + 512 * v.g.spc <= |data| then from + 512 * v.g.spc else |data|
  {
    hide v.Ok, v.View, PutData, PieceTo, WithCluster, Piece, SectorFrom;
    ghost var m := v.View();
    ghost var rest := data[from..];
    written := from;
    var s := 0;
    assert v.View() == WithCluster(m, c, PieceTo(v.g, rest, 0)) by { StartPiece(v.g, m, c, rest); }
    while s < v.g.spc && written < |data|
      invariant 0 <= s <= v.g.spc && v.Ok() && v.View() == WithCluster(m, c, PieceTo(v.g, rest, s))
      invariant written == if from + 512 * s <= |data| then from + 512 * s else |data|
    {
      var n := if |data| - written > SECTOR then SECTOR else |data| - written;
      var sec := data[written..written + n] + Zeros(SECTOR - n);
      SectorIs(data, from, s, n);
      PieceNext(v.g, m, c, rest, s);
      v.WriteData(c, s, sec);
      written, s := written + n, s + 1;
    }
    PieceEnds(v.g, rest, s);
  }

  lemma StartPiece(g: Geo, m: Vol, c: nat, rest: seq<Byte>)
    requires c < |m.data| && m.data[c] == ZeroCluster(g)
    ensures m == WithCluster(m, c, PieceTo(g, rest, 0))
  {
    assert PieceTo(g, rest, 0) == ZeroCluster(g);
    assert m.data[c := m.data[c]] == m.data;
  }

  lemma SectorIs(data: seq<Byte>, from: nat, s: nat, n: nat)
    requires from + 512 * s <= |data|
    requires n == if |data| - (from + 512 * s) > SECTOR then SECTOR else |data| - (from + 512 * s)
    ensures data[from + 512 * s..from + 512 * s + n] + Zeros(SECTOR - n) == SectorFrom(data[from..], 512 * s)
  {
    assert Take(Drop(data[from..], 512 * s), SECTOR) == data[from + 512 * s..from + 512 * s + n];
  }

  /** Only free clusters were touched, and they make up ch. */
  ghost predicate Framed(m: Vol, after: Vol, ch: seq<nat>) {
    && |after.fat| == |m.fat| && |after.data| == |m.data| == |m.fat| && after.root == m.root
    && (forall x :: x in ch ==> 2 <= x < |m.fat| && m.fat[x] == 0)
    && (forall x :: 0 <= x < |m.fat| && x !in ch ==> after.fat[x] == m.fat[x] && after.data[x] == m.data[x])
  }

  /** A file half written: the chain so far, its bytes, and the free clusters it took. */
  ghost predicate InWrite(g: Geo, m: Vol, now: Vol, ch: seq<nat>, data: seq<Byte>)
    requires Shape(g, m)
  {
    && Shape(g, now) && Conserves(g, m, now) && Framed(m, now, ch)
    && (ch != [] ==> FileIn(g, now, ch, data))
    && |ZeroSet(now.fat)| + |ch| == |ZeroSet(m.fat)|
  }

  /** One more cluster: taken, linked to the last and filled. */
  function Extend(g: Geo, m: Vol, ch: seq<nat>, c: nat, d: Disk): Vol
    requires |m.reserved| == g.reserved && Full(m.reserved) && c < |m.fat| && c < |m.data|
    requires ch != [] ==> ch[|ch| - 1] < |m.fat|
  {
    var a := Alloc(g, m, c);
    WithCluster(if ch == [] then a else PutFat(a, ch[|ch| - 1], c), c, d)
  }

  lemma ExtendShape(g: Geo, m: Vol, ch: seq<nat>, c: nat, d: Disk)
    requires Shape(g, m) && TableOk(g, m.fat) && Valid(g, c) && FullCluster(g, d)
    requires (ch != [] ==> Valid(g, ch[|ch| - 1]))
    ensures Shape(g, Extend(g, m, ch, c, d))
  {
    hide AdjustInfo, ZeroCluster;
  }

  lemma ExtendChain(g: Geo, m: Vol, ch: seq<nat>, c: nat, data: seq<Byte>)
    requires Shape(g, m) && TableOk(g, m.fat) && Valid(g, c) && m.fat[c] == 0 && (ch != [] ==> FileIn(g, m, ch, data))
    ensures c !in ch && (ch != [] ==> Valid(g, ch[|ch| - 1]) && m.fat[ch[|ch| - 1]] != 0)
    ensures var e := Extend(g, m, ch, c, Piece(g, Drop(data, Span(g, |ch|))));
      Shape(g, e) && FileIn(g, e, ch + [c], data)
  {
    hide AdjustInfo, Piece, Span, Drop, ZeroCluster, IsChain, Pieces;
    if ch != [] { LastValid(g, m.fat, ch); }
    var p := Piece(g, Drop(data, Span(g, |ch|)));
    var e := Extend(g, m, ch, c, p);
    if ch != [] {
      FreeOffChain(g, m.fat, ch, c);
      ChainGrows(g, m.fat, ch, c);
    } else {
      assert ch + [c] == [c];
      NoPieces(g, m.data, data);
      SingleChain(g, m.fat, c);
    }
    ExtendShape(g, m, ch, c, p);
    PiecesMore(g, m.data, ch, data, c);
    assert e.data == m.data[c := p];
  }

  lemma NoPieces(g: Geo, clusters: seq<Disk>, data: seq<Byte>)
    ensures Pieces(g, clusters, [], data)
  {
  }

  lemma LastValid(g: Geo, fat: seq<nat>, ch: seq<nat>)
    requires |fat| == g.count + 2 && IsChain(g, fat, ch)
    ensures |ch| > 0 && Valid(g, ch[|ch| - 1])
  {
  }

  lemma SingleChain(g: Geo, fat: seq<nat>, c: nat)
    requires |fat| == g.count + 2 && Valid(g, c)
    ensures IsChain(g, fat[c := Eoc(g.kind)], [c])
  {
  }

  lemma ExtendCounts(g: Geo, m: Vol, now: Vol, ch: seq<nat>, c: nat, d: Disk)
    requires Shape(g, m) && Shape(g, now) && TableOk(g, now.fat) && Valid(g, c) && now.fat[c] == 0 && FullCluster(g, d)
    requires ch != [] ==> Valid(g, ch[|ch| - 1]) && now.fat[ch[|ch| - 1]] != 0
    requires Conserves(g, m, now) && Shape(g, Extend(g, now, ch, c, d))
    ensures |ZeroSet(Extend(g, now, ch, c, d).fat)| == |ZeroSet(now.fat)| - 1
    ensures Conserves(g, m, Extend(g, now, ch, c, d))
  {
    hide AdjustInfo, CountIn, ZeroCluster, Adjustments;
    var e, a := Extend(g, now, ch, c, d), Alloc(g, now, c);
    assert ZeroSet(e.fat) == ZeroSet(a.fat) == ZeroSet(now.fat) - {c};
    AllocConserves(g, now, c);
    assert e.reserved == a.reserved;
  }

  lemma ExtendKeeps(g: Geo, m: Vol, now: Vol, ch: seq<nat>, c: nat, data: seq<Byte>)
    requires Shape(g, m) && TableOk(g, now.fat) && InWrite(g, m, now, ch, data) && Valid(g, c) && now.fat[c] == 0
    requires ch != [] ==> Valid(g, ch[|ch| - 1])
    ensures InWrite(g, m, Extend(g, now, ch, c, Piece(g, Drop(data, Span(g, |ch|)))), ch + [c], data)
  {
    hide AdjustInfo, CountIn, ZeroCluster, Conserves, Shape, FileIn, ZeroSet, Piece, Drop, Span;
    var d := Piece(g, Drop(data, Span(g, |ch|)));
    ExtendChain(g, now, ch, c, data);
    ExtendCounts(g, m, now, ch, c, d);
  }

  /** The clusters a file of a size gets: at least one. */
  function Wanted(g: Geo, size: nat): nat
    requires g.spc > 0
  {
    if size == 0 then 1 else Needed(g, size)
  }

  /** Writes a file into free clusters. It succeeds exactly when there are enough of them, and then the
      chain holds the bytes; otherwise the table is as before. Clusters in use are never touched. */
  method WriteChain(v: Volume, data: seq<Byte>) returns (first: nat, ghost ch: seq<nat>)
    requires v.Ok()
    modifies v`disk
    ensures v.Ok() && Conserves(v.g, old(v.View()), v.View())
    ensures first != 0 <==> Wanted(v.g, |data|) <= |ZeroSet(old(v.View()).fat)|
    ensures first != 0 ==> ch != [] && first == ch[0] && |ch| == Wanted(v.g, |data|) && FileIn(v.g, v.View(), ch, data)
    ensures first == 0 ==> v.View().fat == old(v.View()).fat
    ensures Framed(old(v.View()), v.View(), ch)
  {
    hide v.Ok, v.View, Span, FileIn, Conserves, InWrite, Framed, ZeroSet, FreeView, FirstFree, Wanted;
    ghost var m := v.View();
    var prev: nat, written: nat := 0, 0;
    first, ch := 0, [];
    WriteStarts(v.g, m, data);
    while written < |data| || (|data| == 0 && first == 0)
      invariant v.Ok() && Written(v, m, ch, first, prev, written, data)
      invariant |ch| <= Wanted(v.g, |data|)
      decreases Wanted(v.g, |data|) - |ch|
    {
      StillWanted(v, m, ch, first, prev, written, data);
      ghost var now := v.View();
      var c;
      c, written := AppendCluster(v, data, first, prev, written, m, ch);
      if c == 0 {
        WriteFails(v.g, m, now, ch, data, first);
        FreeClusters(v, first);
        first := 0;
        return;
      }
      if first == 0 { first := c; }
      ch, prev := ch + [c], c;
    }
    WriteEnds(v, m, ch, first, prev, written, data);
  }

  /** The loop's variables, given the chain so far. */
  ghost predicate Written(v: Volume, m: Vol, ch: seq<nat>, first: nat, prev: nat, written: nat, data: seq<Byte>)
    requires v.Ok() && Shape(v.g, m)
    reads v
  {
    && InWrite(v.g, m, v.View(), ch, data)
    && (if ch == [] then first == 0 && prev == 0
        else first == ch[0] && prev == ch[|ch| - 1] && Valid(v.g, first) && Valid(v.g, prev))
    && written == (if Span(v.g, |ch|) <= |data| then Span(v.g, |ch|) else |data|)
  }

  lemma StillWanted(v: Volume, m: Vol, ch: seq<nat>, first: nat, prev: nat, written: nat, data: seq<Byte>)
    requires v.Ok() && Shape(v.g, m) && Written(v, m, ch, first, prev, written, data)
    requires written < |data| || (|data| == 0 && first == 0)
    ensures |ch| < Wanted(v.g, |data|)
  {
    hide v.Ok, v.View, InWrite;
    NeededBeyond(v.g, |data|, |ch|);
  }

  lemma WriteEnds(v: Volume, m: Vol, ch: seq<nat>, first: nat, prev: nat, written: nat, data: seq<Byte>)
    requires v.Ok() && Shape(v.g, m) && Written(v, m, ch, first, prev, written, data) && |ch| <= Wanted(v.g, |data|)
    requires written >= |data| && (|data| == 0 ==> first != 0)
    ensures |ch| == Wanted(v.g, |data|) && ch != [] && first == ch[0] && first != 0
    ensures FileIn(v.g, v.View(), ch, data) && Framed(m, v.View(), ch) && Conserves(v.g, m, v.View())
    ensures |ch| <= |ZeroSet(m.fat)|
  {
    hide v.Ok, v.View, FileIn, Conserves, Framed, ZeroSet;
    var n := Needed(v.g, |data|);
    if |ch| < n && |ch| < n - 1 { SpanGrows(v.g, |ch|, n - 1); }
  }

  /** When no cluster is free, giving back the chain so far restores the table. */
  lemma WriteFails(g: Geo, m: Vol, now: Vol, ch: seq<nat>, data: seq<Byte>, first: nat)
    requires Shape(g, m) && TableOk(g, m.fat) && InWrite(g, m, now, ch, data)
    requires first == (if ch == [] then 0 else ch[0])
    ensures Shape(g, FreeView(g, now, first)) && FreeView(g, now, first).fat == m.fat
    ensures Conserves(g, m, FreeView(g, now, first)) && Framed(m, FreeView(g, now, first), ch)
    ensures |ZeroSet(now.fat)| + |ch| == |ZeroSet(m.fat)|
  {
    hide FreeView, Tracks, Adjustments, Pieces, IsChain;
    FreeShape(g, now, first);
    if ch == [] {
      FreeNothing(g, now);
      assert FreeView(g, now, first).fat == m.fat;
    } else {
      FreesChain(g, now.fat, ch);
      FreeConserves(g, now, first);
      assert FreeView(g, now, first).fat == m.fat;
    }
  }

  lemma FreeNothing(g: Geo, m: Vol)
    requires Shape(g, m)
    ensures FreeView(g, m, 0) == m
  {
  }

  lemma NoneFree(g: Geo, fat: seq<nat>)
    requires |fat| == g.count + 2 && FirstFree(g, fat, 2) == g.count + 2
    ensures ZeroSet(fat) == {} && |ZeroSet(fat)| == 0
  {
    assert ZeroSet(fat) == {};
  }

  /** Takes a cluster, links it to the last one and fills it. */
  method AppendCluster(v: Volume, data: seq<Byte>, ghost first: nat, prev: nat, written: nat, ghost m: Vol,
                       ghost ch: seq<nat>)
    returns (c: nat, more: nat)
    requires v.Ok() && Shape(v.g, m) && Written(v, m, ch, first, prev, written, data)
    modifies v`disk
    ensures v.Ok()
    ensures c == 0 ==> v.View() == old(v.View()) && |ZeroSet(v.View().fat)| == 0 && more == written
    ensures c != 0 ==> Valid(v.g, c) && Written(v, m, ch + [c], if ch == [] then c else first, c, more, data)
  {
    hide v.Ok, v.View, Alloc, Piece, Drop, Extend, InWrite, ZeroSet, WithCluster, PutFat, FirstFree, FullCluster;
    more := written;
    c := AllocCluster(v);
    if c == 0 {
      NoneFree(v.g, v.View().fat);
      return;
    }
    ghost var now := old(v.View());
    TakenIs(v.g, now, ch, c, prev, data, written);
    ExtendKeeps(v.g, m, now, ch, c, data);
    if prev != 0 { v.FatSet(prev, c); }
    more := WriteSectors(v, c, data, written);
  }

  lemma TakenIs(g: Geo, now: Vol, ch: seq<nat>, c: nat, prev: nat, data: seq<Byte>, written: nat)
    requires Shape(g, now) && TableOk(g, now.fat) && Valid(g, c)
    requires (if ch == [] then prev == 0 else prev == ch[|ch| - 1] && Valid(g, prev))
    requires written == if Span(g, |ch|) <= |data| then Span(g, |ch|) else |data|
    ensures var a := Alloc(g, now, c);
      var b := if prev != 0 then PutFat(a, prev, c) else a;
      && b.data[c] == ZeroCluster(g)
      && WithCluster(b, c, Piece(g, data[written..])) == Extend(g, now, ch, c, Piece(g, Drop(data, Span(g, |ch|))))
  {
    hide Piece, AdjustInfo, ZeroCluster;
    assert data[written..] == Drop(data, Span(g, |ch|));
  }

  lemma WriteStarts(g: Geo, m: Vol, data: seq<Byte>)
    requires Shape(g, m)
    ensures InWrite(g, m, m, [], data) && Span(g, 0) == 0
  {
  }


  /** A file gets as few clusters as hold it, and at least one. */
  lemma WantedLeast(g: Geo, size: nat)
    requires g.spc > 0
    ensures var k := Wanted(g, size);
      k >= 1 && size <= 512 * g.spc * k && (k > 1 ==> 512 * g.spc * (k - 1) < size)
  {
    hide Needed;
    var k := Wanted(g, size);
    SpanIs(g, k);
    if k > 1 { SpanIs(g, k - 1); }
  }
}
