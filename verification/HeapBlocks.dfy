/** The kernel heap as the list of its blocks: they tile one region, each a header followed by its
    payload. */
module HeapBlocks {

  const HEADER: nat := 24
  const GRAIN: nat := 16

  datatype Block = Block(size: nat, free: bool)

  /** The address of block k when the heap starts at `base`. */
  function Addr(base: nat, bs: seq<Block>, k: nat): nat
    requires k <= |bs|
  {
    if k == 0 then base else Addr(base, bs, k - 1) + HEADER + bs[k - 1].size
  }

  lemma {:induction false} AddrPrefix(base: nat, bs: seq<Block>, cs: seq<Block>, k: nat)
    requires k <= |bs| && k <= |cs| && bs[..k] == cs[..k]
    ensures Addr(base, bs, k) == Addr(base, cs, k)
  {
    if k > 0 {
      assert bs[..k - 1] == bs[..k][..k - 1] && cs[..k - 1] == cs[..k][..k - 1];
      assert bs[k - 1] == bs[..k][k - 1] && cs[k - 1] == cs[..k][k - 1];
      AddrPrefix(base, bs, cs, k - 1);
    }
  }

  lemma {:induction false} AddrIncreases(base: nat, bs: seq<Block>, j: nat, k: nat)
    requires j < k <= |bs|
    ensures Addr(base, bs, j) + HEADER + bs[j].size <= Addr(base, bs, k)
    decreases k
  {
    if j < k - 1 {
      AddrIncreases(base, bs, j, k - 1);
    }
  }

  /** No two blocks are at the same address. */
  lemma AddrUnique(base: nat, bs: seq<Block>, k: nat)
    requires k < |bs|
    ensures forall j: nat :: j < |bs| && Addr(base, bs, j) == Addr(base, bs, k) ==> j == k
  {
    forall j: nat | j < |bs| && Addr(base, bs, j) == Addr(base, bs, k) ensures j == k {
      if j < k { AddrIncreases(base, bs, j, k); }
      if k < j { AddrIncreases(base, bs, k, j); }
    }
  }

  /** Bytes taken by all blocks, and by those in use. */
  function Total(bs: seq<Block>): nat {
    if bs == [] then 0 else HEADER + bs[0].size + Total(bs[1..])
  }

  function Used(bs: seq<Block>): nat {
    if bs == [] then 0 else (if bs[0].free then 0 else HEADER + bs[0].size) + Used(bs[1..])
  }

  lemma {:induction false} Sums(bs: seq<Block>, cs: seq<Block>)
    ensures Total(bs + cs) == Total(bs) + Total(cs)
    ensures Used(bs + cs) == Used(bs) + Used(cs)
  {
    if bs == [] {
      assert bs + cs == cs;
    } else {
      assert (bs + cs)[1..] == bs[1..] + cs;
      Sums(bs[1..], cs);
    }
  }

  lemma {:induction false} AddrOfEnd(base: nat, bs: seq<Block>)
    ensures Addr(base, bs, |bs|) == base + Total(bs)
  {
    if bs != [] {
      var front, last := bs[..|bs| - 1], bs[|bs| - 1];
      assert bs == front + [last];
      Sums(front, [last]);
      AddrPrefix(base, bs, front, |front|);
      AddrOfEnd(base, front);
    }
  }

  predicate NoAdjacentFree(bs: seq<Block>) {
    forall k :: 0 <= k < |bs| - 1 ==> !(bs[k].free && bs[k + 1].free)
  }

  // ----- live allocations -----

  datatype Span = Span(addr: nat, size: nat)

  /** The blocks in use, with their addresses. */
  ghost function Live(base: nat, bs: seq<Block>): set<Span> {
    set k | 0 <= k < |bs| && !bs[k].free :: Span(Addr(base, bs, k), bs[k].size)
  }

  /** Payloads of different live blocks do not overlap, and all lie inside the heap. */
  lemma PayloadsApart(base: nat, bs: seq<Block>, x: Span, y: Span)
    requires x in Live(base, bs) && y in Live(base, bs)
    ensures base <= x.addr && x.addr + HEADER + x.size <= base + Total(bs)
    ensures x != y ==> x.addr + HEADER + x.size <= y.addr || y.addr + HEADER + y.size <= x.addr
  {
    var j :| 0 <= j < |bs| && !bs[j].free && x == Span(Addr(base, bs, j), bs[j].size);
    var k :| 0 <= k < |bs| && !bs[k].free && y == Span(Addr(base, bs, k), bs[k].size);
    if j > 0 { AddrIncreases(base, bs, 0, j); }
    AddrIncreases(base, bs, j, |bs|);
    AddrOfEnd(base, bs);
    if j < k { AddrIncreases(base, bs, j, k); }
    if k < j { AddrIncreases(base, bs, k, j); }
  }

  // ----- first fit and splitting -----

  /** The first free block of at least `size` bytes, |bs| if there is none. */
  function FirstFit(bs: seq<Block>, size: nat, k: nat): (i: nat)
    requires k <= |bs|
    ensures k <= i <= |bs|
    ensures i < |bs| ==> bs[i].free && bs[i].size >= size
    ensures forall j :: k <= j < i ==> !(bs[j].free && bs[j].size >= size)
    decreases |bs| - k
  {
    if k == |bs| then k else if bs[k].free && bs[k].size >= size then k else FirstFit(bs, size, k + 1)
  }

  /** Cuts block k down to `size` if what is left can hold a block of its own. */
  function Split(bs: seq<Block>, k: nat, size: nat): seq<Block>
    requires k < |bs| && bs[k].size >= size
  {
    if bs[k].size >= size + HEADER + GRAIN then
      bs[..k] + [Block(size, bs[k].free), Block(bs[k].size - size - HEADER, true)] + bs[k + 1..]
    else bs
  }

  /** Block k is taken for a request of `size` bytes. */
  function Take(bs: seq<Block>, k: nat, size: nat): seq<Block>
    requires k < |bs| && bs[k].size >= size
  {
    var cs := Split(bs, k, size);
    cs[k := cs[k].(free := false)]
  }

  function Give(bs: seq<Block>, k: nat): seq<Block>
    requires k < |bs|
  {
    bs[k := bs[k].(free := true)]
  }

  /** Joins neighbouring free blocks from block k on. */
  function Coalesce(bs: seq<Block>, k: nat): (r: seq<Block>)
    requires k <= |bs|
    decreases |bs| - k
  {
    if k + 1 >= |bs| then bs
    else if bs[k].free && bs[k + 1].free then Coalesce(Join(bs, k), k)
    else Coalesce(bs, k + 1)
  }

  function Join(bs: seq<Block>, k: nat): seq<Block>
    requires k + 1 < |bs|
  {
    bs[..k] + [Block(bs[k].size + HEADER + bs[k + 1].size, true)] + bs[k + 2..]
  }

  // ----- what one step does to the list -----

  /** Replacing the blocks [i, j) by others of the same total length moves no other block. */
  lemma ReplaceSums(bs: seq<Block>, i: nat, j: nat, mid: seq<Block>)
    requires i <= j <= |bs|
    ensures Total(bs[..i] + mid + bs[j..]) == Total(bs) - Total(bs[i..j]) + Total(mid)
    ensures Used(bs[..i] + mid + bs[j..]) == Used(bs) - Used(bs[i..j]) + Used(mid)
  {
    assert bs == bs[..i] + bs[i..j] + bs[j..];
    Sums(bs[..i] + bs[i..j], bs[j..]);
    Sums(bs[..i], bs[i..j]);
    Sums(bs[..i] + mid, bs[j..]);
    Sums(bs[..i], mid);
  }

  lemma {:induction false} ReplaceAddr(base: nat, bs: seq<Block>, i: nat, j: nat, mid: seq<Block>, k: nat)
    requires i <= j <= |bs| && Total(mid) == Total(bs[i..j])
    ensures k <= i ==> Addr(base, bs[..i] + mid + bs[j..], k) == Addr(base, bs, k)
    ensures j <= k <= |bs| ==> Addr(base, bs[..i] + mid + bs[j..], k - j + i + |mid|) == Addr(base, bs, k)
    decreases k
  {
    hide Addr, Total, Used;
    var cs := bs[..i] + mid + bs[j..];
    if k <= i {
      assert cs[..k] == bs[..k];
      AddrPrefix(base, cs, bs, k);
    }
    if j <= k <= |bs| {
      var k' := k - j + i + |mid|;
      assert cs[..k'] == bs[..i] + mid + bs[j..k];
      assert bs[..k] == bs[..i] + bs[i..j] + bs[j..k];
      AddrPrefix(base, cs, cs[..k'], k');
      AddrPrefix(base, bs, bs[..k], k);
      AddrOfEnd(base, cs[..k']);
      AddrOfEnd(base, bs[..k]);
      Sums(bs[..i] + bs[i..j], bs[j..k]);
      Sums(bs[..i], bs[i..j]);
      Sums(bs[..i] + mid, bs[j..k]);
      Sums(bs[..i], mid);
    }
  }

  /** Replacing blocks by others of the same total length keeps the live blocks outside them. */
  lemma ReplaceLive(base: nat, bs: seq<Block>, i: nat, j: nat, mid: seq<Block>)
    requires i <= j <= |bs| && Total(mid) == Total(bs[i..j])
    requires (forall k :: i <= k < j ==> bs[k].free) && (forall k :: 0 <= k < |mid| ==> mid[k].free)
    ensures Live(base, bs[..i] + mid + bs[j..]) == Live(base, bs)
  {
    hide Total, Addr;
    var cs := bs[..i] + mid + bs[j..];
    forall k | 0 <= k < |bs| && !bs[k].free ensures Span(Addr(base, bs, k), bs[k].size) in Live(base, cs) {
      StillLive(base, bs, i, j, mid, k);
    }
    forall k | 0 <= k < |cs| && !cs[k].free ensures Span(Addr(base, cs, k), cs[k].size) in Live(base, bs) {
      WasLive(base, bs, i, j, mid, k);
    }
  }

  lemma StillLive(base: nat, bs: seq<Block>, i: nat, j: nat, mid: seq<Block>, k: nat)
    requires i <= j <= |bs| && Total(mid) == Total(bs[i..j]) && k < |bs| && !bs[k].free && (k < i || j <= k)
    ensures Span(Addr(base, bs, k), bs[k].size) in Live(base, bs[..i] + mid + bs[j..])
  {
    hide Total, Addr, Live;
    ReplaceAddr(base, bs, i, j, mid, k);
    LiveAt(base, bs[..i] + mid + bs[j..], if k < i then k else k - j + i + |mid|);
  }

  lemma WasLive(base: nat, bs: seq<Block>, i: nat, j: nat, mid: seq<Block>, k: nat)
    requires i <= j <= |bs| && Total(mid) == Total(bs[i..j]) && k < i + |mid| + |bs| - j && (k < i || i + |mid| <= k)
    requires !(bs[..i] + mid + bs[j..])[k].free
    ensures Span(Addr(base, bs[..i] + mid + bs[j..], k), (bs[..i] + mid + bs[j..])[k].size) in Live(base, bs)
  {
    hide Total, Addr, Live;
    var l := if k < i then k else k + j - i - |mid|;
    ReplaceAddr(base, bs, i, j, mid, l);
    LiveAt(base, bs, l);
  }

  lemma OneSum(b: Block)
    ensures Total([b]) == HEADER + b.size && Used([b]) == if b.free then 0 else HEADER + b.size
  {
  }

  lemma TwoSums(b: Block, c: Block)
    ensures Total([b, c]) == 2 * HEADER + b.size + c.size
    ensures Used([b, c]) == (if b.free then 0 else HEADER + b.size) + if c.free then 0 else HEADER + c.size
  {
    hide Total, Used;
    OneSum(b);
    OneSum(c);
    Sums([b], [c]);
    assert [b] + [c] == [b, c];
  }

  lemma JoinKeeps(base: nat, bs: seq<Block>, k: nat)
    requires k + 1 < |bs| && bs[k].free && bs[k + 1].free
    ensures Total(Join(bs, k)) == Total(bs) && Used(Join(bs, k)) == Used(bs)
    ensures Live(base, Join(bs, k)) == Live(base, bs)
  {
    hide Total, Used, Live;
    var b := Block(bs[k].size + HEADER + bs[k + 1].size, true);
    assert bs[k..k + 2] == [bs[k], bs[k + 1]];
    TwoSums(bs[k], bs[k + 1]);
    OneSum(b);
    ReplaceSums(bs, k, k + 2, [b]);
    ReplaceLive(base, bs, k, k + 2, [b]);
  }

  lemma SplitKeeps(base: nat, bs: seq<Block>, k: nat, size: nat)
    requires k < |bs| && bs[k].size >= size && bs[k].free
    ensures var cs := Split(bs, k, size);
      && Total(cs) == Total(bs) && Used(cs) == Used(bs) && Live(base, cs) == Live(base, bs)
      && k < |cs| && Addr(base, cs, k) == Addr(base, bs, k) && cs[k].free && cs[k].size >= size
      && (NoAdjacentFree(bs) ==> forall j :: 0 <= j < |cs| - 1 && j != k ==> !(cs[j].free && cs[j + 1].free))
  {
    hide Total, Used, Live, Addr;
    SplitApart(bs, k, size);
    if bs[k].size >= size + HEADER + GRAIN {
      var b, c := Block(size, true), Block(bs[k].size - size - HEADER, true);
      assert bs[k..k + 1] == [bs[k]];
      OneSum(bs[k]);
      TwoSums(b, c);
      ReplaceSums(bs, k, k + 1, [b, c]);
      ReplaceLive(base, bs, k, k + 1, [b, c]);
      ReplaceAddr(base, bs, k, k + 1, [b, c], k);
    }
  }

  /** Splitting a block makes no other neighbours free. */
  lemma SplitApart(bs: seq<Block>, k: nat, size: nat)
    requires k < |bs| && bs[k].size >= size && bs[k].free
    ensures var cs := Split(bs, k, size);
      NoAdjacentFree(bs) ==> forall j :: 0 <= j < |cs| - 1 && j != k ==> !(cs[j].free && cs[j + 1].free)
  {
    var cs := Split(bs, k, size);
    if NoAdjacentFree(bs) && |cs| == |bs| + 1 {
      forall j | 0 <= j < |cs| - 1 && j != k ensures !(cs[j].free && cs[j + 1].free) {
        if j < k {
          assert cs[j] == bs[j] && cs[j + 1].free == bs[j + 1].free;
        } else {
          assert cs[j].free == bs[j - 1].free && cs[j + 1] == bs[j];
        }
      }
    }
  }

  /** Flipping the mark of one block. */
  lemma MarkKeeps(base: nat, bs: seq<Block>, k: nat, free: bool)
    requires k < |bs| && bs[k].free != free
    ensures var cs := bs[k := bs[k].(free := free)]; var x := Span(Addr(base, bs, k), bs[k].size);
      && Total(cs) == Total(bs)
      && Live(base, cs) == (if free then Live(base, bs) - {x} else Live(base, bs) + {x})
      && Used(cs) == (if free then Used(bs) - HEADER - x.size else Used(bs) + HEADER + x.size)
      && (free ==> x in Live(base, bs)) && (!free ==> x !in Live(base, bs))
  {
    hide Total, Used, Addr;
    var b := bs[k].(free := free);
    var cs := bs[k := b];
    assert cs == bs[..k] + [b] + bs[k + 1..] && bs[k..k + 1] == [bs[k]];
    OneSum(b);
    OneSum(bs[k]);
    ReplaceSums(bs, k, k + 1, [b]);
    forall j: nat | j < |bs| ensures Addr(base, cs, j) == Addr(base, bs, j) {
      ReplaceAddr(base, bs, k, k + 1, [b], j);
    }
    forall j: nat | j < |bs| && j != k ensures Addr(base, bs, j) != Addr(base, bs, k) {
      if j < k { AddrIncreases(base, bs, j, k); } else { AddrIncreases(base, bs, k, j); }
    }
  }

  /** Taking a block adds exactly one live payload of at least the size asked for. */
  lemma TakeAdds(base: nat, bs: seq<Block>, k: nat, size: nat)
    requires k < |bs| && bs[k].size >= size && bs[k].free
    ensures var cs := Take(bs, k, size);
      && k < |cs| && Addr(base, cs, k) == Addr(base, bs, k) && size <= cs[k].size <= bs[k].size
      && var x := Span(Addr(base, bs, k), cs[k].size);
      && Total(cs) == Total(bs) && Live(base, cs) == Live(base, bs) + {x} && x !in Live(base, bs)
      && Used(cs) == Used(bs) + HEADER + x.size
      && (NoAdjacentFree(bs) ==> NoAdjacentFree(cs))
  {
    var cs := Split(bs, k, size);
    SplitKeeps(base, bs, k, size);
    MarkKeeps(base, cs, k, false);
    AddrPrefix(base, cs, Take(bs, k, size), k);
  }

  lemma {:induction false} CoalesceKeeps(base: nat, bs: seq<Block>, k: nat)
    requires k <= |bs| && forall j :: 0 <= j < k && j + 1 < |bs| ==> !(bs[j].free && bs[j + 1].free)
    ensures var cs := Coalesce(bs, k);
      && Total(cs) == Total(bs) && Used(cs) == Used(bs) && Live(base, cs) == Live(base, bs)
      && NoAdjacentFree(cs) && (bs != [] ==> cs != [])
    decreases |bs| - k
  {
    if k + 1 < |bs| {
      if bs[k].free && bs[k + 1].free {
        JoinKeeps(base, bs, k);
        CoalesceKeeps(base, Join(bs, k), k);
      } else {
        CoalesceKeeps(base, bs, k + 1);
      }
    }
  }

  /** Giving back a block and joining removes exactly its payload and leaves no two free blocks adjacent. */
  lemma GiveRemoves(base: nat, bs: seq<Block>, k: nat)
    requires k < |bs| && !bs[k].free
    ensures var cs := Coalesce(Give(bs, k), 0); var x := Span(Addr(base, bs, k), bs[k].size);
      && Total(cs) == Total(bs) && Live(base, cs) == Live(base, bs) - {x} && x in Live(base, bs)
      && Used(cs) == Used(bs) - HEADER - x.size && NoAdjacentFree(cs) && cs != []
  {
    MarkKeeps(base, bs, k, true);
    CoalesceKeeps(base, Give(bs, k), 0);
  }

  // ----- the heap over its whole life -----

  /** The region is tiled, and no two free blocks touch. */
  predicate HeapOk(bs: seq<Block>, size: nat) {
    bs != [] && Total(bs) == size && NoAdjacentFree(bs)
  }

  lemma LiveAt(base: nat, bs: seq<Block>, k: nat)
    requires k < |bs| && !bs[k].free
    ensures Span(Addr(base, bs, k), bs[k].size) in Live(base, bs)
  {
  }

  lemma TwoBlocksHaveALiveOne(base: nat, bs: seq<Block>)
    requires |bs| >= 2 && NoAdjacentFree(bs)
    ensures Live(base, bs) != {}
  {
    assert !(bs[0].free && bs[0 + 1].free);
    LiveAt(base, bs, if bs[0].free then 1 else 0);
  }

  /** When nothing is live the heap is the single block it started as. */
  lemma AllFreedIsInitial(base: nat, bs: seq<Block>, size: nat)
    requires HeapOk(bs, size) && Live(base, bs) == {}
    ensures size >= HEADER && bs == [Block(size - HEADER, true)]
  {
    if |bs| >= 2 { TwoBlocksHaveALiveOne(base, bs); }
    if !bs[0].free { LiveAt(base, bs, 0); }
    assert bs == [bs[0]] && Total(bs[1..]) == 0;
    assert bs[0] == Block(size - HEADER, true);
  }

  /** A request, or the release of the block with a number; other numbers are refused. */
  datatype Call = Request(want: nat) | Release(k: nat)

  function Applied(bs: seq<Block>, call: Call): seq<Block> {
    match call
    case Request(want) => var k := FirstFit(bs, want, 0); if k < |bs| then Take(bs, k, want) else bs
    case Release(k) => if k < |bs| && !bs[k].free then Coalesce(Give(bs, k), 0) else bs
  }

  function After(bs: seq<Block>, calls: seq<Call>): seq<Block>
    decreases |calls|
  {
    if calls == [] then bs else After(Applied(bs, calls[0]), calls[1..])
  }

  lemma CallKeepsHeap(base: nat, bs: seq<Block>, size: nat, call: Call)
    requires HeapOk(bs, size)
    ensures HeapOk(Applied(bs, call), size)
  {
    hide Split, Coalesce, Total, NoAdjacentFree;
    match call {
      case Request(want) =>
        var k := FirstFit(bs, want, 0);
        if k < |bs| { TakeAdds(base, bs, k, want); }
      case Release(k) =>
        if k < |bs| && !bs[k].free { GiveRemoves(base, bs, k); }
    }
  }

  /** Every run of requests and releases keeps the heap sound; once nothing is live, in whatever order the
      blocks were released, the heap is the single block it started as. */
  lemma {:induction false} AnyRunAnyOrder(base: nat, bs: seq<Block>, size: nat, calls: seq<Call>)
    requires HeapOk(bs, size)
    ensures HeapOk(After(bs, calls), size)
    ensures Live(base, After(bs, calls)) == {} ==> size >= HEADER && After(bs, calls) == [Block(size - HEADER, true)]
    decreases |calls|
  {
    if calls == [] {
      if Live(base, bs) == {} { AllFreedIsInitial(base, bs, size); }
    } else {
      CallKeepsHeap(base, bs, size, calls[0]);
      AnyRunAnyOrder(base, Applied(bs, calls[0]), size, calls[1..]);
    }
  }

  // ----- alignment -----

  /** Sizes are multiples of 8, as the header and hence all addresses are then. */
  predicate Aligned(bs: seq<Block>) {
    forall k :: 0 <= k < |bs| ==> bs[k].size % 8 == 0
  }

  lemma {:induction false} AddrAligned(base: nat, bs: seq<Block>, k: nat)
    requires base % 8 == 0 && Aligned(bs) && k <= |bs|
    ensures Addr(base, bs, k) % 8 == 0
  {
    if k > 0 { AddrAligned(base, bs, k - 1); }
  }

  lemma SplitAligned(bs: seq<Block>, k: nat, size: nat)
    requires Aligned(bs) && k < |bs| && bs[k].size >= size && size % 8 == 0
    ensures Aligned(Split(bs, k, size)) && k < |Split(bs, k, size)| && Aligned(Take(bs, k, size))
  {
  }

  lemma {:induction false} CoalesceAligned(bs: seq<Block>, k: nat)
    requires Aligned(bs) && k <= |bs|
    ensures Aligned(Coalesce(bs, k))
    decreases |bs| - k
  {
    if k + 1 < |bs| {
      if bs[k].free && bs[k + 1].free {
        assert Aligned(Join(bs, k));
        CoalesceAligned(Join(bs, k), k);
      } else {
        CoalesceAligned(bs, k + 1);
      }
    }
  }

  lemma GiveAligned(bs: seq<Block>, k: nat)
    requires Aligned(bs) && k < |bs|
    ensures Aligned(Coalesce(Give(bs, k), 0))
  {
    CoalesceAligned(Give(bs, k), 0);
  }

  lemma CallAligned(bs: seq<Block>, call: Call)
    requires Aligned(bs) && (call.Request? ==> call.want % 8 == 0)
    ensures Aligned(Applied(bs, call))
  {
    hide Split, Coalesce, Take;
    match call {
      case Request(want) =>
        var k := FirstFit(bs, want, 0);
        if k < |bs| { SplitAligned(bs, k, want); }
      case Release(k) =>
        if k < |bs| && !bs[k].free { GiveAligned(bs, k); }
    }
  }

  /** Over every run of requests for multiples of 8, from an aligned heap, every block stays aligned, its address and
      its size. */
  lemma {:induction false} RunAligned(base: nat, bs: seq<Block>, calls: seq<Call>)
    requires base % 8 == 0 && Aligned(bs)
    requires forall i :: 0 <= i < |calls| && calls[i].Request? ==> calls[i].want % 8 == 0
    ensures Aligned(After(bs, calls))
    ensures forall k: nat :: k <= |After(bs, calls)| ==> Addr(base, After(bs, calls), k) % 8 == 0
    decreases |calls|
  {
    if calls == [] {
      forall k: nat | k <= |bs| ensures Addr(base, bs, k) % 8 == 0 { AddrAligned(base, bs, k); }
    } else {
      CallAligned(bs, calls[0]);
      RunAligned(base, Applied(bs, calls[0]), calls[1..]);
    }
  }
}
