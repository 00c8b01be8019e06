/** kmalloc and kfree on linked block headers. */
module Heap {
  import opened HeapBlocks
  import Pmm

  /** A block header as it lies in memory; next is 0 at the end of the list. */
  datatype Header = Header(size: nat, free: bool, next: nat)

  datatype FreeResult = Freed | Ignored | InvalidPointer | DoubleFree

  /** Rounds a request up to a multiple of 16 in 64-bit arithmetic. */
  function Rounded(size: nat): nat {
    (size + GRAIN - 1) % Pmm.WORD / GRAIN * GRAIN
  }

  /** The rounding covers the request exactly when it does not wrap. */
  lemma RoundedCovers(size: nat)
    requires 0 < size < Pmm.WORD
    ensures Rounded(size) >= size <==> size <= Pmm.WORD - GRAIN
    ensures size > Pmm.WORD - GRAIN ==> Rounded(size) == 0
  {
  }

  /** What is asked of the heap for a request that does not wrap: the least multiple of 16 that covers it. */
  lemma RoundedLeast(size: nat)
    requires 0 < size <= Pmm.WORD - 16
    ensures Rounded(size) % 16 == 0 && size <= Rounded(size)
    ensures forall m: nat :: m % 16 == 0 && size <= m ==> Rounded(size) <= m
  {
    var x := size + 15;
    assert Rounded(size) == x / 16 * 16;
    Sixteens(x / 16);
    forall m: nat | m % 16 == 0 && size <= m ensures x / 16 * 16 <= m {
      assert m == m / 16 * 16;
    }
  }

  lemma Sixteens(q: nat)
    ensures q * 16 % 16 == 0
  {
  }

  lemma Eights(q: nat)
    ensures q * 8 % 8 == 0
  {
  }

  lemma RoundedAligned(size: nat)
    ensures Rounded(size) % 8 == 0
  {
    var q := (size + GRAIN - 1) % Pmm.WORD / GRAIN;
    Eights(2 * q);
    assert Rounded(size) == 2 * q * 8;
  }

  function NextOf(base: nat, bs: seq<Block>, k: nat): nat
    requires k < |bs|
  {
    if k + 1 < |bs| then Addr(base, bs, k + 1) else 0
  }

  /** The headers in memory spell out the list of blocks. */
  ghost predicate Linked(headers: map<nat, Header>, base: nat, bs: seq<Block>) {
    forall k: nat :: k < |bs| ==> HeaderOk(headers, base, bs, k)
  }

  ghost predicate HeaderOk(headers: map<nat, Header>, base: nat, bs: seq<Block>, k: nat)
    requires k < |bs|
  {
    var a := Addr(base, bs, k);
    a in headers && headers[a] == Header(bs[k].size, bs[k].free, NextOf(base, bs, k))
  }

  /** Exactly payload x is new; it covers the request unless the request wraps when rounded. */
  ghost predicate Granted(base: nat, bs: seq<Block>, cs: seq<Block>, x: Span, request: nat) {
    && x !in Live(base, bs) && Live(base, cs) == Live(base, bs) + {x}
    && x.size >= Rounded(request) && (x.size >= request <==> request <= Pmm.WORD - GRAIN)
  }

  /** The first free block that is large enough starts at address a; of it `want` bytes are granted if the rest can be
      a block, and all of it otherwise. */
  ghost predicate CutFrom(base: nat, bs: seq<Block>, a: nat, size: nat, want: nat) {
    exists k: nat ::
      && k < |bs| && bs[k].free && bs[k].size >= want && a == Addr(base, bs, k)
      && (forall j :: 0 <= j < k ==> !(bs[j].free && bs[j].size >= want))
      && size == if bs[k].size >= want + HEADER + GRAIN then want else bs[k].size
  }

  lemma TakeCuts(base: nat, bs: seq<Block>, want: nat)
    requires FirstFit(bs, want, 0) < |bs|
    ensures var k := FirstFit(bs, want, 0);
      && k < |Take(bs, k, want)|
      && CutFrom(base, bs, Addr(base, bs, k), Take(bs, k, want)[k].size, want)
  {
  }

  lemma TakeAligned(base: nat, bs: seq<Block>, k: nat, request: nat)
    requires k < |bs| && bs[k].size >= Rounded(request)
    ensures base % 8 == 0 && Aligned(bs) ==>
      Aligned(Take(bs, k, Rounded(request))) && (Addr(base, bs, k) + HEADER) % 8 == 0
  {
    hide Take, Aligned;
    RoundedAligned(request);
    if base % 8 == 0 && Aligned(bs) {
      SplitAligned(bs, k, Rounded(request));
      AddrAligned(base, bs, k);
    }
  }

  lemma TakeGrants(base: nat, bs: seq<Block>, k: nat, request: nat)
    requires 0 < request < Pmm.WORD && k < |bs| && bs[k].free && bs[k].size >= Rounded(request)
    requires base + Total(bs) < Pmm.WORD && HeapOk(bs, Total(bs))
    ensures var cs := Take(bs, k, Rounded(request));
      && k < |cs| && Addr(base, Split(bs, k, Rounded(request)), k) == Addr(base, bs, k)
      && cs == Split(bs, k, Rounded(request))[k := Split(bs, k, Rounded(request))[k].(free := false)]
      && Split(bs, k, Rounded(request))[k].free
      && Granted(base, bs, cs, Span(Addr(base, bs, k), cs[k].size), request)
      && HeapOk(cs, Total(bs)) && Used(cs) == Used(bs) + HEADER + cs[k].size
  {
    var want := Rounded(request);
    RoundedCovers(request);
    TakeAdds(base, bs, k, want);
    SplitKeeps(base, bs, k, want);
    BlockFits(base, bs, k);
    if request > Pmm.WORD - GRAIN {
      assert bs[k].size < Pmm.WORD - GRAIN;
    }
  }

  lemma FreeIsNotLive(base: nat, bs: seq<Block>, k: nat)
    requires k < |bs| && bs[k].free
    ensures forall x :: x in Live(base, bs) ==> x.addr != Addr(base, bs, k)
  {
    forall x | x in Live(base, bs) ensures x.addr != Addr(base, bs, k) {
      var j :| 0 <= j < |bs| && !bs[j].free && x == Span(Addr(base, bs, j), bs[j].size);
      if j < k { AddrIncreases(base, bs, j, k); } else { AddrIncreases(base, bs, k, j); }
    }
  }

  lemma BlockFits(base: nat, bs: seq<Block>, k: nat)
    requires k < |bs|
    ensures base <= Addr(base, bs, k) && Addr(base, bs, k) + HEADER + bs[k].size <= base + Total(bs)
  {
    if k > 0 { AddrIncreases(base, bs, 0, k); }
    AddrIncreases(base, bs, k, |bs|);
    AddrOfEnd(base, bs);
  }

  lemma SplitLinked(headers: map<nat, Header>, base: nat, bs: seq<Block>, k: nat, want: nat)
    requires Linked(headers, base, bs) && k < |bs| && bs[k].free && bs[k].size >= want + HEADER + GRAIN
    ensures var a := Addr(base, bs, k); var n := a + HEADER + want;
      Linked(headers[n := Header(bs[k].size - want - HEADER, true, NextOf(base, bs, k))]
                    [a := Header(want, bs[k].free, n)], base, Split(bs, k, want))
  {
    var a := Addr(base, bs, k);
    var n := a + HEADER + want;
    var h := headers[n := Header(bs[k].size - want - HEADER, true, NextOf(base, bs, k))]
                    [a := Header(want, bs[k].free, n)];
    var cs := Split(bs, k, want);
    SplitBlocks(bs, k, want, 0);
    forall j: nat | j < |cs| ensures HeaderOk(h, base, cs, j) {
      SplitHeader(headers, base, bs, k, want, j);
    }
  }

  lemma SplitAddr(base: nat, bs: seq<Block>, k: nat, want: nat, j: nat)
    requires k < |bs| && bs[k].free && bs[k].size >= want + HEADER + GRAIN
    requires j <= |bs| + 1
    ensures |Split(bs, k, want)| == |bs| + 1
    ensures Addr(base, Split(bs, k, want), j) ==
      if j <= k then Addr(base, bs, j)
      else if j == k + 1 then Addr(base, bs, k) + HEADER + want
      else Addr(base, bs, j - 1)
  {
    hide Addr, Total, Used;
    var mid := [Block(want, bs[k].free), Block(bs[k].size - want - HEADER, true)];
    assert bs[k..k + 1] == [bs[k]];
    OneSum(bs[k]);
    TwoSums(mid[0], mid[1]);
    ReplaceAddr(base, bs, k, k + 1, mid, k);
    if j <= k {
      ReplaceAddr(base, bs, k, k + 1, mid, j);
    } else if j == k + 1 {
      NextAddr(base, Split(bs, k, want), k);
    } else {
      ReplaceAddr(base, bs, k, k + 1, mid, j - 1);
    }
  }

  lemma NextAddr(base: nat, bs: seq<Block>, k: nat)
    requires k < |bs|
    ensures Addr(base, bs, k + 1) == Addr(base, bs, k) + HEADER + bs[k].size
  {
  }

  lemma SplitBlocks(bs: seq<Block>, k: nat, want: nat, j: nat)
    requires k < |bs| && bs[k].size >= want + HEADER + GRAIN && j <= |bs|
    ensures |Split(bs, k, want)| == |bs| + 1
    ensures Split(bs, k, want)[j] ==
      if j < k then bs[j]
      else if j == k then Block(want, bs[k].free)
      else if j == k + 1 then Block(bs[k].size - want - HEADER, true)
      else bs[j - 1]
  {
  }

  lemma SplitHeader(headers: map<nat, Header>, base: nat, bs: seq<Block>, k: nat, want: nat, j: nat)
    requires Linked(headers, base, bs) && k < |bs| && bs[k].free && bs[k].size >= want + HEADER + GRAIN
    requires j <= |bs| && |Split(bs, k, want)| == |bs| + 1
    ensures var a := Addr(base, bs, k); var n := a + HEADER + want;
      HeaderOk(headers[n := Header(bs[k].size - want - HEADER, true, NextOf(base, bs, k))]
                      [a := Header(want, bs[k].free, n)],
               base, Split(bs, k, want), j)
  {
    hide Addr, Split;
    SplitBlocks(bs, k, want, j);
    SplitAddr(base, bs, k, want, j);
    SplitAddr(base, bs, k, want, j + 1);
    SplitAddr(base, bs, k, want, k + 1);
    if j < k {
      assert HeaderOk(headers, base, bs, j);
      AddrIncreases(base, bs, j, k);
    } else if j > k + 1 {
      assert HeaderOk(headers, base, bs, j - 1);
      AddrIncreases(base, bs, k, j - 1);
    }
  }

  lemma MarkLinked(headers: map<nat, Header>, base: nat, bs: seq<Block>, k: nat, free: bool)
    requires Linked(headers, base, bs) && k < |bs|
    ensures var a := Addr(base, bs, k);
      && a in headers && Linked(headers[a := headers[a].(free := free)], base, bs[k := bs[k].(free := free)])
      && Addr(base, bs[k := bs[k].(free := free)], k) == a
  {
    hide Addr, Total, Used;
    var b := bs[k].(free := free);
    var cs := bs[k := b];
    assert cs == bs[..k] + [b] + bs[k + 1..] && bs[k..k + 1] == [bs[k]];
    OneSum(b);
    OneSum(bs[k]);
    forall j: nat | j <= |bs| ensures Addr(base, cs, j) == Addr(base, bs, j) {
      ReplaceAddr(base, bs, k, k + 1, [b], j);
    }
    assert HeaderOk(headers, base, bs, k);
    var a := Addr(base, bs, k);
    var h := headers[a := headers[a].(free := free)];
    forall j: nat | j < |cs| ensures HeaderOk(h, base, cs, j) {
      assert HeaderOk(headers, base, bs, j);
      if j < k { AddrIncreases(base, bs, j, k); }
      if k < j { AddrIncreases(base, bs, k, j); }
    }
  }

  lemma JoinLinked(headers: map<nat, Header>, base: nat, bs: seq<Block>, k: nat)
    requires Linked(headers, base, bs) && k + 1 < |bs| && bs[k].free && bs[k + 1].free
    ensures var a := Addr(base, bs, k); var n := Addr(base, bs, k + 1);
      && a in headers && n in headers && headers[a].next == n
      && Linked(headers[a := Header(headers[a].size + HEADER + headers[n].size, headers[a].free, headers[n].next)],
                base, Join(bs, k))
  {
    hide Total, Used;
    var a, n := Addr(base, bs, k), Addr(base, bs, k + 1);
    assert HeaderOk(headers, base, bs, k) && HeaderOk(headers, base, bs, k + 1);
    var h := headers[a := Header(headers[a].size + HEADER + headers[n].size, headers[a].free, headers[n].next)];
    var cs := Join(bs, k);
    var mid := [Block(bs[k].size + HEADER + bs[k + 1].size, true)];
    assert bs[k..k + 2] == [bs[k], bs[k + 1]];
    TwoSums(bs[k], bs[k + 1]);
    OneSum(mid[0]);
    forall j: nat | j <= |cs| ensures Addr(base, cs, j) == if j <= k then Addr(base, bs, j) else Addr(base, bs, j + 1) {
      ReplaceAddr(base, bs, k, k + 2, mid, if j <= k then j else j + 1);
    }
    forall j: nat | j < |cs| ensures HeaderOk(h, base, cs, j) {
      if j < k {
        assert HeaderOk(headers, base, bs, j);
        AddrIncreases(base, bs, j, k);
      } else if j > k {
        assert HeaderOk(headers, base, bs, j + 1);
        AddrIncreases(base, bs, k, j + 1);
      }
    }
  }

  class KernelHeap {
    const base: nat
    const size: nat
    var headers: map<nat, Header>
    var usedMemory: nat
    ghost var blocks: seq<Block>

    ghost predicate Valid()
      reads this
    {
      && 0 < base && base + size < Pmm.WORD && HEADER <= size
      && HeapOk(blocks, size)
      && usedMemory == Used(blocks)
      && Linked(headers, base, blocks)
    }

    constructor (base: nat, size: nat)
      requires 0 < base && base + size < Pmm.WORD && HEADER <= size
      ensures Valid() && this.base == base && this.size == size && blocks == [Block(size - HEADER, true)]
      ensures usedMemory == 0
    {
      this.base, this.size := base, size;
      headers := map[base := Header(size - HEADER, true, 0)];
      usedMemory := 0;
      blocks := [Block(size - HEADER, true)];
    }

    method FindFreeBlock(want: nat) returns (a: nat)
      requires Valid()
      ensures var k := FirstFit(blocks, want, 0); a == if k < |blocks| then Addr(base, blocks, k) else 0
    {
      a := base;
      ghost var k := 0;
      while a != 0
        invariant 0 <= k <= |blocks|
        invariant a == if k < |blocks| then Addr(base, blocks, k) else 0
        invariant FirstFit(blocks, want, 0) == FirstFit(blocks, want, k)
        decreases |blocks| - k
      {
        assert HeaderOk(headers, base, blocks, k);
        if headers[a].free && headers[a].size >= want { return; }
        a := headers[a].next;
        k := k + 1;
        if k < |blocks| { AddrIncreases(base, blocks, 0, k); }
      }
    }
  
    /** Cuts free block k, at address a, down to `want` bytes if the rest can be a block. */
    method SplitBlock(a: nat, want: nat, ghost k: nat)
      requires Linked(headers, base, blocks) && k < |blocks| && a == Addr(base, blocks, k) && blocks[k].free
      requires blocks[k].size >= want
      modifies this`headers, this`blocks
      ensures blocks == Split(old(blocks), k, want) && Linked(headers, base, blocks)
    {
      assert HeaderOk(headers, base, blocks, k);
      if headers[a].size >= want + HEADER + GRAIN {
        SplitLinked(headers, base, blocks, k, want);
        var n := a + HEADER + want;
        headers := headers[n := Header(headers[a].size - want - HEADER, true, headers[a].next)];
        headers := headers[a := Header(want, headers[a].free, n)];
        blocks := Split(blocks, k, want);
      }
    }

    /** Joins neighbouring free blocks along the list. */
    method MergeFreeBlocks()
      requires Linked(headers, base, blocks) && blocks != [] && 0 < base
      modifies this`headers, this`blocks
      ensures blocks == Coalesce(old(blocks), 0) && Linked(headers, base, blocks)
    {
      var a := base;
      ghost var k := 0;
      assert HeaderOk(headers, base, blocks, 0);
      while a != 0 && headers[a].next != 0
        invariant 0 <= k < |blocks| && a == Addr(base, blocks, k) && Linked(headers, base, blocks)
        invariant a in headers
        invariant Coalesce(old(blocks), 0) == Coalesce(blocks, k)
        decreases |blocks| - k
      {
        assert HeaderOk(headers, base, blocks, k);
        var n := headers[a].next;
        assert HeaderOk(headers, base, blocks, k + 1);
        if headers[a].free && headers[n].free {
          JoinLinked(headers, base, blocks, k);
          AddrPrefix(base, blocks, Join(blocks, k), k);
          headers := headers[a := Header(headers[a].size + HEADER + headers[n].size, headers[a].free, headers[n].next)];
          blocks := Join(blocks, k);
        } else {
          a := n;
          k := k + 1;
        }
        assert HeaderOk(headers, base, blocks, k);
      }
      assert HeaderOk(headers, base, blocks, k);
    }

    /** Hands out a payload, 0 if there is no room. The payload is new, inside the heap, apart from every
        other, and at least as large as asked for unless the request wraps when rounded. */
    method Kmalloc(request: nat) returns (ptr: nat)
      requires Valid() && request < Pmm.WORD
      modifies this
      ensures Valid()
      ensures ptr == 0 <==>
        (request == 0 ||
         forall k :: 0 <= k < |old(blocks)| ==> !(old(blocks)[k].free && old(blocks)[k].size >= Rounded(request)))
      ensures ptr == 0 ==> blocks == old(blocks) && headers == old(headers)
      ensures blocks == if request == 0 then old(blocks) else Applied(old(blocks), Request(Rounded(request)))
      ensures ptr != 0 ==> ptr >= HEADER && ptr - HEADER in headers
      ensures ptr != 0 ==> Granted(base, old(blocks), blocks, Span(ptr - HEADER, headers[ptr - HEADER].size), request)
      ensures ptr != 0 ==> CutFrom(base, old(blocks), ptr - HEADER, headers[ptr - HEADER].size, Rounded(request))
      ensures ptr != 0 ==> usedMemory == old(usedMemory) + headers[ptr - HEADER].size + HEADER
      ensures base % 8 == 0 && old(Aligned(blocks)) ==> Aligned(blocks) && ptr % 8 == 0
    {
      hide Total, Used, Live, FirstFit, Aligned, CutFrom, Granted;
      if request == 0 { return 0; }
      RoundedCovers(request);
      var want := Rounded(request);
      var a := FindFreeBlock(want);
      ghost var k := FirstFit(blocks, want, 0);
      if k < |blocks| && k > 0 { AddrIncreases(base, blocks, 0, k); }
      if a == 0 { return 0; }
      ghost var was := blocks;
      TakeGrants(base, was, k, request);
      TakeAligned(base, was, k, request);
      TakeCuts(base, was, want);
      SplitBlock(a, want, k);
      TakeBlock(a, k);
      ptr := a + HEADER;
    }

    /** Marks block k, at address a, as used. */
    method TakeBlock(a: nat, ghost k: nat)
      requires Linked(headers, base, blocks) && k < |blocks| && a == Addr(base, blocks, k) && blocks[k].free
      modifies this
      ensures blocks == old(blocks)[k := old(blocks)[k].(free := false)] && Linked(headers, base, blocks)
      ensures usedMemory == old(usedMemory) + old(blocks)[k].size + HEADER
      ensures a in headers && headers[a].size == old(blocks)[k].size
    {
      assert HeaderOk(headers, base, blocks, k);
      MarkLinked(headers, base, blocks, k, false);
      headers := headers[a := headers[a].(free := false)];
      usedMemory := usedMemory + headers[a].size + HEADER;
      blocks := blocks[k := blocks[k].(free := false)];
    }

    /** Marks block k, at address a, as free, and joins free neighbours. */
    method GiveBlock(a: nat, ghost k: nat)
      requires Linked(headers, base, blocks) && k < |blocks| && a == Addr(base, blocks, k) && !blocks[k].free
      requires usedMemory >= blocks[k].size + HEADER && 0 < base
      modifies this
      ensures blocks == Coalesce(Give(old(blocks), k), 0) && Linked(headers, base, blocks)
      ensures usedMemory == old(usedMemory) - (old(blocks)[k].size + HEADER)
    {
      hide Coalesce;
      assert HeaderOk(headers, base, blocks, k);
      MarkLinked(headers, base, blocks, k, true);
      headers := headers[a := headers[a].(free := true)];
      usedMemory := usedMemory - (headers[a].size + HEADER);
      blocks := Give(blocks, k);
      MergeFreeBlocks();
    }

    /** Takes a payload back. A null pointer is ignored; a pointer outside the heap or to a block that
        is already free stops the kernel. */
    method Kfree(ptr: nat) returns (r: FreeResult)
      requires Valid() && ptr < Pmm.WORD
      requires base + HEADER <= ptr < base + HEADER + size ==>
        exists k: nat :: k < |blocks| && ptr - HEADER == Addr(base, blocks, k)
      modifies this
      ensures Valid()
      ensures r == Ignored <==> ptr == 0
      ensures r == InvalidPointer <==> ptr != 0 && !(base + HEADER <= ptr < base + HEADER + size)
      ensures r != Freed ==> blocks == old(blocks) && headers == old(headers) && usedMemory == old(usedMemory)
      ensures r == Freed ==> ptr >= HEADER && ptr - HEADER in old(headers)
      ensures r == Freed ==> var x := Span(ptr - HEADER, old(headers)[ptr - HEADER].size);
                             x in Live(base, old(blocks)) && Live(base, blocks) == Live(base, old(blocks)) - {x}
      ensures r == Freed && Live(base, blocks) == {} ==> blocks == [Block(size - HEADER, true)] && usedMemory == 0
      ensures ptr != 0 && r != InvalidPointer ==>
        forall k: nat :: k < |old(blocks)| && ptr - HEADER == Addr(base, old(blocks), k) ==>
          blocks == Applied(old(blocks), Release(k))
      ensures r == Freed ==> usedMemory == old(usedMemory) - (old(headers)[ptr - HEADER].size + HEADER)
      ensures old(Aligned(blocks)) ==> Aligned(blocks)
      ensures r == DoubleFree ==> forall x :: x in Live(base, old(blocks)) ==> x.addr != ptr - HEADER
    {
      hide Total, Live, Coalesce, Aligned, Give, NoAdjacentFree;
      if ptr == 0 { return Ignored; }
      var a := ptr - HEADER;
      if a < base || a >= base + size { return InvalidPointer; }
      ghost var k: nat :| k < |blocks| && a == Addr(base, blocks, k);
      AddrUnique(base, blocks, k);
      assert HeaderOk(headers, base, blocks, k);
      if headers[a].free {
        FreeIsNotLive(base, blocks, k);
        return DoubleFree;
      }
      ghost var was := blocks;
      GiveRemoves(base, blocks, k);
      if Aligned(was) { GiveAligned(was, k); }
      GiveBlock(a, k);
      if Live(base, blocks) == {} {
        AllFreedIsInitial(base, blocks, size);
      }
      r := Freed;
    }
  }
}
