/** The physical frame allocator: one bit per 4 KB page, set when the page is in use. */
module Pmm {

  const PAGE_SIZE: nat := 4096
  const WORD: nat := 0x1_0000_0000_0000_0000

  // ----- one byte of the bitmap -----

  /** `1 << k`, spelled out so that the solver never converts a shift amount. */
  function Mask(k: nat): bv8
    requires k < 8
  {
    if k == 0 then 1 else if k == 1 then 2 else if k == 2 then 4 else if k == 3 then 8
    else if k == 4 then 16 else if k == 5 then 32 else if k == 6 then 64 else 128
  }

  predicate Bit(b: bv8, k: nat)
    requires k < 8
  {
    b & Mask(k) != 0
  }

  /** Setting or clearing a bit changes that bit and no other. */
  lemma BitUpdate(b: bv8, k: nat, j: nat)
    requires k < 8 && j < 8
    ensures Bit(b | Mask(k), j) == (j == k || Bit(b, j))
    ensures Bit(b & !Mask(k), j) == (j != k && Bit(b, j))
  {
  }

  predicate Taken(bytes: seq<bv8>, p: nat)
    requires p < 8 * |bytes|
  {
    Bit(bytes[p / 8], p % 8)
  }

  function Pages(n: nat): (s: set<nat>)
    ensures |s| == n
    ensures forall p: nat :: p in s <==> p < n
  {
    if n == 0 then {} else Pages(n - 1) + {n - 1}
  }

  lemma PageCount(s: set<nat>, n: nat)
    requires forall p: nat :: p in s ==> p < n
    ensures |s| <= n
  {
    assert |Pages(n) - s| == n - |s|;
  }

  function SetPage(bytes: seq<bv8>, page: nat): (r: seq<bv8>)
    requires page < 8 * |bytes|
    ensures |r| == |bytes|
  {
    bytes[page / 8 := bytes[page / 8] | Mask(page % 8)]
  }

  function ClearPage(bytes: seq<bv8>, page: nat): (r: seq<bv8>)
    requires page < 8 * |bytes|
    ensures |r| == |bytes|
  {
    bytes[page / 8 := bytes[page / 8] & !Mask(page % 8)]
  }

  lemma PageUpdate(bytes: seq<bv8>, page: nat, p: nat)
    requires page < 8 * |bytes| && p < 8 * |bytes|
    ensures Taken(SetPage(bytes, page), p) == (p == page || Taken(bytes, p))
    ensures Taken(ClearPage(bytes, page), p) == (p != page && Taken(bytes, p))
  {
    if p / 8 == page / 8 {
      BitUpdate(bytes[page / 8], page % 8, p % 8);
    }
  }

  /** The pages of a range that are not in use. */
  function FreeIn(used: set<nat>, low: nat, top: nat): set<nat> {
    set p: nat | low <= p < top && p !in used
  }

  lemma OneTaken(used: set<nat>, low: nat, top: nat, p: nat)
    requires low <= p < top && p !in used
    ensures |FreeIn(used + {p}, low, top)| == |FreeIn(used, low, top)| - 1
  {
    assert FreeIn(used + {p}, low, top) == FreeIn(used, low, top) - {p};
  }

  lemma NoneIn(used: set<nat>, low: nat, top: nat)
    requires forall p: nat :: low <= p < top ==> p in used
    ensures FreeIn(used, low, top) == {}
  {
  }

  class FrameAllocator {
    const bitmap: array<bv8>
    const low: nat               // first page ever handed out
    var freePages: nat
    ghost var used: set<nat>     // the pages whose bit is set
    ghost var freed: seq<nat>    // every page given back by FreePage, in order

    /** The set bits are exactly `used`, and the counter is the number of clear bits. */
    ghost predicate Valid()
      reads this, bitmap
    {
      && 0 < low
      && (forall p: nat {:trigger Taken(bitmap[..], p)} :: p < 8 * bitmap.Length ==>
            (p in used <==> Taken(bitmap[..], p)))
      && (forall p: nat :: p in used ==> p < 8 * bitmap.Length)
      && freePages == 8 * bitmap.Length - |used|
    }

    constructor (n: nat, firstPage: nat)
      requires 0 < firstPage
      ensures Valid() && bitmap.Length == n && low == firstPage && used == {} && freed == [] && fresh(bitmap)
    {
      var a := new bv8[n](_ => 0);
      bitmap := a;
      low := firstPage;
      freePages := 8 * n;
      used := {};
      freed := [];
    }

    method Test(page: nat) returns (r: bool)
      requires Valid() && page < 8 * bitmap.Length
      ensures r <==> page in used
    {
      r := Bit(bitmap[page / 8], page % 8);
      assert r == Taken(bitmap[..], page);
    }

    /** Marks a free page used, keeping the counter. */
    method Take(page: nat)
      requires Valid() && page < 8 * bitmap.Length && page !in used
      modifies this`freePages, this`used, bitmap
      ensures Valid() && used == old(used) + {page} && freePages == old(freePages) - 1
    {
      ghost var before := bitmap[..];
      bitmap[page / 8] := bitmap[page / 8] | Mask(page % 8);
      assert bitmap[..] == SetPage(before, page);
      forall p: nat | p < 8 * |before| ensures Taken(bitmap[..], p) == (p == page || Taken(before, p)) {
        PageUpdate(before, page, p);
      }
      used := used + {page};
      PageCount(used, 8 * bitmap.Length);
      if freePages > 0 { freePages := freePages - 1; }
    }

    /** Marks a used page free, keeping the counter. */
    method Release(page: nat)
      requires Valid() && page in used
      modifies this`freePages, this`used, bitmap
      ensures Valid() && used == old(used) - {page} && freePages == old(freePages) + 1
    {
      ghost var before := bitmap[..];
      bitmap[page / 8] := bitmap[page / 8] & !Mask(page % 8);
      assert bitmap[..] == ClearPage(before, page);
      forall p: nat | p < 8 * |before| ensures Taken(bitmap[..], p) == (p != page && Taken(before, p)) {
        PageUpdate(before, page, p);
      }
      used := used - {page};
      freePages := freePages + 1;
    }

    /** No page that may be handed out is free. */
    ghost predicate NoneFree()
      reads this
    {
      forall p: nat :: low <= p < 8 * bitmap.Length ==> p in used
    }

    /** The pages that may be handed out. */
    ghost function FreeFrames(): set<nat>
      reads this
    {
      FreeIn(used, low, 8 * bitmap.Length)
    }

    /** None is free but f at most. */
    ghost predicate NoneFreeBut(f: nat)
      reads this
    {
      forall p: nat :: low <= p < 8 * bitmap.Length ==> p in used || p == f
    }

    /** At most one is free. */
    ghost predicate Exhausted()
      reads this
    {
      exists f: nat :: NoneFreeBut(f)
    }

    lemma NoneIsExhausted()
      requires NoneFree()
      ensures Exhausted()
    {
      assert NoneFreeBut(0);
    }

    /** Hands out the lowest free page at or above `low`; 0 when there is none. */
    method AllocPage() returns (addr: nat)
      requires Valid()
      modifies this, bitmap
      ensures Valid() && freed == old(freed)
      ensures addr == 0 <==> old(NoneFree())
      ensures addr == 0 ==> used == old(used) && freePages == old(freePages)
      ensures addr != 0 ==>
        && addr % PAGE_SIZE == 0
        && low <= addr / PAGE_SIZE < 8 * bitmap.Length
        && addr / PAGE_SIZE !in old(used)
        && (forall p: nat :: low <= p < addr / PAGE_SIZE ==> p in old(used))
        && used == old(used) + {addr / PAGE_SIZE}
        && freePages == old(freePages) - 1
    {
      var i := low;
      while i < 8 * bitmap.Length
        invariant low <= i && Valid()
        invariant used == old(used) && freePages == old(freePages) && freed == old(freed)
        invariant forall p: nat :: low <= p < i && p < 8 * bitmap.Length ==> p in used
      {
        var taken := Test(i);
        if !taken {
          Take(i);
          return i * PAGE_SIZE;
        }
        i := i + 1;
      }
      return 0;
    }

    /** Gives a page back; a page that is already free, or lies beyond the bitmap, is left alone. */
    method FreePage(addr: nat)
      requires Valid()
      modifies this, bitmap
      ensures Valid()
      ensures used == old(used) - {addr / PAGE_SIZE}
      ensures freePages == old(freePages) + if addr / PAGE_SIZE in old(used) then 1 else 0
      ensures freed == old(freed) + [addr / PAGE_SIZE]
    {
      var page := addr / PAGE_SIZE;
      freed := freed + [page];
      if page >= 8 * bitmap.Length { return; }
      var taken := Test(page);
      if taken {
        Release(page);
      }
    }

    /** Reserves every page that [base, base + length) touches, if its end, rounded up, fits into 64 bits.
        An end that wraps around leaves the whole region unreserved. */
    method MarkRegionUsed(base: nat, length: nat)
      requires Valid() && base < WORD && length < WORD
      modifies this, bitmap
      ensures Valid() && freed == old(freed)
      ensures base + length + PAGE_SIZE <= WORD ==> forall q: nat :: q in used <==>
        q in old(used) || (q < 8 * bitmap.Length && base / PAGE_SIZE <= q < (base + length + PAGE_SIZE - 1) / PAGE_SIZE)
      ensures base + length + PAGE_SIZE > WORD ==> forall q: nat :: q in used <==>
        || q in old(used)
        || (q < 8 * bitmap.Length && base / PAGE_SIZE <= q < (base + length + PAGE_SIZE - 1) % WORD / PAGE_SIZE)
      ensures base + length + PAGE_SIZE > WORD && length + PAGE_SIZE <= WORD ==> used == old(used)
    {
      MarkPagesUsed(base / PAGE_SIZE, (base + length + PAGE_SIZE - 1) % WORD / PAGE_SIZE);
    }

    method MarkPagesUsed(start: nat, stop: nat)
      requires Valid()
      modifies this, bitmap
      ensures Valid() && freed == old(freed)
      ensures forall q: nat :: q in used <==> q in old(used) || (start <= q < stop && q < 8 * bitmap.Length)
    {
      var end := stop;
      if end > 8 * bitmap.Length { end := 8 * bitmap.Length; }
      var p := start;
      while p < end
        invariant start <= p && (p == start || p <= end) && Valid() && freed == old(freed)
        invariant forall q: nat :: q in used <==> q in old(used) || start <= q < p
      {
        var taken := Test(p);
        if !taken {
          Take(p);
        }
        p := p + 1;
      }
    }

    /** Releases the pages from the one holding `base` up to the last page wholly below base + length; none
        if the end wraps around. */
    method MarkRegionFree(base: nat, length: nat)
      requires Valid() && base < WORD && length < WORD
      modifies this, bitmap
      ensures Valid() && freed == old(freed)
      ensures base + length < WORD ==> forall q: nat :: q in used <==>
        q in old(used) && !(base / PAGE_SIZE <= q < (base + length) / PAGE_SIZE)
      ensures base + length >= WORD ==> used == old(used)
    {
      MarkPagesFree(base / PAGE_SIZE, (base + length) % WORD / PAGE_SIZE);
    }

    method MarkPagesFree(start: nat, stop: nat)
      requires Valid()
      modifies this, bitmap
      ensures Valid() && freed == old(freed)
      ensures forall q: nat :: q in used <==> q in old(used) && !(start <= q < stop)
    {
      var end := stop;
      if end > 8 * bitmap.Length { end := 8 * bitmap.Length; }
      var p := start;
      while p < end
        invariant start <= p && (p == start || p <= end) && Valid() && freed == old(freed)
        invariant forall q: nat :: q in used <==> q in old(used) && !(start <= q < p)
      {
        var taken := Test(p);
        if taken {
          Release(p);
        }
        p := p + 1;
      }
    }
  }
}
