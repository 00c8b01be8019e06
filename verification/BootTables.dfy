/** The page tables that the bootloader builds, which the kernel takes over as its own. */
module BootTables {
  import opened Options
  import opened Pte
  import opened PageTables
  import opened Translation

  const TABLE_BITS: bv12 := 0x003   // present, writable
  const PAGE_BITS: bv12 := 0x083    // present, writable, 2 MB
  const HUGE_STEP: nat := 0x20_0000

  /** 512 pages of 2 MB, the first at frame 512 * n. */
  function Directory(n: nat): (r: seq<Entry>)
    ensures |r| == ENTRIES
  {
    seq(ENTRIES, (i: nat) => Entry(ENTRIES * (n + i), Decode(PAGE_BITS, 0)))
  }

  const PML4 := seq(ENTRIES, i => if i == 0 then Entry(2, Decode(TABLE_BITS, 0)) else ZERO)
  const PDPT := seq(ENTRIES, i => if i == 0 then Entry(3, Decode(TABLE_BITS, 0)) else
                                  if i == 1 then Entry(4, Decode(TABLE_BITS, 0)) else ZERO)

  /** The four tables, in frames 1 to 4. */
  const TABLES: Tables := map[1 := PML4, 2 := PDPT, 3 := Directory(0), 4 := Directory(ENTRIES)]
  const LEVELS: map<nat, nat> := map[1 := 4, 2 := 3, 3 := 2, 4 := 2]

  lemma TableFlags()
    ensures Decode(TABLE_BITS, 0) == Flags(true, true, false, false, false, 0, 0)
    ensures Decode(PAGE_BITS, 0) == Flags(true, true, false, true, false, 0, 0)
  {
  }

  /** Fills one page directory with consecutive 2 MB pages, from the entry in eax on. */
  method FillDirectory(eax: nat) returns (pd: seq<Entry>, next: nat)
    requires eax % HUGE_STEP == 0x83
    ensures pd == Directory(eax / HUGE_STEP) && next == eax + ENTRIES * HUGE_STEP
  {
    pd, next := [], eax;
    for i := 0 to ENTRIES
      invariant |pd| == i && next == eax + i * HUGE_STEP
      invariant forall j :: 0 <= j < i ==> pd[j] == Directory(eax / HUGE_STEP)[j]
    {
      pd := pd + [Entry(next / 0x1000, Decode(PAGE_BITS, 0))];
      next := next + HUGE_STEP;
    }
  }

  method BuildBootTables() returns (t: Tables)
    ensures t == TABLES
  {
    var pml4 := seq(ENTRIES, _ => ZERO)[0 := Entry(2, Decode(TABLE_BITS, 0))];
    var pdpt := seq(ENTRIES, _ => ZERO)[0 := Entry(3, Decode(TABLE_BITS, 0))][1 := Entry(4, Decode(TABLE_BITS, 0))];
    var pd0, eax := FillDirectory(0x83);
    var pd1, end := FillDirectory(eax);
    assert pml4 == PML4 && pdpt == PDPT;
    t := map[1 := pml4, 2 := pdpt, 3 := pd0, 4 := pd1];
  }

  /** They are kernel tables as every address space needs them. */
  lemma BootTablesOk()
    ensures KernelOk(TABLES, 1, LEVELS)
  {
    TableFlags();
  }

  /** They map the first 2 GB, each page to itself, to be written and executed, and nothing else; ring 3 reaches
      none of it. */
  lemma BootIdentity(v: nat)
    requires v < PAGE_NUMBERS
    ensures Leaf(TABLES, 1, v) ==
      if v < 0x8_0000 then Mapped(Entry(v, Flags(true, true, false, false, false, 0, 0))) else Unmapped
    ensures !UserOk(TABLES, 1, v) && forall a :: Allowed(TABLES, 1, v, a) <==> v < 0x8_0000
  {
    TableFlags();
    PageParts(v);
    var i1, i2, i3, i4 := Index(v, 1), Index(v, 2), Index(v, 3), Index(v, 4);
    assert v == ((i4 * 512 + i3) * 512 + i2) * 512 + i1 by { Parts(v); }
    assert Node(TABLES, 1, v, 4) == Some(1);
    assert Node(TABLES, 1, v, 3) == if i4 == 0 then Some(2) else None;
    assert Node(TABLES, 1, v, 2) == if i4 == 0 && i3 < 2 then Some(3 + i3) else None;
  }

  lemma Parts(v: nat)
    requires v < PAGE_NUMBERS
    ensures v == ((Index(v, 4) * 512 + Index(v, 3)) * 512 + Index(v, 2)) * 512 + Index(v, 1)
  {
    TopPrefix(v);
    assert Prefix(v, 1) == v / 512;
    assert Prefix(v, 2) == Prefix(v, 1) / 512;
    assert Prefix(v, 3) == Prefix(v, 2) / 512;
    assert Prefix(v, 4) == Prefix(v, 3) / 512;
  }
}
