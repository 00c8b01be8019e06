/** The page-table manager: address spaces that start as the kernel's, take private tables by
    copy-on-map, split 2 MB pages on demand and give everything back on teardown. */
module Vmm {
  import opened Options
  import opened Pte
  import opened PageTables
  import opened Translation
  import opened Teardown
  import opened TableCount
  import Pmm

  const PAGE_SIZE := Pmm.PAGE_SIZE

  /** The page number the walk uses for a virtual address: bits 12..47. */
  function PageOf(virt: nat): (v: nat)
    ensures v < PAGE_NUMBERS
  {
    virt / PAGE_SIZE % PAGE_NUMBERS
  }

  lemma DropField36(p: nat)
    ensures (p % 0x10_0000_0000) / 512 == p / 512 % 0x800_0000 && p % 0x10_0000_0000 % 512 == p % 512
  {
    var q, r := p / 512, p % 512;
    var k, m := q / 0x800_0000, q % 0x800_0000;
    assert p == 0x10_0000_0000 * k + (512 * m + r);
    assert p % 0x10_0000_0000 == 512 * m + r;
  }

  lemma DropField27(p: nat)
    ensures (p % 0x800_0000) / 512 == p / 512 % 0x4_0000 && p % 0x800_0000 % 512 == p % 512
  {
    var q, r := p / 512, p % 512;
    var k, m := q / 0x4_0000, q % 0x4_0000;
    assert p == 0x800_0000 * k + (512 * m + r);
    assert p % 0x800_0000 == 512 * m + r;
  }

  lemma DropField18(p: nat)
    ensures (p % 0x4_0000) / 512 == p / 512 % 512 && p % 0x4_0000 % 512 == p % 512
  {
    var q, r := p / 512, p % 512;
    var k, m := q / 512, q % 512;
    assert p == 0x4_0000 * k + (512 * m + r);
    Remainder18(p, k, 512 * m + r);
  }

  lemma Remainder18(p: nat, k: nat, z: nat)
    requires p == 0x4_0000 * k + z && z < 0x4_0000
    ensures p % 0x4_0000 == z
  {
  }

  lemma ShiftFields(virt: nat)
    ensures virt / 0x20_0000 == virt / 0x1000 / 512
    ensures virt / 0x4000_0000 == virt / 0x20_0000 / 512
    ensures virt / 0x80_0000_0000 == virt / 0x4000_0000 / 512
  {
  }

  /** The table indices of an address are the four 9-bit fields above the page offset. */
  lemma IndexFields(virt: nat)
    ensures virt / 0x80_0000_0000 % ENTRIES == Index(PageOf(virt), 4)
    ensures virt / 0x4000_0000 % ENTRIES == Index(PageOf(virt), 3)
    ensures virt / 0x20_0000 % ENTRIES == Index(PageOf(virt), 2)
    ensures virt / 0x1000 % ENTRIES == Index(PageOf(virt), 1)
  {
    ShiftFields(virt);
    var p0 := virt / 0x1000;
    var p1 := p0 / 512;
    var p2 := p1 / 512;
    var v := PageOf(virt);
    DropField36(p0);
    assert Prefix(v, 1) == p1 % 0x800_0000;
    DropField27(p1);
    assert Prefix(v, 2) == p2 % 0x4_0000;
    DropField18(p2);
    assert Prefix(v, 3) == p2 / 512 % 512;
  }

  /** The physical address a walk yields, 0 when the page is not mapped. */
  function Physical(t: Tables, root: nat, virt: nat): nat {
    match Leaf(t, root, PageOf(virt))
    case Unmapped => 0
    case Mapped(e) => e.frame * PAGE_SIZE + virt % PAGE_SIZE
  }

  // ----- contents of a new table -----

  const EMPTY_TABLE: seq<Entry> := seq(ENTRIES, _ => ZERO)

  /** Entry j of the piece table of a 2 MB page. */
  function Piece(e: Entry, j: nat): Entry {
    Entry(e.frame + j, SplitFlags(e.fl))
  }

  /** What the kernel has below one of its entries: nothing, a table, or the pieces of a 2 MB page. */
  lemma BelowEntry(m: Vm, l: nat, prefix: nat, i: nat, j: nat)
    requires KernelOk(m.t, m.kroot, m.kern) && 2 <= l <= 4 && i < ENTRIES && j < ENTRIES
    ensures var e := m.Inherited(l, prefix, i);
      m.Inherited(l - 1, prefix * ENTRIES + i, j) ==
        if !e.fl.present then ZERO else if l == 2 then Piece(e, j) else At(m.t, e.frame, j)
    ensures var e := m.Inherited(l, prefix, i);
      e.fl.present && l > 2 ==> e.frame in m.kern && e.frame in m.t && |m.t[e.frame]| == ENTRIES && !e.fl.huge
    ensures var e := m.Inherited(l, prefix, i); !e.fl.priv && !e.fl.user && (e.fl.present && l == 2 ==> e.fl.huge)
  {
    assert (prefix * ENTRIES + i) / ENTRIES == prefix && (prefix * ENTRIES + i) % ENTRIES == i;
    KernelEntryShape(m.t, m.kroot, m.kern, l, prefix, i);
  }

  /** A shared table is replaced by a private copy of itself. */
  function CopyShared(m: Vm, f: nat, i: nat, n: nat, user: bool): Vm
    requires f in m.own && m.own[f].level >= 1 && f in m.t && i < |m.t[f]| && n != f && m.t[f][i].frame in m.t
  {
    var e := m.t[f][i];
    Attach(m, f, i, n, m.t[e.frame], Entry(n, Privatised(e.fl, user)))
  }

  /** Entry i of table f leads to a private table. */
  ghost predicate Private(m: Vm, f: nat, i: nat) {
    At(m.t, f, i).fl.present && At(m.t, f, i).fl.priv
  }

  /** Entry i of private table f is not a private table. */
  ghost predicate Shared(m: Vm, f: nat, i: nat) {
    && f in m.own && 2 <= m.own[f].level <= 4 && i < ENTRIES && f in m.t && |m.t[f]| == ENTRIES && f !in m.kern
    && !(m.t[f][i].fl.present && m.t[f][i].fl.priv)
  }

  ghost predicate UserBelow(m: Vm, f: nat, user: bool)
    requires f in m.own
  {
    user && m.own[f].level < 4 ==> m.Link(f).fl.user
  }

  /** What the step down through entry i of table f establishes. */
  ghost predicate Stepped(m: Vm, m': Vm, f: nat, i: nat, user: bool)
    requires f in m.own
  {
    && Inv(m') && SameKernel(m, m') && m'.spaces == m.spaces
    && f in m'.own && m'.own[f] == m.own[f] && m.own[f].level >= 1
    && (m.own[f].level < 4 ==> m'.Link(f) == m.Link(f))
    && IsChild(m', f, i, At(m'.t, f, i))
    && (user ==> At(m'.t, f, i).fl.user)
    && OnlyChild(m, m', f, i)
  }

  lemma SteppedInv(m: Vm, m': Vm, f: nat, i: nat, user: bool)
    requires f in m.own && Stepped(m, m', f, i, user)
    ensures Inv(m')
  {
  }

  lemma PutLengths(t: Tables, f: nat, i: nat, e: Entry)
    requires f in t && i < |t[f]|
    ensures forall g :: g in t ==> g in Put(t, f, i, e) && |Put(t, f, i, e)[g]| == |t[g]|
  {
  }

  lemma AttachFacts(m: Vm, f: nat, i: nat, n: nat, content: seq<Entry>, e: Entry)
    requires f in m.own && m.own[f].level >= 1 && f in m.t && i < |m.t[f]| && n != f
    ensures var m' := Attach(m, f, i, n, content, e);
      && m'.kern == m.kern && m'.kroot == m.kroot && m'.t == Put(m.t[n := content], f, i, e)
      && n in m'.own && m'.own == m.own[n := m'.own[n]] && m'.own[n].space == m.own[f].space
  {
  }

  lemma PrivateIsChild(m: Vm, f: nat, i: nat)
    requires Inv(m) && f in m.own && m.own[f].level >= 2 && i < ENTRIES
    requires At(m.t, f, i).fl.present && At(m.t, f, i).fl.priv
    ensures IsChild(m, f, i, At(m.t, f, i))
  {
    hide Inv, KernelOk, KernelEntry;
    EntryIs(m, f, i);
    KernelEntryShape(m.t, m.kroot, m.kern, m.own[f].level, m.own[f].prefix, i);
  }

  /** A level-2 entry is absent, a 2 MB page of the kernel's, or a private table. */
  lemma PdEntry(m: Vm, f: nat, i: nat)
    requires Inv(m) && f in m.own && m.own[f].level == 2 && i < ENTRIES
    ensures At(m.t, f, i).fl.present ==> (At(m.t, f, i).fl.priv <==> !At(m.t, f, i).fl.huge)
  {
    hide Inv, KernelOk, KernelEntry;
    EntryIs(m, f, i);
    KernelEntryShape(m.t, m.kroot, m.kern, 2, m.own[f].prefix, i);
  }

  lemma SharedIsInherited(m: Vm, f: nat, i: nat)
    requires Inv(m) && Shared(m, f, i)
    ensures m.t[f][i] == m.Inherited(m.own[f].level, m.own[f].prefix, i)
  {
    hide Inv, KernelOk, KernelEntry;
    EntryIs(m, f, i);
  }

  lemma AttachSteps(m: Vm, f: nat, i: nat, n: nat, content: seq<Entry>, e: Entry, user: bool)
    requires Inv(m) && CanAttach(m, f, i, n, content, e) && (user ==> e.fl.user) && f !in m.kern
    ensures Stepped(m, Attach(m, f, i, n, content, e), f, i, user)
  {
    hide Inv, KernelEntry, EntryOk;
    AttachKeepsInv(m, f, i, n, content, e);
    TableIs(m, f);
    if m.own[f].level < 4 {
      AttachLink(m, f, i, n, content, e, f);
    }
  }

  lemma SharedTable(m: Vm, f: nat, i: nat)
    requires Inv(m) && Shared(m, f, i) && m.own[f].level >= 3 && m.t[f][i].fl.present
    ensures m.t[f][i].frame in m.t && |m.t[m.t[f][i].frame]| == ENTRIES
  {
    SharedIsInherited(m, f, i);
    BelowEntry(m, m.own[f].level, m.own[f].prefix, i, 0);
  }

  lemma CopySteps(m: Vm, f: nat, i: nat, n: nat, user: bool)
    requires Inv(m) && Shared(m, f, i) && m.own[f].level >= 3 && m.t[f][i].fl.present
    requires n !in m.own && n !in m.kern && UserBelow(m, f, user)
    ensures m.t[f][i].frame in m.t && |m.t[m.t[f][i].frame]| == ENTRIES
    ensures Stepped(m, CopyShared(m, f, i, n, user), f, i, user)
  {
    hide Inv, KernelEntry, Stepped, Attach;
    var e := m.t[f][i];
    TableIs(m, f);
    SharedIsInherited(m, f, i);
    BelowEntry(m, m.own[f].level, m.own[f].prefix, i, 0);
    forall j: nat | j < ENTRIES
      ensures m.t[e.frame][j] == m.Inherited(m.own[f].level - 1, m.own[f].prefix * ENTRIES + i, j)
    {
      BelowEntry(m, m.own[f].level, m.own[f].prefix, i, j);
    }
    AttachSteps(m, f, i, n, m.t[e.frame], Entry(n, Privatised(e.fl, user)), user);
  }

  lemma NewTableSteps(m: Vm, f: nat, i: nat, n: nat, user: bool)
    requires Inv(m) && Shared(m, f, i) && !m.t[f][i].fl.present
    requires n !in m.own && n !in m.kern && UserBelow(m, f, user)
    ensures Stepped(m, Attach(m, f, i, n, EMPTY_TABLE, Entry(n, NewParent(user))), f, i, user)
  {
    hide Inv, KernelEntry, Stepped, Attach;
    TableIs(m, f);
    SharedIsInherited(m, f, i);
    forall j: nat | j < ENTRIES
      ensures EMPTY_TABLE[j] == m.Inherited(m.own[f].level - 1, m.own[f].prefix * ENTRIES + i, j)
    {
      BelowEntry(m, m.own[f].level, m.own[f].prefix, i, j);
    }
    AttachSteps(m, f, i, n, EMPTY_TABLE, Entry(n, NewParent(user)), user);
  }

  /** The table of the 512 pieces of a 2 MB page. */
  function Pieces(e: Entry): (r: seq<Entry>)
    ensures |r| == ENTRIES
  {
    seq(ENTRIES, j requires 0 <= j < ENTRIES => Piece(e, j))
  }

  lemma SplitSteps(m: Vm, f: nat, i: nat, n: nat, user: bool)
    requires Inv(m) && Shared(m, f, i) && m.own[f].level == 2 && m.t[f][i].fl.present
    requires n !in m.own && n !in m.kern && UserBelow(m, f, user)
    ensures Stepped(m, Attach(m, f, i, n, Pieces(m.t[f][i]), Entry(n, NewParent(user))), f, i, user)
  {
    hide Inv, KernelEntry, Stepped, Attach;
    TableIs(m, f);
    SharedIsInherited(m, f, i);
    forall j: nat | j < ENTRIES
      ensures Pieces(m.t[f][i])[j] == m.Inherited(m.own[f].level - 1, m.own[f].prefix * ENTRIES + i, j)
    {
      BelowEntry(m, m.own[f].level, m.own[f].prefix, i, j);
    }
    BelowEntry(m, m.own[f].level, m.own[f].prefix, i, 0);
    AttachSteps(m, f, i, n, Pieces(m.t[f][i]), Entry(n, NewParent(user)), user);
  }

  lemma OpenSteps(m: Vm, f: nat, i: nat)
    requires Inv(m) && CanOpen(m, f, i)
    ensures Stepped(m, Open(m, f, i), f, i, true)
  {
    hide Inv, KernelOk, KernelEntry, EntryOk, LinkOk, SameKernel;
    OpenKeepsInv(m, f, i);
    TableIs(m, f);
    OpenKernel(m, f, i);
    if m.own[f].level < 4 {
      OpenLink(m, f, i, f);
    }
  }

  lemma SameSteps(m: Vm, f: nat, i: nat)
    requires Inv(m) && f in m.own && m.own[f].level >= 2 && IsChild(m, f, i, At(m.t, f, i))
    ensures Stepped(m, m, f, i, false)
  {
    hide EntryOk, LinkOk, KernelEntry, TableOk;
  }

  /** Every private table and every kernel table is a frame in use. */
  ghost predicate Accounted(m: Vm, used: set<nat>) {
    m.own.Keys <= used && m.kern.Keys <= used
  }

  /** Private tables only ever grew, in space r, by frames that were free. */
  ghost predicate Grew(r: nat, used: set<nat>, m: Vm, used': set<nat>, m': Vm) {
    && m'.kern == m.kern
    && (forall f :: f in m.own ==> f in m'.own && m'.own[f] == m.own[f])
    && (forall f :: f in m'.own && f !in m.own ==> f !in used && m'.own[f].space == r)
    && used' == used + m'.own.Keys
  }

  lemma GrewByOne(used: set<nat>, m: Vm, n: nat, m': Vm)
    requires Accounted(m, used) && n !in used && m'.kern == m.kern
    requires n in m'.own && m'.own == m.own[n := m'.own[n]]
    ensures Grew(m'.own[n].space, used, m, used + {n}, m') && Accounted(m', used + {n})
  {
    assert m'.own.Keys == m.own.Keys + {n};
  }

  lemma GrewInPlace(r: nat, m: Vm, m': Vm, used: set<nat>)
    requires Accounted(m, used) && m'.own == m.own && m'.kern == m.kern
    ensures Grew(r, used, m, used, m')
  {
  }

  lemma GrewByNone(r: nat, m: Vm, used: set<nat>)
    requires Accounted(m, used)
    ensures Grew(r, used, m, used, m)
  {
  }

  lemma GrewTwice(r: nat, used0: set<nat>, m0: Vm, used1: set<nat>, m1: Vm, used2: set<nat>, m2: Vm)
    requires Grew(r, used0, m0, used1, m1) && Grew(r, used1, m1, used2, m2)
    ensures Grew(r, used0, m0, used2, m2)
  {
  }

  /** m' is m, or m after a step through entry i of table f. */
  ghost predicate Prepared(m: Vm, m': Vm, f: nat, i: nat, user: bool)
    requires f in m.own
  {
    m' == m || Stepped(m, m', f, i, user)
  }

  lemma PreparedFacts(m: Vm, m': Vm, f: nat, i: nat, user: bool)
    requires f in m.own && Prepared(m, m', f, i, user) && Inv(m') && UserBelow(m, f, user)
    ensures m'.spaces == m.spaces && f in m'.own && m'.own[f] == m.own[f] && TableOk(m', f) && UserBelow(m', f, user)
    ensures KernelOk(m.t, m.kroot, m.kern) ==> SameKernel(m, m')
  {
    assert TableOk(m', f);
  }

  lemma SteppedTwice(m0: Vm, m1: Vm, m2: Vm, f: nat, i: nat, user: bool)
    requires f in m0.own && Prepared(m0, m1, f, i, user) && f in m1.own && Stepped(m1, m2, f, i, user)
    ensures Stepped(m0, m2, f, i, user)
  {
    hide Inv, SameKernel;
    OnlyChildTwice(m0, m1, m2, f, i);
    if m1 != m0 { KernelTwice(m0, m1, m2); }
  }

  lemma KernelTwice(m0: Vm, m1: Vm, m2: Vm)
    requires SameKernel(m0, m1) && SameKernel(m1, m2)
    ensures SameKernel(m0, m2)
  {
  }

  /** The mapping of page v in space r has reached private table f at level l, and changed no space. */
  ghost predicate Reached(m0: Vm, m: Vm, r: nat, v: nat, l: nat, f: nat, user: bool) {
    && 1 <= l <= 4
    && m.spaces == m0.spaces && m.kroot == m0.kroot && m.kern == m0.kern && SameKernel(m0, m)
    && f in m.own && m.own[f].space == r && m.own[f].level == l && m.own[f].prefix == Prefix(v, l)
    && UserBelow(m, f, user)
  }

  lemma ReachedRoot(m: Vm, r: nat, v: nat, user: bool)
    requires Inv(m) && r in m.spaces && v < PAGE_NUMBERS
    ensures Reached(m, m, r, v, 4, r, user) && r != m.kroot
  {
    assert RootOk(m, r);
    assert TableOk(m, r);
    TopPrefix(v);
  }

  lemma PathStart(m: Vm, r: nat, v: nat)
    ensures OnPath(m, m, r, v)
  {
  }

  lemma ReachedNext(m0: Vm, m: Vm, m': Vm, r: nat, v: nat, l: nat, f: nat, user: bool)
    requires 2 <= l <= 4 && Reached(m0, m, r, v, l, f, user) && Stepped(m, m', f, Index(v, l), user)
    ensures Reached(m0, m', r, v, l - 1, At(m'.t, f, Index(v, l)).frame, user)
  {
    assert Prefix(v, l) * ENTRIES + Index(v, l) == Prefix(v, l - 1);
  }

  lemma ReachedAtMost(m0: Vm, m: Vm, m': Vm, r: nat, v: nat, l: nat, f: nat, user: bool)
    requires Reached(m0, m, r, v, l, f, user) && Prepared(m, m', f, Index(v, l), user)
    ensures m'.spaces == m0.spaces && SameKernel(m0, m')
  {
  }

  lemma PathNext(m0: Vm, m: Vm, m': Vm, r: nat, v: nat, l: nat, f: nat, user: bool, ok: bool)
    requires 2 <= l <= 4 && Reached(m0, m, r, v, l, f, user) && OnPath(m0, m, r, v)
    requires if ok then Stepped(m, m', f, Index(v, l), user) else Prepared(m, m', f, Index(v, l), user)
    ensures OnPath(m0, m', r, v)
  {
    hide Inv, SameKernel, OnPath, Prefix, Index;
    OnPathNext(m0, m, m', r, v, l, f);
  }

  lemma MissingBelow(m0: Vm, m: Vm, m': Vm, r: nat, v: nat, l: nat, f: nat, user: bool)
    requires 2 <= l <= 4 && Reached(m0, m, r, v, l, f, user) && Prepared(m, m', f, Index(v, l), user)
    requires Inv(m') && !Private(m', f, Index(v, l))
    ensures Missing(m', r, v) != {}
  {
    hide Inv, SameKernel, Prefix, Index, Missing;
    NoneBelow(m', r, v, l, f);
  }

  /** The walk for page v ends exactly when there is a free frame for each missing table. */
  lemma WalkFits(r: nat, used0: set<nat>, m0: Vm, used: set<nat>, m: Vm, v: nat, low: nat, top: nat, ok: bool, pt: nat,
                 user: bool)
    requires Inv(m) && Grew(r, used0, m0, used, m) && OnPath(m0, m, r, v) && Accounted(m0, used0)
    requires forall f :: f in m.own ==> low <= f < top
    requires if ok then Reached(m0, m, r, v, 1, pt, user) else Missing(m, r, v) != {}
    requires !ok ==> forall p: nat :: low <= p < top ==> p in used
    ensures var free0, free := Pmm.FreeIn(used0, low, top), Pmm.FreeIn(used, low, top);
      && (ok <==> |Missing(m0, r, v)| <= |free0|)
      && (ok ==> Missing(m, r, v) == {} && |free| == |free0| - |Missing(m0, r, v)|)
  {
    hide Inv, OnPath, Missing, SameKernel, Prefix;
    var free0, free := Pmm.FreeIn(used0, low, top), Pmm.FreeIn(used, low, top);
    if ok { NoneMissing(m, r, v, pt); }
    assert free == free0 - m.own.Keys;
    WalkCost(m0, used0, free0, m, free, r, v, ok);
  }

  lemma SameMissing(m: Vm, m': Vm, r: nat, v: nat)
    requires m'.own == m.own
    ensures Missing(m', r, v) == Missing(m, r, v)
  {
    assert forall f, l: nat :: l <= 4 ==> (Serves(m', f, r, v, l) <==> Serves(m, f, r, v, l));
  }

  lemma LeafSteps(m0: Vm, m: Vm, r: nat, v: nat, pt: nat, leaf: Entry)
    requires Inv(m) && Reached(m0, m, r, v, 1, pt, leaf.fl.user) && leaf.fl.present
    ensures pt in m.own && pt in m.t && |m.t[pt]| == ENTRIES && m.own[pt].space in m.spaces
    ensures Inv(MapLeaf(m, pt, Index(v, 1), leaf)) && MapsOnly(m0, MapLeaf(m, pt, Index(v, 1), leaf), r, v, leaf)
  {
    hide Inv, KernelOk, KernelEntry, EntryOk;
    TableIs(m, pt);
    PageParts(v);
    MapLeafKeepsInv(m, pt, Index(v, 1), leaf);
  }

  lemma KernelRoot(m: Vm)
    requires Inv(m)
    ensures m.kroot in m.t && |m.t[m.kroot]| == ENTRIES && m.kroot in m.kern
  {
  }

  lemma NewSpace(m: Vm, r: nat)
    requires Inv(m) && r !in m.own && r !in m.kern
    ensures m.kroot in m.t && r !in m.spaces && Inv(AddSpace(m, r)) && SameKernel(m, AddSpace(m, r))
  {
    assert r in m.spaces ==> RootOk(m, r);
    AddSpaceKeepsInv(m, r);
  }

  lemma AddSpaceFacts(m: Vm, r: nat)
    requires m.kroot in m.t
    ensures var m' := AddSpace(m, r);
      && m'.t == m.t[r := m.t[m.kroot]] && m'.kroot == m.kroot && m'.kern == m.kern
      && m'.own == m.own[r := Slot(r, 4, 0, r)] && m'.spaces == m.spaces[r := map[]]
  {
  }

  /** What hangs below entry i of f, by the tests the teardown makes. */
  lemma EntryBelow(m: Vm, f: nat, i: nat)
    requires Inv(m) && f in m.own && 2 <= m.own[f].level <= 4 && i < ENTRIES
    ensures f !in Below(m, f, i)
    ensures var e := At(m.t, f, i);
      if e.fl.present && e.fl.priv && !e.fl.huge then
        e.frame in m.own && m.own[e.frame].level == m.own[f].level - 1
        && Below(m, f, i) == {e.frame} + Subtree(m, e.frame) && e.frame !in Subtree(m, e.frame)
        && (m.own[e.frame].level == 1 ==> Subtree(m, e.frame) == {})
      else Below(m, f, i) == {}
  {
    var e := At(m.t, f, i);
    if e.fl.present && e.fl.priv && !e.fl.huge {
      PrivateIsChild(m, f, i);
      BelowChild(m, f, i, e.frame);
    } else {
      BelowShared(m, f, i);
    }
  }

  lemma SameKernelAs(m: Vm)
    requires Inv(m)
    ensures SameKernel(m, m)
  {
  }

  /** The last page of the 64-bit address space. */
  const LAST_PAGE: nat := Pmm.WORD - PAGE_SIZE

  /** Some page is closed to ring 3. */
  ghost predicate SomeClosed(t: Tables, r: nat) {
    exists q: nat :: q < PAGE_NUMBERS && !UserOk(t, r, q)
  }

  lemma SamePage(page: nat, a: nat)
    requires page % PAGE_SIZE == 0 && page <= a < page + PAGE_SIZE
    ensures PageOf(a) == PageOf(page)
  {
    assert a / PAGE_SIZE == page / PAGE_SIZE;
  }

  /** The next page up, for an address in a page below a given one. */
  lemma NextPageUp(page: nat, q: nat)
    requires page % PAGE_SIZE == 0 && page <= q * PAGE_SIZE && q < PAGE_NUMBERS && PageOf(page) != q
    ensures page + PAGE_SIZE <= q * PAGE_SIZE
  {
    var p := page / PAGE_SIZE;
    assert page == p * PAGE_SIZE && p <= q;
    assert PageOf(page) == p;
  }

  lemma HugeOffset(virt: nat)
    ensures virt % 0x20_0000 == virt / 0x1000 % 512 * 0x1000 + virt % 0x1000
  {
    var q, r := virt / 0x1000, virt % 0x1000;
    var k, j := q / 512, q % 512;
    assert virt == 0x20_0000 * k + (0x1000 * j + r);
  }

  lemma OffsetInHugePage(virt: nat)
    ensures virt % 0x20_0000 == Index(PageOf(virt), 1) * PAGE_SIZE + virt % PAGE_SIZE
  {
    HugeOffset(virt);
    IndexFields(virt);
  }

  /** The index macros for the four levels. */
  method Indices(virt: nat) returns (i4: nat, i3: nat, i2: nat, i1: nat)
    ensures i4 == Index(PageOf(virt), 4) && i3 == Index(PageOf(virt), 3)
    ensures i2 == Index(PageOf(virt), 2) && i1 == Index(PageOf(virt), 1)
  {
    IndexFields(virt);
    i4 := virt / 0x80_0000_0000 % ENTRIES;
    i3 := virt / 0x4000_0000 % ENTRIES;
    i2 := virt / 0x20_0000 % ENTRIES;
    i1 := virt / 0x1000 % ENTRIES;
  }

  /** The log gained each frame of S exactly once. */
  ghost predicate FreedExactly(log: seq<nat>, log': seq<nat>, S: set<nat>) {
    && |log'| == |log| + |S| && log <= log'
    && (forall x :: x in S ==> x in log'[|log|..])
    && (forall x :: x in log'[|log|..] ==> x in S)
  }

  lemma FreedTwice(log0: seq<nat>, log1: seq<nat>, log2: seq<nat>, S: set<nat>, T: set<nat>)
    requires FreedExactly(log0, log1, S) && FreedExactly(log1, log2, T) && S !! T
    ensures FreedExactly(log0, log2, S + T)
  {
    assert log2[|log0|..] == log1[|log0|..] + log2[|log1|..];
  }

  /** From one state to the next exactly the frames S were given back, each once, and no table outside
      S and f changed. */
  ghost predicate Released(used: set<nat>, used': set<nat>, log: seq<nat>, log': seq<nat>, t: Tables, t': Tables,
                           S: set<nat>, f: nat) {
    used' == used - S && FreedExactly(log, log', S) && KeptOutside(t, t', S + {f})
  }

  lemma ReleasedNothing(used: set<nat>, log: seq<nat>, t: Tables, f: nat)
    ensures Released(used, used, log, log, t, t, {}, f)
  {
  }

  lemma ReleasedMore(u0: set<nat>, u1: set<nat>, u2: set<nat>, log0: seq<nat>, log1: seq<nat>, log2: seq<nat>,
                     t0: Tables, t1: Tables, t2: Tables, S: set<nat>, B: set<nat>, f: nat)
    requires Released(u0, u1, log0, log1, t0, t1, S, f) && Released(u1, u2, log1, log2, t1, t2, B, f) && S !! B
    ensures Released(u0, u2, log0, log2, t0, t2, S + B, f)
  {
    FreedTwice(log0, log1, log2, S, B);
  }

  lemma ReleasedFacts(u: set<nat>, u': set<nat>, log: seq<nat>, log': seq<nat>, t: Tables, t': Tables, S: set<nat>,
                      c: nat, f: nat)
    requires Released(u, u', log, log', t, t', S, c) && f in t && f !in S && f != c
    ensures u' == u - S && f in t' && t'[f] == t[f]
  {
  }

  /** Freeing child c after everything below it, and clearing its entry in f. */
  lemma ReleasedChild(u: set<nat>, log: seq<nat>, log': seq<nat>, t: Tables, t': Tables, S: set<nat>, c: nat, f: nat,
                      i: nat)
    requires Released(u, u - S, log, log', t, t', S, c) && c !in S && f in t' && i < |t'[f]|
    ensures Released(u, u - S - {c}, log, log' + [c], t, Put(t', f, i, ZERO), {c} + S, f)
  {
    assert FreedExactly(log', log' + [c], {c});
    FreedTwice(log, log', log' + [c], S, {c});
    assert {c} + S == S + {c};
  }

  lemma NextEntry(u: set<nat>, u': set<nat>, log: seq<nat>, log': seq<nat>, t: Tables, t': Tables, m: Vm, f: nat,
                  i: nat)
    requires f in m.own && m.own[f].level <= 4 && i < ENTRIES
    requires Released(u, u', log, log', t, t', Before(m, f, i), f)
    requires Intact(t, m, Subtree(m, f) + {f}) && Subtree(m, f) <= u
    ensures Intact(t', m, Below(m, f, i)) && Below(m, f, i) <= u'
    ensures Before(m, f, i + 1) == Before(m, f, i) + Below(m, f, i) && Before(m, f, i) !! Below(m, f, i)
  {
    BeforeNext(m, f, i);
  }

  lemma IntactAt(t: Tables, m: Vm, S: set<nat>, f: nat)
    requires Inv(m) && f in m.own && Intact(t, m, S) && f in S
    ensures f in t && |t[f]| == ENTRIES && f in m.t && t[f] == m.t[f]
  {
    assert TableOk(m, f);
  }

  lemma SpaceTables(m: Vm, used: set<nat>, r: nat)
    requires Inv(m) && r in m.spaces && Accounted(m, used)
    ensures r in m.own && m.own[r].level == 4
    ensures Intact(m.t, m, Subtree(m, r) + {r}) && Subtree(m, r) <= used
  {
    SpaceIsRootAndSubtree(m, r);
    forall g | g in TablesOf(m, r) ensures g in m.t {
      assert TableOk(m, g);
    }
  }

  lemma OthersAfter(m: Vm, r: nat, t: Tables)
    requires Inv(m) && KeptOutside(m.t, t, TablesOf(m, r))
    ensures OthersKept(m, r, t)
  {
    forall f | f in m.own && m.own[f].space != r ensures f in t && f in m.t && t[f] == m.t[f] {
      assert TableOk(m, f);
    }
    forall f | f in m.kern ensures f in t && f in m.t && t[f] == m.t[f] {
      assert f in m.own ==> TableOk(m, f);
    }
  }

  lemma AccountedAfter(m: Vm, used: set<nat>, r: nat, t: Tables)
    requires Inv(m) && Accounted(m, used)
    ensures Accounted(RemoveSpace(m, r, t), used - TablesOf(m, r))
  {
    forall f | f in m.kern ensures f !in TablesOf(m, r) {
      assert f in m.own ==> TableOk(m, f);
    }
  }

  /** What is left when everything below the root of r, and then r, has been given back. */
  lemma SpaceGone(m: Vm, used: set<nat>, log: seq<nat>, log': seq<nat>, r: nat, t: Tables)
    requires Inv(m) && r in m.spaces && Accounted(m, used) && r in m.own && m.own[r].level == 4
    requires Released(used, used - Subtree(m, r), log, log', m.t, t, Subtree(m, r), r)
    ensures used - Subtree(m, r) - {r} == used - TablesOf(m, r)
    ensures FreedExactly(log, log' + [r], TablesOf(m, r))
    ensures Inv(RemoveSpace(m, r, t)) && SameKernel(m, RemoveSpace(m, r, t))
    ensures Accounted(RemoveSpace(m, r, t), used - TablesOf(m, r))
    ensures forall g :: g in m.t ==> g in t && |t[g]| == |m.t[g]|
  {
    hide Inv, Subtree, TablesOf, Under;
    SpaceIsRootAndSubtree(m, r);
    FreedTwice(log, log', log' + [r], Subtree(m, r), {r});
    assert TablesOf(m, r) == Subtree(m, r) + {r};
    OthersAfter(m, r, t);
    AccountedAfter(m, used, r, t);
    RemoveKeepsInv(m, r, t);
  }

  ghost predicate Within(own: map<nat, Slot>, low: nat, top: nat) {
    forall f :: f in own ==> low <= f < top
  }

  lemma WithinMore(own: map<nat, Slot>, low: nat, top: nat, n: nat, s: Slot)
    requires Within(own, low, top) && low <= n < top
    ensures Within(own[n := s], low, top)
  {
  }

  /** Every frame below `top` has room for a table. */
  ghost predicate Sized(t: Tables, top: nat) {
    forall f: nat :: f < top ==> f in t && |t[f]| == ENTRIES
  }

  lemma SizedMore(t: Tables, top: nat, n: nat, content: seq<Entry>)
    requires Sized(t, top) && |content| == ENTRIES
    ensures Sized(t[n := content], top)
  {
  }

  lemma SizedPut(t: Tables, top: nat, f: nat, i: nat, e: Entry)
    requires Sized(t, top) && f in t && i < |t[f]|
    ensures Sized(Put(t, f, i, e), top)
  {
  }

  class AddressSpaces {
    const pmm: Pmm.FrameAllocator
    const kroot: nat                // frame of the kernel's level-4 table
    var t: Tables
    ghost var m: Vm                 // the same tables, with who owns them and what they map

    ghost predicate Valid()
      reads this, pmm, pmm.bitmap
    {
      && pmm.Valid()
      && m.t == t && m.kroot == kroot && Inv(m)
      && Accounted(m, pmm.used) && Handed()
      && MemoryOk()
    }

    /** Every private table is a frame that the allocator hands out. */
    ghost predicate Handed()
      reads this
    {
      Within(m.own, pmm.low, 8 * pmm.bitmap.Length)
    }

    ghost predicate MemoryOk()
      reads this
    {
      Sized(t, 8 * pmm.bitmap.Length)
    }

    /** Takes over the bootloader's tables in place. */
    constructor (pmm: Pmm.FrameAllocator, tables: Tables, kroot: nat, ghost kern: map<nat, nat>)
      requires pmm.Valid() && KernelOk(tables, kroot, kern) && (forall f :: f in kern ==> f in pmm.used)
      requires forall f: nat :: f < 8 * pmm.bitmap.Length ==> f in tables && |tables[f]| == ENTRIES
      ensures Valid() && this.pmm == pmm && this.kroot == kroot && m == Vm(tables, kroot, kern, map[], map[])
    {
      this.pmm := pmm;
      this.kroot := kroot;
      t := tables;
      m := Vm(tables, kroot, kern, map[], map[]);
    }

    /** A zeroed frame for a table; 0 when there is none. */
    method AllocTablePage() returns (f: nat)
      requires pmm.Valid() && MemoryOk()
      modifies this`t, pmm, pmm.bitmap
      ensures pmm.Valid() && MemoryOk() && pmm.freed == old(pmm.freed)
      ensures f == 0 ==> t == old(t) && pmm.used == old(pmm.used) && pmm.NoneFree()
      ensures f != 0 ==> f !in old(pmm.used) && pmm.used == old(pmm.used) + {f} && t == old(t)[f := EMPTY_TABLE]
      ensures f != 0 ==> pmm.low <= f < 8 * pmm.bitmap.Length
    {
      var addr := pmm.AllocPage();
      if addr == 0 { return 0; }
      f := addr / PAGE_SIZE;
      t := t[f := EMPTY_TABLE];
    }

    /** A frame holding a copy of table src; 0 when there is none. */
    method CopyTablePage(src: nat) returns (f: nat)
      requires pmm.Valid() && MemoryOk() && src in t && |t[src]| == ENTRIES
      modifies this`t, pmm, pmm.bitmap
      ensures pmm.Valid() && MemoryOk() && pmm.freed == old(pmm.freed)
      ensures f == 0 ==> t == old(t) && pmm.used == old(pmm.used) && pmm.NoneFree()
      ensures f != 0 ==> f !in old(pmm.used) && pmm.used == old(pmm.used) + {f} && t == old(t)[f := old(t)[src]]
      ensures f != 0 ==> pmm.low <= f < 8 * pmm.bitmap.Length
    {
      var addr := pmm.AllocPage();
      if addr == 0 { return 0; }
      f := addr / PAGE_SIZE;
      t := t[f := t[src]];
    }

    method CopyEntry(f: nat, idx: nat, user: bool) returns (ok: bool)
      requires Valid() && f in m.own && 3 <= m.own[f].level <= 4 && Shared(m, f, idx) && t[f][idx].fl.present
      requires UserBelow(m, f, user)
      modifies this`t, this`m, pmm, pmm.bitmap
      ensures Valid() && pmm.freed == old(pmm.freed)
      ensures Grew(old(m.own[f].space), old(pmm.used), old(m), pmm.used, m)
      ensures if ok then Stepped(old(m), m, f, idx, user) else m == old(m)
      ensures !ok ==> pmm.NoneFree()
      ensures !ok ==> !Private(m, f, idx)
    {
      hide Inv, Stepped, Grew, UserBelow, Attach, KernelOk, Put, Privatised, pmm.NoneFree;
      var e := t[f][idx];
      SharedTable(m, f, idx);
      var copy := CopyTablePage(e.frame);
      ok := copy != 0;
      if ok {
        CopySteps(m, f, idx, copy, user);
        AttachFacts(m, f, idx, copy, t[e.frame], Entry(copy, Privatised(e.fl, user)));
        PutLengths(t, f, idx, Entry(copy, Privatised(e.fl, user)));
        t := Put(t, f, idx, Entry(copy, Privatised(e.fl, user)));
        m := CopyShared(m, f, idx, copy, user);
        GrewByOne(old(pmm.used), old(m), copy, m);
        SteppedInv(old(m), m, f, idx, user);
      } else {
        GrewByNone(m.own[f].space, m, pmm.used);
      }
    }

    /** Gives the space its own copy of the table behind a shared entry. */
    method EnsurePrivateEntry(r: nat, f: nat, idx: nat, user: bool) returns (ok: bool)
      requires Valid() && idx < ENTRIES
      requires r != kroot ==> f in m.own && m.own[f].space == r && 3 <= m.own[f].level <= 4 && UserBelow(m, f, user)
      modifies this`t, this`m, pmm, pmm.bitmap
      ensures Valid() && pmm.freed == old(pmm.freed)
      ensures Grew(r, old(pmm.used), old(m), pmm.used, m)
      ensures r == kroot ==> ok && m == old(m) && pmm.used == old(pmm.used)
      ensures r != kroot ==> f in old(m.own) && Prepared(old(m), m, f, idx, user)
      ensures r != kroot && ok && At(t, f, idx).fl.present ==> At(t, f, idx).fl.priv
      ensures !ok ==> pmm.NoneFree() && !Private(m, f, idx)
    {
      if r == kroot { return true; }
      assert TableOk(m, f);
      if !t[f][idx].fl.present || t[f][idx].fl.priv {
        ok := true;
      } else {
        ok := CopyEntry(f, idx, user);
      }
    }
  
    method NewTable(f: nat, idx: nat, user: bool) returns (ok: bool)
      requires Valid() && Shared(m, f, idx) && !t[f][idx].fl.present && UserBelow(m, f, user)
      modifies this`t, this`m, pmm, pmm.bitmap
      ensures Valid() && pmm.freed == old(pmm.freed)
      ensures Grew(old(m.own[f].space), old(pmm.used), old(m), pmm.used, m)
      ensures if ok then Stepped(old(m), m, f, idx, user) else m == old(m)
      ensures !ok ==> pmm.NoneFree()
      ensures !ok ==> !Private(m, f, idx)
    {
      hide Inv;
      var n := AllocTablePage();
      ok := n != 0;
      if ok {
        NewTableSteps(m, f, idx, n, user);
        t := Put(t, f, idx, Entry(n, NewParent(user)));
        m := Attach(m, f, idx, n, EMPTY_TABLE, Entry(n, NewParent(user)));
        GrewByOne(old(pmm.used), old(m), n, m);
      }
    }

    method OpenEntry(f: nat, idx: nat)
      requires Valid() && CanOpen(m, f, idx)
      modifies this`t, this`m
      ensures Valid() && m.own == old(m.own) && m.kern == old(m.kern) && Stepped(old(m), m, f, idx, true)
    {
      hide Inv;
      OpenSteps(m, f, idx);
      t := Put(t, f, idx, Entry(t[f][idx].frame, WithUser(t[f][idx].fl)));
      m := Open(m, f, idx);
    }

    /** Creates the table behind an absent entry, or opens a private one to ring 3 if asked. */
    method CreateOrOpen(f: nat, idx: nat, user: bool) returns (ok: bool)
      requires Valid() && f in m.own && 2 <= m.own[f].level <= 4 && idx < ENTRIES && UserBelow(m, f, user)
      requires At(t, f, idx).fl.present ==> At(t, f, idx).fl.priv
      modifies this`t, this`m, pmm, pmm.bitmap
      ensures Valid() && pmm.freed == old(pmm.freed)
      ensures Grew(old(m.own[f].space), old(pmm.used), old(m), pmm.used, m)
      ensures if ok then Stepped(old(m), m, f, idx, user) else m == old(m)
      ensures !ok ==> pmm.NoneFree()
      ensures !ok ==> !Private(m, f, idx)
    {
      hide Inv, Stepped, Grew, KernelOk, LinkOk, UserLinkOk, SameKernel, Accounted, Handed, MemoryOk, pmm.Valid,
           pmm.NoneFree;
      TableIs(m, f);
      if !t[f][idx].fl.present {
        ok := NewTable(f, idx, user);
      } else {
        PrivateIsChild(m, f, idx);
        SameSteps(m, f, idx);
        ok := true;
        if user {
          OpenEntry(f, idx);
        }
        GrewInPlace(m.own[f].space, old(m), m, pmm.used);
      }
    }

    /** One step down through levels 4 or 3: a private table behind entry idx, copied, created or
        already there, and open to ring 3 if asked. */
    method Descend(r: nat, f: nat, idx: nat, user: bool) returns (ok: bool, child: nat)
      requires Valid() && f in m.own && m.own[f].space == r && 3 <= m.own[f].level <= 4 && idx < ENTRIES
      requires UserBelow(m, f, user)
      requires r != kroot
      modifies this`t, this`m, pmm, pmm.bitmap
      ensures Valid() && pmm.freed == old(pmm.freed)
      ensures Grew(r, old(pmm.used), old(m), pmm.used, m)
      ensures if ok then Stepped(old(m), m, f, idx, user) && child == At(t, f, idx).frame
              else Prepared(old(m), m, f, idx, user)
      ensures !ok ==> pmm.NoneFree()
      ensures !ok ==> !Private(m, f, idx)
    {
      hide Inv, Stepped, Prepared, Grew, KernelOk;
      child := 0;
      ok := EnsurePrivateEntry(r, f, idx, user);
      PreparedFacts(old(m), m, f, idx, user);
      if ok {
        ghost var m1, used1 := m, pmm.used;
        ok := CreateOrOpen(f, idx, user);
        GrewTwice(r, old(pmm.used), old(m), used1, m1, pmm.used, m);
        if ok {
          SteppedTwice(old(m), m1, m, f, idx, user);
          child := At(t, f, idx).frame;
        }
      }
    }
  
    /** Fills frame n with the 512 pieces of a 2 MB page. */
    method FillPieces(n: nat, e: Entry)
      requires n in t && |t[n]| == ENTRIES
      modifies this`t
      ensures t == old(t)[n := Pieces(e)]
    {
      var i := 0;
      while i < ENTRIES
        invariant 0 <= i <= ENTRIES
        invariant n in t && |t[n]| == ENTRIES && t == old(t)[n := t[n]]
        invariant forall j: nat :: j < i ==> t[n][j] == Piece(e, j)
      {
        t := Put(t, n, i, Piece(e, i));
        i := i + 1;
      }
      assert t[n] == Pieces(e);
    }

    /** Enters frame n, filled with the pieces of a 2 MB page, in its place. */
    method EnterPieces(f: nat, idx: nat, n: nat, user: bool, e: Entry)
      requires n in t && |t[n]| == ENTRIES && f in t && |t[f]| == ENTRIES && idx < ENTRIES && n != f
      modifies this`t
      ensures t == Put(old(t)[n := Pieces(e)], f, idx, Entry(n, NewParent(user)))
    {
      hide Pieces, NewParent;
      FillPieces(n, e);
      t := Put(t, f, idx, Entry(n, NewParent(user)));
    }

    /** Replaces a 2 MB page by a table of its 512 pieces. */
    method SplitEntry(f: nat, idx: nat, user: bool) returns (ok: bool)
      requires Valid() && Shared(m, f, idx) && m.own[f].level == 2 && t[f][idx].fl.present && UserBelow(m, f, user)
      modifies this`t, this`m, pmm, pmm.bitmap
      ensures Valid() && pmm.freed == old(pmm.freed)
      ensures Grew(old(m.own[f].space), old(pmm.used), old(m), pmm.used, m)
      ensures if ok then Stepped(old(m), m, f, idx, user) else m == old(m)
      ensures !ok ==> pmm.NoneFree()
      ensures !ok ==> !Private(m, f, idx)
    {
      hide Inv, Stepped, Grew, Pieces, NewParent, Attach, UserBelow, pmm.Valid, pmm.NoneFree, Within, Sized;
      var e := t[f][idx];
      var n := AllocTablePage();
      ok := n != 0;
      if ok {
        SplitSteps(m, f, idx, n, user);
        AttachFacts(m, f, idx, n, Pieces(e), Entry(n, NewParent(user)));
        ghost var after := Attach(m, f, idx, n, Pieces(e), Entry(n, NewParent(user)));
        WithinMore(m.own, pmm.low, 8 * pmm.bitmap.Length, n, after.own[n]);
        SizedMore(t, 8 * pmm.bitmap.Length, n, Pieces(e));
        SizedPut(t[n := Pieces(e)], 8 * pmm.bitmap.Length, f, idx, Entry(n, NewParent(user)));
        EnterPieces(f, idx, n, user, e);
        assert t == Put(old(t)[n := Pieces(e)], f, idx, Entry(n, NewParent(user)));
        m := Attach(m, f, idx, n, Pieces(e), Entry(n, NewParent(user)));
        GrewByOne(old(pmm.used), old(m), n, m);
        SteppedInv(old(m), m, f, idx, user);
      } else {
        GrewByNone(m.own[f].space, m, pmm.used);
      }
    }

    /** A 2 MB page behind an entry of a level-2 table is split. */
    method SplitIfHuge(f: nat, idx: nat, user: bool) returns (ok: bool)
      requires Valid() && f in m.own && m.own[f].level == 2 && idx < ENTRIES && UserBelow(m, f, user)
      modifies this`t, this`m, pmm, pmm.bitmap
      ensures Valid() && pmm.freed == old(pmm.freed)
      ensures Grew(old(m.own[f].space), old(pmm.used), old(m), pmm.used, m)
      ensures Prepared(old(m), m, f, idx, user)
      ensures ok && At(t, f, idx).fl.present ==> At(t, f, idx).fl.priv
      ensures !ok ==> pmm.NoneFree()
      ensures !ok ==> !Private(m, f, idx)
    {
      hide Inv, Grew, KernelOk, KernelEntry, EntryOk, SameKernel, UserBelow, Accounted, pmm.NoneFree;
      TableIs(m, f);
      PdEntry(m, f, idx);
      GrewByNone(m.own[f].space, m, pmm.used);
      ok := true;
      if t[f][idx].fl.present && t[f][idx].fl.huge {
        ok := SplitEntry(f, idx, user);
      }
    }

    /** The step through level 2. */
    method DescendToPt(f: nat, idx: nat, user: bool) returns (ok: bool, child: nat)
      requires Valid() && f in m.own && m.own[f].level == 2 && idx < ENTRIES
      requires UserBelow(m, f, user)
      modifies this`t, this`m, pmm, pmm.bitmap
      ensures Valid() && pmm.freed == old(pmm.freed)
      ensures Grew(old(m.own[f].space), old(pmm.used), old(m), pmm.used, m)
      ensures if ok then Stepped(old(m), m, f, idx, user) && child == At(t, f, idx).frame
              else Prepared(old(m), m, f, idx, user)
      ensures !ok ==> pmm.NoneFree()
      ensures !ok ==> !Private(m, f, idx)
    {
      hide Inv, Stepped, Prepared, Grew, KernelOk, UserBelow, Accounted, pmm.NoneFree;
      child := 0;
      ok := SplitIfHuge(f, idx, user);
      PreparedFacts(old(m), m, f, idx, user);
      if ok {
        ghost var m1, used1 := m, pmm.used;
        ok := CreateOrOpen(f, idx, user);
        GrewTwice(old(m.own[f].space), old(pmm.used), old(m), used1, m1, pmm.used, m);
        if ok {
          SteppedTwice(old(m), m1, m, f, idx, user);
          child := At(t, f, idx).frame;
        }
      }
    }
  
    /** One level of the walk for page v, begun in state m0. */
    method StepDown(ghost m0: Vm, ghost used0: set<nat>, ghost v: nat, l: nat, r: nat, f: nat, idx: nat, user: bool)
      returns (ok: bool, child: nat)
      requires Valid() && 2 <= l <= 4 && Reached(m0, m, r, v, l, f, user) && idx == Index(v, l) && r != kroot
      requires Grew(r, used0, m0, pmm.used, m) && OnPath(m0, m, r, v)
      modifies this`t, this`m, pmm, pmm.bitmap
      ensures Valid() && pmm.freed == old(pmm.freed)
      ensures Grew(r, used0, m0, pmm.used, m) && m.spaces == m0.spaces && SameKernel(m0, m)
      ensures OnPath(m0, m, r, v)
      ensures ok ==> Reached(m0, m, r, v, l - 1, child, user)
      ensures !ok ==> pmm.NoneFree() && Missing(m, r, v) != {}
    {
      hide Inv, Stepped, Prepared, Grew, KernelOk, SameKernel, Index, Prefix, OnPath, Private, Missing, pmm.NoneFree,
           Handed, Accounted;
      if l == 2 {
        ok, child := DescendToPt(f, idx, user);
      } else {
        ok, child := Descend(r, f, idx, user);
      }
      GrewTwice(r, used0, m0, old(pmm.used), old(m), pmm.used, m);
      PathNext(m0, old(m), m, r, v, l, f, user, ok);
      if ok {
        ReachedNext(m0, old(m), m, r, v, l, f, user);
      } else {
        ReachedAtMost(m0, old(m), m, r, v, l, f, user);
        MissingBelow(m0, old(m), m, r, v, l, f, user);
      }
    }

    lemma CostIs(m0: Vm, used0: set<nat>, r: nat, v: nat, ok: bool, pt: nat, user: bool)
      requires Valid() && Accounted(m0, used0) && Grew(r, used0, m0, pmm.used, m) && OnPath(m0, m, r, v)
      requires if ok then Reached(m0, m, r, v, 1, pt, user) else pmm.NoneFree() && Missing(m, r, v) != {}
      ensures var free0 := Pmm.FreeIn(used0, pmm.low, 8 * pmm.bitmap.Length);
        && (ok <==> |Missing(m0, r, v)| <= |free0|)
        && (ok ==> Missing(m, r, v) == {} && |pmm.FreeFrames()| == |free0| - |Missing(m0, r, v)|)
    {
      hide Inv, Grew, OnPath, Reached, Missing, Accounted;
      WalkFits(r, used0, m0, pmm.used, m, v, pmm.low, 8 * pmm.bitmap.Length, ok, pt, user);
    }

    /** Walks down to the level-1 table for a page, making every table on the way private. */
    method WalkToPt(r: nat, virt: nat, user: bool) returns (ok: bool, pt: nat)
      requires Valid() && r in m.spaces
      modifies this`t, this`m, pmm, pmm.bitmap
      ensures Valid() && pmm.freed == old(pmm.freed)
      ensures Grew(r, old(pmm.used), old(m), pmm.used, m)
      ensures m.spaces == old(m.spaces) && SameKernel(old(m), m)
      ensures ok ==> Reached(old(m), m, r, PageOf(virt), 1, pt, user)
      ensures !ok ==> pmm.NoneFree()
      ensures ok <==> |Missing(old(m), r, PageOf(virt))| <= |old(pmm.FreeFrames())|
      ensures ok ==>
        && Missing(m, r, PageOf(virt)) == {}
        && |pmm.FreeFrames()| == |old(pmm.FreeFrames())| - |Missing(old(m), r, PageOf(virt))|
    {
      hide Inv, Grew, KernelOk, SameKernel, Index, PageOf, Prefix, Reached, Accounted, pmm.NoneFree, OnPath, Missing,
           Handed, Pmm.FreeIn;
      ghost var v, m0, used0 := PageOf(virt), m, pmm.used;
      var i4, i3, i2, _ := Indices(virt);
      ReachedRoot(m, r, v, user);
      GrewByNone(r, m, pmm.used);
      PathStart(m, r, v);
      var pd;
      ok, pd := WalkToPd(m0, used0, v, r, i4, i3, user);
      pt := 0;
      if ok {
        ok, pt := StepDown(m0, used0, v, 2, r, pd, i2, user);
      }
      CostIs(m0, used0, r, v, ok, pt, user);
    }

    /** The first two steps of that walk. */
    method WalkToPd(ghost m0: Vm, ghost used0: set<nat>, ghost v: nat, r: nat, i4: nat, i3: nat, user: bool)
      returns (ok: bool, pd: nat)
      requires Valid() && Reached(m0, m, r, v, 4, r, user) && r != kroot && Grew(r, used0, m0, pmm.used, m)
      requires i4 == Index(v, 4) && i3 == Index(v, 3) && OnPath(m0, m, r, v)
      modifies this`t, this`m, pmm, pmm.bitmap
      ensures Valid() && pmm.freed == old(pmm.freed)
      ensures Grew(r, used0, m0, pmm.used, m) && m.spaces == m0.spaces && SameKernel(m0, m)
      ensures ok ==> Reached(m0, m, r, v, 2, pd, user)
      ensures OnPath(m0, m, r, v)
      ensures !ok ==> pmm.NoneFree() && Missing(m, r, v) != {}
    {
      hide Inv, Grew, KernelOk, SameKernel, Index, Reached, Accounted, pmm.NoneFree, OnPath, Missing, Handed;
      var pdpt;
      ok, pdpt := StepDown(m0, used0, v, 4, r, r, i4, user);
      if !ok { return false, 0; }
      ok, pd := StepDown(m0, used0, v, 3, r, pdpt, i3, user);
    }
  
    method WriteLeaf(ghost used0: set<nat>, ghost m0: Vm, ghost r: nat, ghost v: nat, pt: nat, idx: nat, leaf: Entry)
      requires Valid() && Reached(m0, m, r, v, 1, pt, leaf.fl.user) && leaf.fl.present && idx == Index(v, 1)
      requires Grew(r, used0, m0, pmm.used, m)
      modifies this`t, this`m
      ensures Valid() && MapsOnly(m0, m, r, v, leaf) && m.own == old(m.own)
      ensures Grew(r, used0, m0, pmm.used, m)
    {
      hide Inv, KernelOk, TableOk, SameKernel, MapsOnly, Reached, UserBelow, Index, Within, Sized, pmm.Valid;
      LeafSteps(m0, m, r, v, pt, leaf);
      SizedPut(t, 8 * pmm.bitmap.Length, pt, idx, leaf);
      t := Put(t, pt, idx, leaf);
      m := MapLeaf(m, pt, idx, leaf);
    }

    /** Maps one page of a process. It succeeds exactly when there is a free frame for each private table that
        is missing on the way to the page, and takes those. Success changes the translation of that page in
        that space, which is then reached, written and executed as its flags say, and of no other page in any
        space or the kernel; failure changes no translation at all. */
    method MapPageIn(r: nat, virt: nat, phys: nat, flags: Flags) returns (ok: bool)
      requires Valid() && (r == 0 || r in m.spaces)
      modifies this`t, this`m, pmm, pmm.bitmap
      ensures Valid() && pmm.freed == old(pmm.freed)
      ensures Grew(r, old(pmm.used), old(m), pmm.used, m)
      ensures r == 0 ==> !ok
      ensures ok ==> MapsOnly(old(m), m, r, PageOf(virt), Entry(phys / PAGE_SIZE, LeafFlags(flags)))
      ensures !ok ==> m.spaces == old(m.spaces) && SameKernel(old(m), m)
      ensures ok ==> ReachedAs(t, r, PageOf(virt), Entry(phys / PAGE_SIZE, LeafFlags(flags)))
      ensures forall s, w: nat :: s in old(m.spaces) && w < PAGE_NUMBERS && !(ok && s == r && w == PageOf(virt)) ==>
        SameReach(old(t), t, s, w)
      ensures forall w: nat :: w < PAGE_NUMBERS ==> SameReach(old(t), t, kroot, w)
      ensures !ok && r != 0 ==> pmm.NoneFree()
      ensures ok <==> r != 0 && |Missing(old(m), r, PageOf(virt))| <= |old(pmm.FreeFrames())|
      ensures ok ==> Missing(m, r, PageOf(virt)) == {}
      ensures ok ==> |pmm.FreeFrames()| == |old(pmm.FreeFrames())| - |Missing(old(m), r, PageOf(virt))|
    {
      hide Inv, Grew, KernelOk, SameKernel, Reached, Leaf, PageOf, pmm.FreeFrames, Missing, SameReach, ReachedAs;
      if r == 0 {
        ok := false;
        GrewByNone(r, m, pmm.used);
        SameKernelAs(m);
      } else {
        var pt;
        ok, pt := WalkToPt(r, virt, flags.user);
        if ok {
          var _, _, _, i1 := Indices(virt);
          ghost var m1 := m;
          WriteLeaf(old(pmm.used), old(m), r, PageOf(virt), pt, i1, Entry(phys / PAGE_SIZE, LeafFlags(flags)));
          SameMissing(m1, m, r, PageOf(virt));
        }
      }
      forall s, w: nat | s in old(m.spaces) && w < PAGE_NUMBERS && !(ok && s == r && w == PageOf(virt))
        ensures SameReach(old(t), t, s, w)
      {
        if ok {
          MapChangesOnePage(old(m), m, r, PageOf(virt), Entry(phys / PAGE_SIZE, LeafFlags(flags)), s, w);
        } else {
          SpaceUnchanged(old(m), m, s, w);
        }
      }
      forall w: nat | w < PAGE_NUMBERS ensures SameReach(old(t), t, kroot, w) {
        KernelUnchanged(old(m), m, w);
      }
      if ok {
        MapChangesOnePage(old(m), m, r, PageOf(virt), Entry(phys / PAGE_SIZE, LeafFlags(flags)), r, PageOf(virt));
      }
    }
  
    /** The walk that yields a physical address, 0 when the page is not mapped. */
    method GetPhysicalIn(r: nat, virt: nat) returns (phys: nat)
      ensures r != 0 ==> phys == Physical(t, r, virt)
      ensures r == 0 ==> phys == 0
    {
      if r == 0 { return 0; }
      var i4, i3, i2, i1 := Indices(virt);
      var v := PageOf(virt);
      var e4 := At(t, r, i4);
      assert Node(t, r, v, 4) == Some(r);
      if !e4.fl.present { assert Node(t, r, v, 3) == None; return 0; }
      assert Node(t, r, v, 3) == Some(e4.frame);
      var e3 := At(t, e4.frame, i3);
      if !e3.fl.present { return 0; }
      assert Node(t, r, v, 2) == Some(e3.frame);
      var e2 := At(t, e3.frame, i2);
      if !e2.fl.present { return 0; }
      if e2.fl.huge {
        OffsetInHugePage(virt);
        return e2.frame * PAGE_SIZE + virt % 0x20_0000;
      }
      var e1 := At(t, e2.frame, i1);
      if !e1.fl.present { return 0; }
      phys := e1.frame * PAGE_SIZE + virt % PAGE_SIZE;
    }

    method UserPageOk(r: nat, virt: nat) returns (ok: bool)
      ensures ok <==> r != 0 && UserOk(t, r, PageOf(virt))
    {
      if r == 0 { return false; }
      var i4, i3, i2, i1 := Indices(virt);
      var v := PageOf(virt);
      assert Node(t, r, v, 4) == Some(r);
      var e4 := At(t, r, i4);
      if !(e4.fl.present && e4.fl.user) { return false; }
      assert Node(t, r, v, 3) == Some(e4.frame);
      var e3 := At(t, e4.frame, i3);
      if !(e3.fl.present && e3.fl.user) { return false; }
      assert Node(t, r, v, 2) == Some(e3.frame);
      var e2 := At(t, e3.frame, i2);
      if !(e2.fl.present && e2.fl.user) { return false; }
      if e2.fl.huge { return true; }
      assert Node(t, r, v, 1) == Some(e2.frame);
      var e1 := At(t, e2.frame, i1);
      return e1.fl.present && e1.fl.user;
    }

    /** A range is accepted exactly when it is nonempty, ends before the last page of the address space
        and ring 3 reaches each of its bytes. A range that ends in the last page is refused even if ring 3
        reaches it, since the page address wraps around and the scan goes on until it meets a closed page. */
    method UserRangeOk(r: nat, virt: nat, size: nat) returns (ok: bool)
      requires virt < Pmm.WORD && size < Pmm.WORD && (r != 0 ==> SomeClosed(t, r))
      ensures ok <==> (r != 0 && 0 < size && virt + size <= LAST_PAGE &&
                       forall a: nat :: virt <= a < virt + size ==> UserOk(t, r, PageOf(a)))
    {
      hide UserOk, PageOf;
      if size == 0 { return false; }
      if (virt + size) % Pmm.WORD < virt { return false; }
      var page := virt - virt % PAGE_SIZE;
      var end := virt + size;
      ghost var shut: nat := 0;
      if r != 0 { shut :| shut < PAGE_NUMBERS && !UserOk(t, r, shut); }
      ghost var wrapped := false;
      while page < end
        invariant page % PAGE_SIZE == 0 && 0 <= page <= LAST_PAGE && (r != 0 || (page <= virt && !wrapped))
        invariant !wrapped ==> virt - virt % PAGE_SIZE <= page
        invariant !wrapped ==> forall a: nat :: virt <= a < end && a < page ==> UserOk(t, r, PageOf(a))
        invariant wrapped ==> end > LAST_PAGE && page <= shut * PAGE_SIZE
        decreases !wrapped, Pmm.WORD - page
      {
        var accessible := UserPageOk(r, page);
        if !accessible {
          if !wrapped { SamePage(page, if page < virt then virt else page); }
          return false;
        }
        forall a: nat | page <= a < page + PAGE_SIZE ensures PageOf(a) == PageOf(page) { SamePage(page, a); }
        if wrapped { NextPageUp(page, shut); }
        wrapped := wrapped || page == LAST_PAGE;
        page := (page + PAGE_SIZE) % Pmm.WORD;
      }
      return true;
    }
  
    /** A new address space seeded with the kernel's mappings; 0 when no frame is free. */
    method CreateAddressSpace() returns (r: nat)
      requires Valid()
      modifies this`t, this`m, pmm, pmm.bitmap
      ensures Valid() && pmm.freed == old(pmm.freed)
      ensures r == 0 ==> m == old(m) && pmm.used == old(pmm.used) && pmm.NoneFree()
      ensures r != 0 ==> r !in old(pmm.used) && r !in old(m.spaces) && pmm.used == old(pmm.used) + {r}
      ensures r != 0 ==>
        SameKernel(old(m), m) && m.spaces == old(m.spaces)[r := map[]] && m.own == old(m.own)[r := Slot(r, 4, 0, r)]
    {
      hide Inv, KernelOk, Grew, SameKernel, AddSpace, pmm.Valid, pmm.NoneFree, Within, Sized;
      KernelRoot(m);
      r := AllocTablePage();
      if r != 0 {
        NewSpace(m, r);
        AddSpaceFacts(m, r);
        WithinMore(m.own, pmm.low, 8 * pmm.bitmap.Length, r, Slot(r, 4, 0, r));
        SizedMore(t, 8 * pmm.bitmap.Length, r, t[kroot]);
        t := t[r := t[kroot]];
        m := AddSpace(m, r);
        GrewByOne(old(pmm.used), old(m), r, m);
      }
    }
  
    /** Frees the private table behind one entry, if there is one, and everything below it. While a
        space is torn down `m` keeps describing it as it was. */
    method FreeEntry(f: nat, i: nat, level: nat)
      requires pmm.Valid() && Inv(m) && f in m.own && m.own[f].level == level + 1 && 1 <= level <= 3 && i < ENTRIES
      requires f in t && |t[f]| == ENTRIES && t[f][i] == At(m.t, f, i)
      requires Intact(t, m, Below(m, f, i)) && Below(m, f, i) <= pmm.used
      modifies this`t, pmm, pmm.bitmap
      ensures pmm.Valid()
      ensures Released(old(pmm.used), pmm.used, old(pmm.freed), pmm.freed, old(t), t, Below(m, f, i), f)
      ensures f in t && |t[f]| == ENTRIES && forall j: nat :: j < ENTRIES && j != i ==> t[f][j] == old(t)[f][j]
      decreases level, 1
    {
      hide Inv, Before, Below, Subtree, Under, Released, Intact, FreedExactly, KernelOk, EntryOk, IsChild, TableOk;
      EntryBelow(m, f, i);
      ReleasedNothing(pmm.used, pmm.freed, t, f);
      if t[f][i].fl.present && t[f][i].fl.priv && !t[f][i].fl.huge {
        FreeChild(f, i, level, t[f][i].frame);
      }
    }

    /** Frees a private table after everything below it, and clears the entry that leads to it. */
    method FreeChild(f: nat, i: nat, level: nat, child: nat)
      requires pmm.Valid() && Inv(m) && child in m.own && m.own[child].level == level && 1 <= level <= 3 && i < ENTRIES
      requires f in t && |t[f]| == ENTRIES && f !in Subtree(m, child) && f != child && child !in Subtree(m, child)
      requires level == 1 ==> Subtree(m, child) == {}
      requires Intact(t, m, {child} + Subtree(m, child)) && {child} + Subtree(m, child) <= pmm.used
      modifies this`t, pmm, pmm.bitmap
      ensures pmm.Valid()
      ensures Released(old(pmm.used), pmm.used, old(pmm.freed), pmm.freed, old(t), t, {child} + Subtree(m, child), f)
      ensures f in t && |t[f]| == ENTRIES && forall j: nat :: j < ENTRIES && j != i ==> t[f][j] == old(t)[f][j]
      decreases level, 0
    {
      hide Inv, Subtree, Released, Intact, FreedExactly, KernelOk, EntryOk, TableOk, Under, KeptOutside;
      ghost var S := Subtree(m, child);
      assert {child} + S == S + {child};
      ReleasedNothing(pmm.used, pmm.freed, t, child);
      if level > 1 {
        FreePrivateTables(child, level - 1);
      }
      ghost var log1 := pmm.freed;
      ReleasedFacts(old(pmm.used), pmm.used, old(pmm.freed), pmm.freed, old(t), t, S, child, f);
      ReleasedChild(old(pmm.used), old(pmm.freed), log1, old(t), t, S, child, f, i);
      assert child * PAGE_SIZE / PAGE_SIZE == child;
      pmm.FreePage(child * PAGE_SIZE);
      t := Put(t, f, i, ZERO);
    }

    /** Frees every private table below f, each exactly once. */
    method FreePrivateTables(f: nat, level: nat)
      requires pmm.Valid() && Inv(m) && f in m.own && m.own[f].level == level + 1 && 1 <= level <= 3
      requires Intact(t, m, Subtree(m, f) + {f}) && Subtree(m, f) <= pmm.used
      modifies this`t, pmm, pmm.bitmap
      ensures pmm.Valid()
      ensures Released(old(pmm.used), pmm.used, old(pmm.freed), pmm.freed, old(t), t, Subtree(m, f), f)
      decreases level, 2
    {
      hide Inv, Before, Below, Subtree, Under, Released, Intact;
      BeforeEnds(m, f);
      ReleasedNothing(pmm.used, pmm.freed, t, f);
      IntactAt(t, m, Subtree(m, f) + {f}, f);
      var i := 0;
      while i < ENTRIES
        invariant 0 <= i <= ENTRIES && pmm.Valid()
        invariant Released(old(pmm.used), pmm.used, old(pmm.freed), pmm.freed, old(t), t, Before(m, f, i), f)
        invariant f in t && |t[f]| == ENTRIES
        invariant forall j: nat :: i <= j < ENTRIES ==> t[f][j] == At(m.t, f, j)
      {
        ghost var S, B, used1, log1, t1 := Before(m, f, i), Below(m, f, i), pmm.used, pmm.freed, t;
        NextEntry(old(pmm.used), pmm.used, old(pmm.freed), pmm.freed, old(t), t, m, f, i);
        FreeEntry(f, i, level);
        ReleasedMore(old(pmm.used), used1, pmm.used, old(pmm.freed), log1, pmm.freed, old(t), t1, t, S, B, f);
        i := i + 1;
      }
    }
  
    /** Gives back the root and every private table of a space, each exactly once, and nothing else. */
    method DestroyAddressSpace(r: nat)
      requires Valid() && (r == 0 || r == kroot || r in m.spaces)
      modifies this`t, this`m, pmm, pmm.bitmap
      ensures Valid()
      ensures r == 0 || r == kroot ==> m == old(m) && pmm.used == old(pmm.used) && pmm.freed == old(pmm.freed)
      ensures r != 0 && r != kroot ==> pmm.used == old(pmm.used) - TablesOf(old(m), r)
      ensures r != 0 && r != kroot ==> FreedExactly(old(pmm.freed), pmm.freed, TablesOf(old(m), r))
      ensures r != 0 && r != kroot ==> m == RemoveSpace(old(m), r, t) && SameKernel(old(m), m)
    {
      hide Inv, Subtree, TablesOf, Under, FreedExactly, KernelOk, SameKernel, Intact, KeptOutside;
      if r == 0 || r == kroot { return; }
      SpaceTables(m, pmm.used, r);
      FreePrivateTables(r, 3);
      ghost var log1 := pmm.freed;
      assert r * PAGE_SIZE / PAGE_SIZE == r;
      pmm.FreePage(r * PAGE_SIZE);
      SpaceGone(m, old(pmm.used), old(pmm.freed), log1, r, t);
      m := RemoveSpace(m, r, t);
    }
  }
}
