/** Four-level page tables as values: the kernel hierarchy every address space starts from, the
    private tables each space hangs below its own root, and what both mean to the hardware walk. */
module PageTables {
  import opened Options
  import opened Pte

  /** Physical memory seen as page tables: the entries of each frame. */
  type Tables = map<nat, seq<Entry>>

  const ENTRIES: nat := 512

  function At(t: Tables, f: nat, i: nat): Entry {
    if f in t && i < |t[f]| then t[f][i] else ZERO
  }

  function Put(t: Tables, f: nat, i: nat, e: Entry): Tables
    requires f in t && i < |t[f]|
  {
    t[f := t[f][i := e]]
  }

  // ----- page numbers -----

  /** What is left of a page number above the index bits of levels 1..l. */
  function Prefix(v: nat, l: nat): nat
    requires l <= 4
  {
    if l == 0 then v else Prefix(v, l - 1) / ENTRIES
  }

  /** The index used in the level-l table on the walk to page v. */
  function Index(v: nat, l: nat): (i: nat)
    requires 1 <= l <= 4
    ensures i < ENTRIES
  {
    Prefix(v, l - 1) % ENTRIES
  }

  // ----- the walk -----

  /** The level-l table the walk for page v visits, if it gets that far. Only the level-2 entry is
      tested for the huge-page bit. */
  function Node(t: Tables, root: nat, v: nat, l: nat): (f: Option<nat>)
    requires 1 <= l <= 4
    decreases 4 - l
  {
    if l == 4 then Some(root)
    else
      match Node(t, root, v, l + 1)
      case None => None
      case Some(up) =>
        var e := At(t, up, Index(v, l + 1));
        if e.fl.present && !(l == 1 && e.fl.huge) then Some(e.frame) else None
  }

  datatype Mapping = Unmapped | Mapped(leaf: Entry)

  /** The 4 KB mapping of page v: a level-1 entry, or the piece of a 2 MB page. */
  function Leaf(t: Tables, root: nat, v: nat): Mapping {
    match Node(t, root, v, 2)
    case None => Unmapped
    case Some(pd) =>
      var e := At(t, pd, Index(v, 2));
      if !e.fl.present then Unmapped
      else if e.fl.huge then Mapped(Entry(e.frame + Index(v, 1), SplitFlags(e.fl)))
      else
        var leaf := At(t, e.frame, Index(v, 1));
        if leaf.fl.present then Mapped(leaf) else Unmapped
  }

  /** Whether the entry used at level l is present and open to ring 3. */
  predicate UserAt(t: Tables, root: nat, v: nat, l: nat)
    requires 1 <= l <= 4
  {
    var n := Node(t, root, v, l);
    n.Some? && var e := At(t, n.value, Index(v, l)); e.fl.present && e.fl.user
  }

  /** Ring 3 reaches page v: every level is present with the user bit. */
  predicate UserOk(t: Tables, root: nat, v: nat) {
    && UserAt(t, root, v, 4) && UserAt(t, root, v, 3) && UserAt(t, root, v, 2)
    && (At(t, Node(t, root, v, 2).value, Index(v, 2)).fl.huge || UserAt(t, root, v, 1))
  }

  /** Whether the entry used at level l is present and grants the access. */
  predicate AllowedAt(t: Tables, root: nat, v: nat, l: nat, a: Access)
    requires 1 <= l <= 4
  {
    var n := Node(t, root, v, l);
    n.Some? && var e := At(t, n.value, Index(v, l)); e.fl.present && Grants(e.fl, a)
  }

  /** Page v can be written, or executed: every level grants it. */
  predicate Allowed(t: Tables, root: nat, v: nat, a: Access) {
    && AllowedAt(t, root, v, 4, a) && AllowedAt(t, root, v, 3, a) && AllowedAt(t, root, v, 2, a)
    && (At(t, Node(t, root, v, 2).value, Index(v, 2)).fl.huge || AllowedAt(t, root, v, 1, a))
  }

  // ----- the kernel hierarchy -----

  /** The tables the bootloader builds: levels 4, 3 and 2, no private or user bit, links that refuse nothing
      else, and every present level-2 entry a 2 MB page. `kern` gives each kernel table its level. */
  ghost predicate KernelOk(t: Tables, kroot: nat, kern: map<nat, nat>) {
    && kroot in kern && kern[kroot] == 4
    && forall f :: f in kern ==>
      && 2 <= kern[f] <= 4 && f in t && |t[f]| == ENTRIES
      && forall i: nat :: i < ENTRIES ==> KernelEntryOk(kern, kern[f], At(t, f, i))
  }

  ghost predicate KernelEntryOk(kern: map<nat, nat>, l: nat, e: Entry) {
    && !e.fl.priv && !e.fl.user
    && (e.fl.present && l == 2 ==> e.fl.huge)
    && (e.fl.present && l != 2 ==>
          && !e.fl.huge && e.frame in kern && kern[e.frame] == l - 1
          && Grants(e.fl, Write) && Grants(e.fl, Execute))
  }

  /** The kernel's entry i of the level-l table at a prefix, with every 2 MB page read as 512 pieces
      and everything below an absent entry read as zero. */
  function KernelEntry(t: Tables, kroot: nat, l: nat, prefix: nat, i: nat): Entry
    requires 1 <= l <= 4
    decreases 4 - l
  {
    if l == 4 then At(t, kroot, i)
    else
      var up := KernelEntry(t, kroot, l + 1, prefix / ENTRIES, prefix % ENTRIES);
      if !up.fl.present then ZERO
      else if l == 1 then Entry(up.frame + i, SplitFlags(up.fl))
      else At(t, up.frame, i)
  }

  lemma {:induction false} KernelEntryShape(t: Tables, kroot: nat, kern: map<nat, nat>, l: nat, prefix: nat, i: nat)
    requires KernelOk(t, kroot, kern) && 1 <= l <= 4 && i < ENTRIES
    ensures var e := KernelEntry(t, kroot, l, prefix, i);
      !e.fl.priv && !e.fl.user && (l == 1 ==> !e.fl.huge) && (l >= 2 ==> KernelEntryOk(kern, l, e))
    decreases 4 - l
  {
    if l < 4 {
      KernelEntryShape(t, kroot, kern, l + 1, prefix / ENTRIES, prefix % ENTRIES);
    }
  }

  /** The kernel hierarchy reads the same in any memory that agrees on the kernel's tables. */
  lemma {:induction false} KernelEntryFrame(t: Tables, t': Tables, kroot: nat, kern: map<nat, nat>, l: nat, prefix: nat,
                                            i: nat)
    requires KernelOk(t, kroot, kern) && 1 <= l <= 4 && i < ENTRIES
    requires forall f :: f in kern ==> f in t' && t'[f] == t[f]
    ensures KernelEntry(t', kroot, l, prefix, i) == KernelEntry(t, kroot, l, prefix, i)
    decreases 4 - l
  {
    if l < 4 {
      KernelEntryFrame(t, t', kroot, kern, l + 1, prefix / ENTRIES, prefix % ENTRIES);
      KernelEntryShape(t, kroot, kern, l + 1, prefix / ENTRIES, prefix % ENTRIES);
    }
  }

  // ----- process address spaces -----

  /** Where a private table hangs: its space (named by the root frame), its level, the page-number
      prefix it serves, and the table that points to it. */
  datatype Slot = Slot(space: nat, level: nat, prefix: nat, parent: nat)

  /** All page tables of the machine. `own` records every private table, `spaces` the pages mapped in
      each space on top of the kernel's mappings. */
  datatype Vm = Vm(t: Tables, kroot: nat, kern: map<nat, nat>, own: map<nat, Slot>, spaces: map<nat, map<nat, Entry>>)
  {
    /** The entry that points to private table f. */
    function Link(f: nat): Entry
      requires f in own
    {
      At(t, own[f].parent, own[f].prefix % ENTRIES)
    }

    function Inherited(l: nat, prefix: nat, i: nat): Entry
      requires 1 <= l <= 4
    {
      KernelEntry(t, kroot, l, prefix, i)
    }
  }

  ghost predicate RootOk(m: Vm, r: nat) {
    r in m.own && m.own[r] == Slot(r, 4, 0, r)
  }

  /** A private table has a live space, a legal level, and is linked from its parent. */
  ghost predicate TableOk(m: Vm, f: nat)
    requires f in m.own
  {
    var s := m.own[f];
    && 1 <= s.level <= 4 && s.space in m.spaces
    && f in m.t && |m.t[f]| == ENTRIES && f !in m.kern
    && (s.level == 4 ==> f == s.space)
    && (s.level < 4 ==>
      && s.parent in m.own
      && m.own[s.parent].space == s.space && m.own[s.parent].level == s.level + 1
      && m.own[s.parent].prefix == s.prefix / ENTRIES
      && m.Link(f).fl.present && m.Link(f).fl.priv && !m.Link(f).fl.huge && m.Link(f).frame == f)
  }

  /** Entry i of private table f: a private child, or else what the kernel has at this position,
      except that level-1 entries follow `spaces`. */
  ghost predicate EntryOk(m: Vm, f: nat, i: nat)
    requires f in m.own && 1 <= m.own[f].level <= 4
  {
    var s := m.own[f];
    var e := At(m.t, f, i);
    if s.level == 1 then
      var v := s.prefix * ENTRIES + i;
      && s.space in m.spaces
      && e == if v in m.spaces[s.space] then m.spaces[s.space][v] else m.Inherited(1, s.prefix, i)
    else
      || e == m.Inherited(s.level, s.prefix, i)
      || IsChild(m, f, i, e)
  }

  ghost predicate IsChild(m: Vm, f: nat, i: nat, e: Entry)
    requires f in m.own && m.own[f].level >= 1
  {
    var s := m.own[f];
    && e.fl.present && e.fl.priv && !e.fl.huge
    && e.frame in m.own && m.own[e.frame] == Slot(s.space, s.level - 1, s.prefix * ENTRIES + i, f)
  }

  /** Page v of space r has a level-1 table, whose links carry the user bit if the page does. */
  ghost predicate PageOk(m: Vm, r: nat, v: nat)
    requires r in m.spaces && v in m.spaces[r]
  {
    && m.spaces[r][v].fl.present
    && exists f :: HoldsPage(m, f, r, v)
  }

  ghost predicate HoldsPage(m: Vm, f: nat, r: nat, v: nat)
    requires r in m.spaces && v in m.spaces[r]
  {
    && f in m.own && m.own[f].space == r && m.own[f].level == 1 && m.own[f].prefix == v / ENTRIES
    && (m.spaces[r][v].fl.user ==> m.Link(f).fl.user)
  }

  /** A link with the user bit hangs below links with the user bit. */
  ghost predicate UserLinkOk(m: Vm, f: nat)
    requires f in m.own
  {
    m.own[f].level <= 2 && m.own[f].parent in m.own && m.Link(f).fl.user ==> m.Link(m.own[f].parent).fl.user
  }

  /** The link to a private table has the flags of the entry that it replaces, opened as far as asked. */
  ghost predicate LinkOk(m: Vm, f: nat)
    requires f in m.own
  {
    var s := m.own[f];
    1 <= s.level < 4 ==>
      m.Link(f).fl == LinkFlags(m.Inherited(s.level + 1, s.prefix / ENTRIES, s.prefix % ENTRIES).fl, m.Link(f).fl.user)
  }

  ghost predicate Inv(m: Vm) {
    && KernelOk(m.t, m.kroot, m.kern)
    && (forall r :: r in m.spaces ==> RootOk(m, r))
    && (forall f :: f in m.own ==> TableOk(m, f))
    && (forall f, i: nat :: f in m.own && i < ENTRIES ==> EntryOk(m, f, i))
    && (forall f :: f in m.own ==> UserLinkOk(m, f) && LinkOk(m, f))
    && (forall r, v :: r in m.spaces && v in m.spaces[r] ==> PageOk(m, r, v))
  }

  lemma TableIs(m: Vm, f: nat)
    requires Inv(m) && f in m.own
    ensures KernelOk(m.t, m.kroot, m.kern) && TableOk(m, f) && UserLinkOk(m, f) && LinkOk(m, f)
  {
  }

  lemma EntryIs(m: Vm, f: nat, i: nat)
    requires Inv(m) && f in m.own && i < ENTRIES
    ensures KernelOk(m.t, m.kroot, m.kern) && TableOk(m, f) && EntryOk(m, f, i)
  {
    assert TableOk(m, f);
  }

  lemma PageIs(m: Vm, r: nat, v: nat) returns (f: nat)
    requires Inv(m) && r in m.spaces && v in m.spaces[r]
    ensures PageOk(m, r, v) && HoldsPage(m, f, r, v) && TableOk(m, f)
  {
    assert PageOk(m, r, v);
    f :| HoldsPage(m, f, r, v);
    assert TableOk(m, f);
  }

  /** A space has at most one private table per level and prefix. */
  lemma {:induction false} SlotUnique(m: Vm, f: nat, g: nat)
    requires Inv(m) && f in m.own && g in m.own
    requires m.own[f].space == m.own[g].space && m.own[f].level == m.own[g].level && m.own[f].prefix == m.own[g].prefix
    ensures f == g
    decreases 4 - m.own[f].level
  {
    assert TableOk(m, f) && TableOk(m, g);
    if m.own[f].level < 4 {
      SlotUnique(m, m.own[f].parent, m.own[g].parent);
    }
  }

  // ----- the steps of a mapping -----

  /** m' has the kernel's tables of m. */
  ghost predicate SameKernel(m: Vm, m': Vm) {
    && m'.kroot == m.kroot && m'.kern == m.kern
    && forall f :: f in m.kern ==> f in m'.t && f in m.t && m'.t[f] == m.t[f]
  }

  lemma KernelStays(m: Vm, m': Vm)
    requires KernelOk(m.t, m.kroot, m.kern) && SameKernel(m, m')
    ensures KernelOk(m'.t, m'.kroot, m'.kern)
  {
    forall f | f in m.kern
      ensures f in m'.t && |m'.t[f]| == ENTRIES && forall i: nat :: i < ENTRIES ==> At(m'.t, f, i) == At(m.t, f, i)
    {
    }
  }

  lemma InheritedStays(m: Vm, m': Vm, l: nat, p: nat, j: nat)
    requires KernelOk(m.t, m.kroot, m.kern) && SameKernel(m, m') && 1 <= l <= 4 && j < ENTRIES
    ensures m'.Inherited(l, p, j) == m.Inherited(l, p, j)
  {
    KernelEntryFrame(m.t, m'.t, m.kroot, m.kern, l, p, j);
  }

  /** A link that is the same, or opened to ring 3, has the right flags still. */
  lemma LinkStays(m: Vm, m': Vm, g: nat)
    requires KernelOk(m.t, m.kroot, m.kern) && SameKernel(m, m') && g in m.own && LinkOk(m, g)
    requires g in m'.own && m'.own[g] == m.own[g]
    requires m.own[g].level < 4 ==> m'.Link(g).fl == m.Link(g).fl || m'.Link(g).fl == WithUser(m.Link(g).fl)
    ensures LinkOk(m', g)
  {
    hide KernelOk, SameKernel, KernelEntry;
    var s := m.own[g];
    if 1 <= s.level < 4 { InheritedStays(m, m', s.level + 1, s.prefix / ENTRIES, s.prefix % ENTRIES); }
  }

  /** Hangs table n, holding `content`, at entry i of private table f. */
  function Attach(m: Vm, f: nat, i: nat, n: nat, content: seq<Entry>, e: Entry): Vm
    requires f in m.own && m.own[f].level >= 1 && f in m.t && i < |m.t[f]| && n != f
  {
    var s := m.own[f];
    m.(t := Put(m.t[n := content], f, i, e), own := m.own[n := Slot(s.space, s.level - 1, s.prefix * ENTRIES + i, f)])
  }

  /** n is a free frame whose new content is what f inherits below entry i. */
  ghost predicate CanAttach(m: Vm, f: nat, i: nat, n: nat, content: seq<Entry>, e: Entry) {
    && f in m.own && 2 <= m.own[f].level <= 4 && i < ENTRIES
    && n !in m.own && n !in m.kern && f in m.t && |m.t[f]| == ENTRIES
    && At(m.t, f, i) == m.Inherited(m.own[f].level, m.own[f].prefix, i)
    && |content| == ENTRIES
    && (forall j: nat :: j < ENTRIES ==>
          content[j] == m.Inherited(m.own[f].level - 1, m.own[f].prefix * ENTRIES + i, j))
    && e.frame == n && e.fl == LinkFlags(At(m.t, f, i).fl, e.fl.user)
    && (e.fl.user && m.own[f].level < 4 ==> m.Link(f).fl.user)
  }

  lemma AttachLink(m: Vm, f: nat, i: nat, n: nat, content: seq<Entry>, e: Entry, g: nat)
    requires KernelOk(m.t, m.kroot, m.kern) && CanAttach(m, f, i, n, content, e)
    requires g in m.own && TableOk(m, g) && m.own[g].level < 4
    ensures Attach(m, f, i, n, content, e).Link(g) == m.Link(g)
  {
    KernelEntryShape(m.t, m.kroot, m.kern, m.own[f].level, m.own[f].prefix, i);
  }

  lemma PrefixSplits(p: nat, i: nat)
    requires i < ENTRIES
    ensures (p * ENTRIES + i) / ENTRIES == p && (p * ENTRIES + i) % ENTRIES == i
  {
  }

  lemma AttachOldTable(m: Vm, f: nat, i: nat, n: nat, content: seq<Entry>, e: Entry, g: nat)
    requires Inv(m) && CanAttach(m, f, i, n, content, e) && g in m.own
    ensures var m' := Attach(m, f, i, n, content, e); TableOk(m', g) && UserLinkOk(m', g)
  {
    hide Inv, KernelOk, KernelEntry;
    TableIs(m, f);
    TableIs(m, g);
    if m.own[g].level < 4 {
      AttachLink(m, f, i, n, content, e, g);
      var p := m.own[g].parent;
      TableIs(m, p);
      if m.own[p].level < 4 {
        AttachLink(m, f, i, n, content, e, p);
      }
    }
  }

  lemma AttachNewTable(m: Vm, f: nat, i: nat, n: nat, content: seq<Entry>, e: Entry)
    requires Inv(m) && CanAttach(m, f, i, n, content, e)
    ensures var m' := Attach(m, f, i, n, content, e); TableOk(m', n) && UserLinkOk(m', n)
  {
    hide Inv, KernelOk, KernelEntry;
    TableIs(m, f);
    PrefixSplits(m.own[f].prefix, i);
    var m' := Attach(m, f, i, n, content, e);
    assert m'.Link(n) == e;
    if m.own[f].level < 4 {
      AttachLink(m, f, i, n, content, e, f);
    }
  }

  lemma AttachKernel(m: Vm, f: nat, i: nat, n: nat, content: seq<Entry>, e: Entry)
    requires KernelOk(m.t, m.kroot, m.kern) && CanAttach(m, f, i, n, content, e) && f !in m.kern
    ensures SameKernel(m, Attach(m, f, i, n, content, e))
  {
  }

  lemma AttachLinkOk(m: Vm, f: nat, i: nat, n: nat, content: seq<Entry>, e: Entry, g: nat)
    requires Inv(m) && CanAttach(m, f, i, n, content, e) && (g in m.own || g == n)
    ensures LinkOk(Attach(m, f, i, n, content, e), g)
  {
    hide Inv, KernelOk, KernelEntry, SameKernel, LinkOk;
    TableIs(m, f);
    var m' := Attach(m, f, i, n, content, e);
    AttachKernel(m, f, i, n, content, e);
    if g == n {
      AttachNewLinkOk(m, f, i, n, content, e);
    } else {
      TableIs(m, g);
      if m.own[g].level < 4 { AttachLink(m, f, i, n, content, e, g); }
      LinkStays(m, m', g);
    }
  }

  lemma AttachNewLinkOk(m: Vm, f: nat, i: nat, n: nat, content: seq<Entry>, e: Entry)
    requires KernelOk(m.t, m.kroot, m.kern) && CanAttach(m, f, i, n, content, e) && f !in m.kern
    requires SameKernel(m, Attach(m, f, i, n, content, e))
    ensures LinkOk(Attach(m, f, i, n, content, e), n)
  {
    hide KernelOk, KernelEntry, SameKernel;
    var m' := Attach(m, f, i, n, content, e);
    PrefixSplits(m.own[f].prefix, i);
    InheritedStays(m, m', m.own[f].level, m.own[f].prefix, i);
    assert m'.Link(n) == e;
  }

  lemma AttachOldEntry(m: Vm, f: nat, i: nat, n: nat, content: seq<Entry>, e: Entry, g: nat, j: nat)
    requires KernelOk(m.t, m.kroot, m.kern) && CanAttach(m, f, i, n, content, e) && f !in m.kern
    requires g in m.own && j < ENTRIES && 1 <= m.own[g].level <= 4 && EntryOk(m, g, j)
    ensures EntryOk(Attach(m, f, i, n, content, e), g, j)
  {
    hide KernelEntry;
    var m' := Attach(m, f, i, n, content, e);
    InheritedStays(m, m', m.own[g].level, m.own[g].prefix, j);
    if g == f && j == i {
      assert At(m'.t, f, i) == e;
    } else {
      assert At(m'.t, g, j) == At(m.t, g, j);
    }
  }

  lemma AttachNewEntry(m: Vm, f: nat, i: nat, n: nat, content: seq<Entry>, e: Entry, j: nat)
    requires KernelOk(m.t, m.kroot, m.kern) && CanAttach(m, f, i, n, content, e) && f !in m.kern && j < ENTRIES
    requires m.own[f].space in m.spaces
    requires m.own[f].level == 2 ==> (m.own[f].prefix * ENTRIES + i) * ENTRIES + j !in m.spaces[m.own[f].space]
    ensures EntryOk(Attach(m, f, i, n, content, e), n, j)
  {
    hide KernelEntry;
    var m' := Attach(m, f, i, n, content, e);
    var s := m'.own[n];
    InheritedStays(m, m', s.level, s.prefix, j);
    assert At(m'.t, n, j) == content[j];
  }

  /** No page is mapped below an entry of a level-2 table that is not private. */
  lemma NotMappedBelow(m: Vm, f: nat, i: nat, v: nat)
    requires Inv(m) && f in m.own && m.own[f].level == 2 && i < ENTRIES
    requires v / ENTRIES == m.own[f].prefix * ENTRIES + i
    requires At(m.t, f, i) == m.Inherited(2, m.own[f].prefix, i)
    ensures m.own[f].space in m.spaces && v !in m.spaces[m.own[f].space]
  {
    hide Inv, KernelOk, KernelEntry;
    var r := m.own[f].space;
    TableIs(m, f);
    if v in m.spaces[r] {
      var g := PageIs(m, r, v);
      TableIs(m, m.own[g].parent);
      SlotUnique(m, f, m.own[g].parent);
      KernelEntryShape(m.t, m.kroot, m.kern, 2, m.own[f].prefix, i);
      assert false;
    }
  }

  lemma CanAttachHas(m: Vm, f: nat, i: nat, n: nat, content: seq<Entry>, e: Entry)
    requires CanAttach(m, f, i, n, content, e)
    ensures f in m.own && 2 <= m.own[f].level <= 4 && i < ENTRIES && n !in m.own && n != f
    ensures f in m.t && |m.t[f]| == ENTRIES
    ensures At(m.t, f, i) == m.Inherited(m.own[f].level, m.own[f].prefix, i)
    ensures var m' := Attach(m, f, i, n, content, e);
      m'.own == m.own[n := Slot(m.own[f].space, m.own[f].level - 1, m.own[f].prefix * ENTRIES + i, f)]
  {
  }

  lemma AttachEntry(m: Vm, f: nat, i: nat, n: nat, content: seq<Entry>, e: Entry, g: nat, j: nat)
    requires Inv(m) && CanAttach(m, f, i, n, content, e)
    requires (g in m.own || g == n) && j < ENTRIES
    ensures var m' := Attach(m, f, i, n, content, e); 1 <= m'.own[g].level <= 4 && EntryOk(m', g, j)
  {
    hide Inv, KernelOk, KernelEntry, CanAttach, EntryOk, Attach;
    CanAttachHas(m, f, i, n, content, e);
    TableIs(m, f);
    if g in m.own {
      EntryIs(m, g, j);
      AttachOldEntry(m, f, i, n, content, e, g, j);
    } else {
      if m.own[f].level == 2 {
        NotMappedBelow(m, f, i, (m.own[f].prefix * ENTRIES + i) * ENTRIES + j);
      }
      AttachNewEntry(m, f, i, n, content, e, j);
    }
  }

  lemma AttachPage(m: Vm, f: nat, i: nat, n: nat, content: seq<Entry>, e: Entry, r: nat, v: nat)
    requires Inv(m) && CanAttach(m, f, i, n, content, e)
    requires r in m.spaces && v in m.spaces[r]
    ensures PageOk(Attach(m, f, i, n, content, e), r, v)
  {
    hide Inv, KernelOk, KernelEntry;
    var m' := Attach(m, f, i, n, content, e);
    var g := PageIs(m, r, v);
    TableIs(m, g);
    AttachLink(m, f, i, n, content, e, g);
    assert HoldsPage(m', g, r, v);
  }

  /** Copying or creating a table on the way down keeps every space as it is. */
  lemma AttachKeepsInv(m: Vm, f: nat, i: nat, n: nat, content: seq<Entry>, e: Entry)
    requires Inv(m) && CanAttach(m, f, i, n, content, e)
    ensures Inv(Attach(m, f, i, n, content, e))
  {
    hide LinkOk, KernelOk, KernelEntry, EntryOk, PageOk, UserLinkOk;
    var m' := Attach(m, f, i, n, content, e);
    assert TableOk(m, f);
    AttachKernel(m, f, i, n, content, e);
    KernelStays(m, m');
    forall g | g in m'.own ensures TableOk(m', g) && UserLinkOk(m', g) && LinkOk(m', g) {
      if g == n { AttachNewTable(m, f, i, n, content, e); } else { AttachOldTable(m, f, i, n, content, e, g); }
      AttachLinkOk(m, f, i, n, content, e, g);
    }
    forall g, j: nat | g in m'.own && j < ENTRIES ensures EntryOk(m', g, j) {
      AttachEntry(m, f, i, n, content, e, g, j);
    }
    forall r, v | r in m'.spaces && v in m'.spaces[r] ensures PageOk(m', r, v) {
      AttachPage(m, f, i, n, content, e, r, v);
    }
    forall r | r in m'.spaces ensures RootOk(m', r) {
      assert RootOk(m, r);
    }
  }

  /** Opens the link at entry i of private table f to ring 3. */
  function Open(m: Vm, f: nat, i: nat): Vm
    requires f in m.t && i < |m.t[f]|
  {
    var e := At(m.t, f, i);
    m.(t := Put(m.t, f, i, Entry(e.frame, WithUser(e.fl))))
  }

  ghost predicate CanOpen(m: Vm, f: nat, i: nat) {
    && f in m.own && 2 <= m.own[f].level <= 4 && i < ENTRIES && f in m.t && |m.t[f]| == ENTRIES && f !in m.kern
    && IsChild(m, f, i, At(m.t, f, i))
    && (m.own[f].level < 4 ==> m.Link(f).fl.user)
  }

  lemma OpenLink(m: Vm, f: nat, i: nat, g: nat)
    requires CanOpen(m, f, i) && g in m.own && TableOk(m, g) && m.own[g].level < 4
    ensures var e, e' := m.Link(g), Open(m, f, i).Link(g);
      e' == e || (e' == Entry(e.frame, WithUser(e.fl)) && m.own[g].parent == f)
    ensures m.Link(g).fl.user ==> Open(m, f, i).Link(g).fl.user
  {
  }

  lemma OpenTable(m: Vm, f: nat, i: nat, g: nat)
    requires Inv(m) && CanOpen(m, f, i) && g in m.own
    ensures var m' := Open(m, f, i); TableOk(m', g) && UserLinkOk(m', g)
  {
    assert TableOk(m, g) && UserLinkOk(m, g);
    if m.own[g].level < 4 {
      OpenLink(m, f, i, g);
      var p := m.own[g].parent;
      assert TableOk(m, p);
      if m.own[p].level < 4 {
        OpenLink(m, f, i, p);
      }
    }
  }

  lemma OpenKernel(m: Vm, f: nat, i: nat)
    requires KernelOk(m.t, m.kroot, m.kern) && CanOpen(m, f, i)
    ensures SameKernel(m, Open(m, f, i))
  {
  }

  lemma OpenLinkOk(m: Vm, f: nat, i: nat, g: nat)
    requires Inv(m) && CanOpen(m, f, i) && g in m.own
    ensures LinkOk(Open(m, f, i), g)
  {
    hide Inv, KernelOk, KernelEntry, LinkOk;
    TableIs(m, g);
    if m.own[g].level < 4 { OpenLink(m, f, i, g); }
    LinkStays(m, Open(m, f, i), g);
  }

  lemma OpenEntry(m: Vm, f: nat, i: nat, g: nat, j: nat)
    requires KernelOk(m.t, m.kroot, m.kern) && CanOpen(m, f, i)
    requires g in m.own && j < ENTRIES && 1 <= m.own[g].level <= 4 && EntryOk(m, g, j)
    ensures EntryOk(Open(m, f, i), g, j)
  {
    var m' := Open(m, f, i);
    InheritedStays(m, m', m.own[g].level, m.own[g].prefix, j);
    if !(g == f && j == i) {
      assert At(m'.t, g, j) == At(m.t, g, j);
    }
  }

  lemma OpenPage(m: Vm, f: nat, i: nat, r: nat, v: nat)
    requires Inv(m) && CanOpen(m, f, i) && r in m.spaces && v in m.spaces[r]
    ensures PageOk(Open(m, f, i), r, v)
  {
    assert PageOk(m, r, v);
    var g :| HoldsPage(m, g, r, v);
    assert TableOk(m, g);
    OpenLink(m, f, i, g);
    assert HoldsPage(Open(m, f, i), g, r, v);
  }

  /** Adding the user bit to a private link keeps every space as it is. */
  lemma OpenKeepsInv(m: Vm, f: nat, i: nat)
    requires Inv(m) && CanOpen(m, f, i)
    ensures Inv(Open(m, f, i))
  {
    var m' := Open(m, f, i);
    KernelStays(m, m');
    hide LinkOk, KernelOk, KernelEntry, EntryOk, PageOk, UserLinkOk;
    forall g | g in m'.own ensures TableOk(m', g) && UserLinkOk(m', g) && LinkOk(m', g) {
      OpenTable(m, f, i, g);
      OpenLinkOk(m, f, i, g);
    }
    forall g, j: nat | g in m'.own && j < ENTRIES ensures EntryOk(m', g, j) {
      assert TableOk(m, g) && EntryOk(m, g, j);
      OpenEntry(m, f, i, g, j);
    }
    forall r, v | r in m'.spaces && v in m'.spaces[r] ensures PageOk(m', r, v) {
      OpenPage(m, f, i, r, v);
    }
    forall r | r in m'.spaces ensures RootOk(m', r) {
      assert RootOk(m, r);
    }
  }

  function WithPage(spaces: map<nat, map<nat, Entry>>, r: nat, v: nat, leaf: Entry): map<nat, map<nat, Entry>>
    requires r in spaces
  {
    var pages: map<nat, Entry> := spaces[r][v := leaf];
    spaces[r := pages]
  }

  /** Writes a level-1 entry: page prefix * 512 + i of the space now maps to `leaf`. */
  function MapLeaf(m: Vm, f: nat, i: nat, leaf: Entry): Vm
    requires f in m.own && f in m.t && i < |m.t[f]| && m.own[f].space in m.spaces
  {
    var s := m.own[f];
    m.(t := Put(m.t, f, i, leaf), spaces := WithPage(m.spaces, s.space, s.prefix * ENTRIES + i, leaf))
  }

  ghost predicate CanMapLeaf(m: Vm, f: nat, i: nat, leaf: Entry) {
    && f in m.own && m.own[f].level == 1 && i < ENTRIES && f in m.t && |m.t[f]| == ENTRIES && f !in m.kern
    && m.own[f].space in m.spaces
    && leaf.fl.present && (leaf.fl.user ==> m.Link(f).fl.user)
  }

  lemma MapLeafLink(m: Vm, f: nat, i: nat, leaf: Entry, g: nat)
    requires CanMapLeaf(m, f, i, leaf) && g in m.own && TableOk(m, g) && m.own[g].level < 4
    ensures MapLeaf(m, f, i, leaf).Link(g) == m.Link(g)
  {
  }

  lemma MapLeafTable(m: Vm, f: nat, i: nat, leaf: Entry, g: nat)
    requires Inv(m) && CanMapLeaf(m, f, i, leaf) && g in m.own
    ensures var m' := MapLeaf(m, f, i, leaf); TableOk(m', g) && UserLinkOk(m', g)
  {
    hide Inv, KernelOk;
    TableIs(m, g);
    if m.own[g].level < 4 {
      MapLeafLink(m, f, i, leaf, g);
      var p := m.own[g].parent;
      TableIs(m, p);
      if m.own[p].level < 4 {
        MapLeafLink(m, f, i, leaf, p);
      }
    }
  }

  lemma MapLeafLinkOk(m: Vm, f: nat, i: nat, leaf: Entry, g: nat)
    requires Inv(m) && CanMapLeaf(m, f, i, leaf) && g in m.own
    ensures LinkOk(MapLeaf(m, f, i, leaf), g)
  {
    hide Inv, KernelOk, KernelEntry, LinkOk;
    TableIs(m, g);
    if m.own[g].level < 4 { MapLeafLink(m, f, i, leaf, g); }
    LinkStays(m, MapLeaf(m, f, i, leaf), g);
  }

  lemma MapLeafOtherEntry(m: Vm, f: nat, i: nat, leaf: Entry, g: nat, j: nat)
    requires KernelOk(m.t, m.kroot, m.kern) && CanMapLeaf(m, f, i, leaf)
    requires g in m.own && j < ENTRIES && 1 <= m.own[g].level <= 4 && EntryOk(m, g, j)
    requires g != f || j != i
    requires m.own[g].level == 1 && m.own[g].space == m.own[f].space ==>
      m.own[g].prefix * ENTRIES + j != m.own[f].prefix * ENTRIES + i
    ensures EntryOk(MapLeaf(m, f, i, leaf), g, j)
  {
    hide KernelEntry;
    var m' := MapLeaf(m, f, i, leaf);
    InheritedStays(m, m', m.own[g].level, m.own[g].prefix, j);
    assert At(m'.t, g, j) == At(m.t, g, j);
  }

  lemma MapLeafEntry(m: Vm, f: nat, i: nat, leaf: Entry, g: nat, j: nat)
    requires Inv(m) && CanMapLeaf(m, f, i, leaf) && g in m.own && j < ENTRIES
    ensures 1 <= m.own[g].level <= 4 && EntryOk(MapLeaf(m, f, i, leaf), g, j)
  {
    hide Inv, KernelOk, KernelEntry;
    EntryIs(m, g, j);
    if g == f && j == i {
      assert At(MapLeaf(m, f, i, leaf).t, g, j) == leaf;
    } else {
      if m.own[g].level == 1 && m.own[g].space == m.own[f].space && m.own[g].prefix == m.own[f].prefix {
        SlotUnique(m, f, g);
      }
      MapLeafOtherEntry(m, f, i, leaf, g, j);
    }
  }

  lemma MapLeafPage(m: Vm, f: nat, i: nat, leaf: Entry, r: nat, v: nat)
    requires Inv(m) && CanMapLeaf(m, f, i, leaf)
    requires r in m.spaces && v in MapLeaf(m, f, i, leaf).spaces[r]
    ensures PageOk(MapLeaf(m, f, i, leaf), r, v)
  {
    hide Inv, KernelOk;
    var m' := MapLeaf(m, f, i, leaf);
    TableIs(m, f);
    if r == m.own[f].space && v == m.own[f].prefix * ENTRIES + i {
      MapLeafLink(m, f, i, leaf, f);
      assert HoldsPage(m', f, r, v);
    } else {
      var g := PageIs(m, r, v);
      MapLeafLink(m, f, i, leaf, g);
      assert HoldsPage(m', g, r, v);
    }
  }

  /** Writing the level-1 entry adds exactly that page to its space. */
  lemma MapLeafKeepsInv(m: Vm, f: nat, i: nat, leaf: Entry)
    requires Inv(m) && CanMapLeaf(m, f, i, leaf)
    ensures Inv(MapLeaf(m, f, i, leaf))
  {
    var m' := MapLeaf(m, f, i, leaf);
    KernelStays(m, m');
    hide LinkOk, KernelOk, KernelEntry, EntryOk, PageOk, UserLinkOk;
    forall g | g in m'.own ensures TableOk(m', g) && UserLinkOk(m', g) && LinkOk(m', g) {
      MapLeafTable(m, f, i, leaf, g);
      MapLeafLinkOk(m, f, i, leaf, g);
    }
    forall g, j: nat | g in m'.own && j < ENTRIES ensures EntryOk(m', g, j) {
      MapLeafEntry(m, f, i, leaf, g, j);
    }
    forall r, v | r in m'.spaces && v in m'.spaces[r] ensures PageOk(m', r, v) {
      MapLeafPage(m, f, i, leaf, r, v);
    }
    forall r | r in m'.spaces ensures RootOk(m', r) {
      assert RootOk(m, r);
    }
  }
}
