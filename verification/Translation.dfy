/** What the page tables of a process mean: the kernel's mappings, overlaid by the pages mapped in
    that process, and ring 3 reaches exactly the pages mapped for it. */
module Translation {
  import opened Pte
  import opened Options
  import opened PageTables

  const PAGE_NUMBERS: nat := 0x10_0000_0000   // 2^36 pages of 4 KB

  /** The mapping of page v when the space adds `pages` to the kernel's mappings. */
  function Overlay(pages: map<nat, Entry>, kernel: Mapping, v: nat): Mapping {
    if v in pages then Mapped(pages[v]) else kernel
  }

  lemma TopPrefix(v: nat)
    requires v < PAGE_NUMBERS
    ensures Prefix(v, 4) == 0
  {
    assert Prefix(v, 1) == v / 512;
    assert Prefix(v, 2) == Prefix(v, 1) / 512;
    assert Prefix(v, 3) == Prefix(v, 2) / 512;
    assert Prefix(v, 4) == Prefix(v, 3) / 512;
  }

  lemma PageParts(v: nat)
    ensures Prefix(v, 1) == v / ENTRIES && Prefix(v, 1) * ENTRIES + Index(v, 1) == v
    ensures Prefix(v, 2) * ENTRIES + Index(v, 2) == Prefix(v, 1)
    ensures Prefix(v, 1) / ENTRIES == Prefix(v, 2) && Prefix(v, 1) % ENTRIES == Index(v, 2)
  {
  }

  // ----- the kernel's own walk -----

  function EntryOn(t: Tables, root: nat, v: nat, l: nat): Entry
    requires 1 <= l <= 4
  {
    var n := Node(t, root, v, l);
    if n.Some? then At(t, n.value, Index(v, l)) else ZERO
  }

  lemma {:induction false} KernelWalk(t: Tables, kroot: nat, kern: map<nat, nat>, v: nat, l: nat)
    requires KernelOk(t, kroot, kern) && 2 <= l <= 4
    ensures EntryOn(t, kroot, v, l) == KernelEntry(t, kroot, l, Prefix(v, l), Index(v, l))
    decreases 4 - l
  {
    if l < 4 {
      KernelWalk(t, kroot, kern, v, l + 1);
    }
  }

  lemma KernelLeaf(t: Tables, kroot: nat, kern: map<nat, nat>, v: nat)
    requires KernelOk(t, kroot, kern)
    ensures var e := KernelEntry(t, kroot, 1, Prefix(v, 1), Index(v, 1));
      Leaf(t, kroot, v) == if e.fl.present then Mapped(e) else Unmapped
  {
    KernelWalk(t, kroot, kern, v, 2);
    KernelEntryShape(t, kroot, kern, 2, Prefix(v, 2), Index(v, 2));
  }

  // ----- the walk of a process -----

  /** A private table is the one its space's walk visits for the pages of its prefix. */
  lemma {:induction false} OwnNode(m: Vm, f: nat, v: nat)
    requires Inv(m) && f in m.own && v < PAGE_NUMBERS
    requires 1 <= m.own[f].level <= 4 && m.own[f].prefix == Prefix(v, m.own[f].level)
    ensures Node(m.t, m.own[f].space, v, m.own[f].level) == Some(f)
    decreases 4 - m.own[f].level
  {
    assert TableOk(m, f);
    if m.own[f].level < 4 {
      OwnNode(m, m.own[f].parent, v);
    }
  }

  /** A walk stays among the private tables until it leaves them for the kernel's, at the same place. */
  lemma {:induction false} WalkOwn(m: Vm, r: nat, v: nat, l: nat)
    requires Inv(m) && r in m.spaces && v < PAGE_NUMBERS && 2 <= l <= 4
    ensures var n := Node(m.t, r, v, l);
      || n == Node(m.t, m.kroot, v, l)
      || (n.Some? && n.value in m.own && m.own[n.value].space == r && m.own[n.value].level == l &&
          m.own[n.value].prefix == Prefix(v, l))
    decreases 4 - l
  {
    assert RootOk(m, r);
    TopPrefix(v);
    if l < 4 {
      WalkOwn(m, r, v, l + 1);
      var n := Node(m.t, r, v, l + 1);
      if n.Some? && n.value in m.own && m.own[n.value].level == l + 1 && m.own[n.value].prefix == Prefix(v, l + 1) {
        assert EntryOk(m, n.value, Index(v, l + 1));
        KernelWalk(m.t, m.kroot, m.kern, v, l + 1);
      }
    }
  }

  lemma MappedLeaf(m: Vm, r: nat, v: nat)
    requires Inv(m) && r in m.spaces && v < PAGE_NUMBERS && v in m.spaces[r]
    ensures Leaf(m.t, r, v) == Mapped(m.spaces[r][v])
  {
    hide Inv, KernelOk, KernelEntry, Node, Prefix;
    var g := PageIs(m, r, v);
    TableIs(m, m.own[g].parent);
    PageParts(v);
    OwnNode(m, g, v);
    OwnNode(m, m.own[g].parent, v);
    EntryIs(m, g, Index(v, 1));
    LeafAt(m.t, r, v, m.own[g].parent, g);
  }

  /** The walk to a page, from its level-2 table on. */
  lemma LeafAt(t: Tables, root: nat, v: nat, pd: nat, pt: nat)
    requires Node(t, root, v, 2) == Some(pd)
    requires var e := At(t, pd, Index(v, 2)); e.fl.present && !e.fl.huge && e.frame == pt
    ensures var e := At(t, pt, Index(v, 1));
      Leaf(t, root, v) == if e.fl.present then Mapped(e) else Unmapped
  {
    hide Node, Prefix;
  }

  lemma InheritedBelowPd(m: Vm, r: nat, v: nat, pd: nat)
    requires KernelOk(m.t, m.kroot, m.kern) && Node(m.t, r, v, 2) == Some(pd)
    requires At(m.t, pd, Index(v, 2)) == m.Inherited(2, Prefix(v, 2), Index(v, 2))
    ensures Leaf(m.t, r, v) == Leaf(m.t, m.kroot, v)
  {
    KernelWalk(m.t, m.kroot, m.kern, v, 2);
    KernelEntryShape(m.t, m.kroot, m.kern, 2, Prefix(v, 2), Index(v, 2));
  }

  lemma InheritedInPt(m: Vm, r: nat, v: nat, pd: nat, pt: nat)
    requires KernelOk(m.t, m.kroot, m.kern) && Node(m.t, r, v, 2) == Some(pd)
    requires var e := At(m.t, pd, Index(v, 2)); e.fl.present && !e.fl.huge && e.frame == pt
    requires At(m.t, pt, Index(v, 1)) == m.Inherited(1, Prefix(v, 1), Index(v, 1))
    ensures Leaf(m.t, r, v) == Leaf(m.t, m.kroot, v)
  {
    KernelLeaf(m.t, m.kroot, m.kern, v);
  }

  lemma InheritedVia(m: Vm, r: nat, v: nat, pd: nat)
    requires KernelOk(m.t, m.kroot, m.kern) && Node(m.t, r, v, 2) == Some(pd)
    requires r in m.spaces && v !in m.spaces[r]
    requires pd in m.own && m.own[pd].space == r && m.own[pd].level == 2 && m.own[pd].prefix == Prefix(v, 2)
    requires EntryOk(m, pd, Index(v, 2))
    requires var e := At(m.t, pd, Index(v, 2)); IsChild(m, pd, Index(v, 2), e) ==> EntryOk(m, e.frame, Index(v, 1))
    ensures Leaf(m.t, r, v) == Leaf(m.t, m.kroot, v)
  {
    hide KernelOk, KernelEntry, Node, Leaf, Prefix;
    var e := At(m.t, pd, Index(v, 2));
    if e == m.Inherited(2, Prefix(v, 2), Index(v, 2)) {
      InheritedBelowPd(m, r, v, pd);
    } else {
      PageParts(v);
      InheritedInPt(m, r, v, pd, e.frame);
    }
  }

  lemma InheritedLeaf(m: Vm, r: nat, v: nat)
    requires Inv(m) && r in m.spaces && v < PAGE_NUMBERS && v !in m.spaces[r]
    ensures Leaf(m.t, r, v) == Leaf(m.t, m.kroot, v)
  {
    WalkOwn(m, r, v, 2);
    var n := Node(m.t, r, v, 2);
    if n != Node(m.t, m.kroot, v, 2) {
      InheritedVia(m, r, v, n.value);
    }
  }

  /** Every address space is the kernel's mappings overlaid by its own pages. */
  lemma SpaceIsOverlay(m: Vm, r: nat, v: nat)
    requires Inv(m) && r in m.spaces && v < PAGE_NUMBERS
    ensures Leaf(m.t, r, v) == Overlay(m.spaces[r], Leaf(m.t, m.kroot, v), v)
  {
    if v in m.spaces[r] {
      MappedLeaf(m, r, v);
    } else {
      InheritedLeaf(m, r, v);
    }
  }

  // ----- what ring 3 reaches -----

  lemma UserOkHasUserLeaf(t: Tables, root: nat, v: nat)
    requires UserOk(t, root, v)
    ensures Leaf(t, root, v).Mapped? && Leaf(t, root, v).leaf.fl.user
  {
  }

  lemma KernelHasNoUserPage(m: Vm, v: nat)
    requires Inv(m)
    ensures Leaf(m.t, m.kroot, v).Mapped? ==> !Leaf(m.t, m.kroot, v).leaf.fl.user
  {
    KernelLeaf(m.t, m.kroot, m.kern, v);
    KernelEntryShape(m.t, m.kroot, m.kern, 1, Prefix(v, 1), Index(v, 1));
  }

  lemma UserPageReachable(m: Vm, r: nat, v: nat)
    requires Inv(m) && r in m.spaces && v < PAGE_NUMBERS
    requires v in m.spaces[r] && m.spaces[r][v].fl.user
    ensures UserOk(m.t, r, v)
  {
    hide Inv, KernelOk, KernelEntry, EntryOk, Node, Leaf;
    var g1 := PageIs(m, r, v);
    TableIs(m, g1);
    var g2 := m.own[g1].parent;
    TableIs(m, g2);
    var g3 := m.own[g2].parent;
    TableIs(m, g3);
    TableIs(m, m.own[g3].parent);
    OwnNode(m, g1, v);
    OwnNode(m, g2, v);
    OwnNode(m, g3, v);
    OwnNode(m, m.own[g3].parent, v);
    EntryIs(m, g1, Index(v, 1));
    LeafIn(m, g1, v);
  }

  /** The level-1 entry of a page of a space. */
  lemma LeafIn(m: Vm, g: nat, v: nat)
    requires g in m.own && m.own[g].level == 1 && m.own[g].prefix == v / ENTRIES && EntryOk(m, g, Index(v, 1))
    requires m.own[g].space in m.spaces && v in m.spaces[m.own[g].space]
    ensures At(m.t, g, Index(v, 1)) == m.spaces[m.own[g].space][v]
  {
    PageParts(v);
  }

  /** Ring 3 reaches exactly the pages mapped with the user bit in its own space. */
  lemma UserReach(m: Vm, r: nat, v: nat)
    requires Inv(m) && r in m.spaces && v < PAGE_NUMBERS
    ensures UserOk(m.t, r, v) <==> v in m.spaces[r] && m.spaces[r][v].fl.user
  {
    if UserOk(m.t, r, v) {
      UserOkHasUserLeaf(m.t, r, v);
      SpaceIsOverlay(m, r, v);
      KernelHasNoUserPage(m, v);
    }
    if v in m.spaces[r] && m.spaces[r][v].fl.user {
      UserPageReachable(m, r, v);
    }
  }

  // ----- what can be written and executed -----

  /** An entry that the walk of a space uses above level 1 refuses nothing if it is a link. */
  lemma LinkOnWalk(m: Vm, r: nat, v: nat, l: nat, a: Access)
    requires Inv(m) && r in m.spaces && v < PAGE_NUMBERS && 2 <= l <= 4
    ensures var e := EntryOn(m.t, r, v, l);
      (e.fl.present && l > 2 ==> !e.fl.huge) && (e.fl.present && !e.fl.huge ==> Grants(e.fl, a))
  {
    hide Inv, KernelOk, KernelEntry, Node;
    WalkOwn(m, r, v, l);
    KernelIs(m);
    var n := Node(m.t, r, v, l);
    if n == Node(m.t, m.kroot, v, l) {
      KernelWalk(m.t, m.kroot, m.kern, v, l);
      KernelEntryShape(m.t, m.kroot, m.kern, l, Prefix(v, l), Index(v, l));
      KernelLinkGrants(m.kern, l, EntryOn(m.t, r, v, l), a);
    } else {
      OwnLink(m, n.value, Index(v, l), a);
    }
  }

  lemma KernelIs(m: Vm)
    requires Inv(m)
    ensures KernelOk(m.t, m.kroot, m.kern)
  {
  }

  lemma KernelLinkGrants(kern: map<nat, nat>, l: nat, e: Entry, a: Access)
    requires KernelEntryOk(kern, l, e) && l >= 2
    ensures (e.fl.present && l > 2 ==> !e.fl.huge) && (e.fl.present && !e.fl.huge ==> Grants(e.fl, a))
  {
    match a case Write => case Execute =>
  }

  lemma OwnLink(m: Vm, f: nat, i: nat, a: Access)
    requires Inv(m) && f in m.own && 2 <= m.own[f].level <= 4 && i < ENTRIES
    ensures var e := At(m.t, f, i);
      (e.fl.present && m.own[f].level > 2 ==> !e.fl.huge) && (e.fl.present && !e.fl.huge ==> Grants(e.fl, a))
  {
    hide Inv, KernelOk, KernelEntry;
    EntryIs(m, f, i);
    var s, e := m.own[f], At(m.t, f, i);
    var inherited := m.Inherited(s.level, s.prefix, i);
    KernelEntryShape(m.t, m.kroot, m.kern, s.level, s.prefix, i);
    KernelLinkGrants(m.kern, s.level, inherited, a);
    KernelLinkGrants(m.kern, s.level, inherited, Execute);
    if e != inherited {
      var c := e.frame;
      TableIs(m, c);
      PrefixSplits(s.prefix, i);
      assert m.Link(c) == e;
      Pte.LinkGrants(inherited.fl, e.fl.user, a);
    }
  }

  /** A page of a space can be written, or executed, exactly as the entry of the page says, whatever tables lie
      on the way to it. */
  lemma RightsOfLeaf(m: Vm, r: nat, v: nat, a: Access)
    requires Inv(m) && r in m.spaces && v < PAGE_NUMBERS
    ensures Allowed(m.t, r, v, a) <==> Leaf(m.t, r, v).Mapped? && Grants(Leaf(m.t, r, v).leaf.fl, a)
  {
    hide Inv;
    LinkOnWalk(m, r, v, 4, a);
    LinkOnWalk(m, r, v, 3, a);
    LinkOnWalk(m, r, v, 2, a);
    RightsAlong(m.t, r, v, a);
  }

  /** The rights of a page, when the links on the way to it refuse nothing. */
  lemma RightsAlong(t: Tables, root: nat, v: nat, a: Access)
    requires forall l :: 2 <= l <= 4 ==> var e := EntryOn(t, root, v, l);
      (e.fl.present && l > 2 ==> !e.fl.huge) && (e.fl.present && !e.fl.huge ==> Grants(e.fl, a))
    ensures Allowed(t, root, v, a) <==> Leaf(t, root, v).Mapped? && Grants(Leaf(t, root, v).leaf.fl, a)
  {
    hide Index;
    var e4, e3, e2 := EntryOn(t, root, v, 4), EntryOn(t, root, v, 3), EntryOn(t, root, v, 2);
    PieceGrants(e2.fl, a);
  }

  /** The same of the kernel's own tables. */
  lemma KernelRights(m: Vm, v: nat, a: Access)
    requires Inv(m)
    ensures Allowed(m.t, m.kroot, v, a) <==>
      Leaf(m.t, m.kroot, v).Mapped? && Grants(Leaf(m.t, m.kroot, v).leaf.fl, a)
  {
    forall l | 2 <= l <= 4
      ensures var e := EntryOn(m.t, m.kroot, v, l);
        (e.fl.present && l > 2 ==> !e.fl.huge) && (e.fl.present && !e.fl.huge ==> Grants(e.fl, a))
    {
      hide KernelEntry, Node;
      KernelWalk(m.t, m.kroot, m.kern, v, l);
      KernelEntryShape(m.t, m.kroot, m.kern, l, Prefix(v, l), Index(v, l));
      KernelLinkGrants(m.kern, l, EntryOn(m.t, m.kroot, v, l), a);
    }
    RightsAlong(m.t, m.kroot, v, a);
  }

  /** Ring 3 can write, or execute, exactly the pages that are mapped so in its own space with the user bit. */
  lemma UserRights(m: Vm, r: nat, v: nat, a: Access)
    requires Inv(m) && r in m.spaces && v < PAGE_NUMBERS
    ensures UserOk(m.t, r, v) && Allowed(m.t, r, v, a) <==>
      v in m.spaces[r] && m.spaces[r][v].fl.user && Grants(m.spaces[r][v].fl, a)
  {
    hide Inv, UserOk, Allowed, Leaf;
    UserReach(m, r, v);
    RightsOfLeaf(m, r, v, a);
    SpaceIsOverlay(m, r, v);
  }

  /** A page of the kernel's that a space does not map itself keeps its rights in that space. */
  lemma KernelRightsKept(m: Vm, r: nat, v: nat, a: Access)
    requires Inv(m) && r in m.spaces && v < PAGE_NUMBERS && v !in m.spaces[r]
    ensures Allowed(m.t, r, v, a) <==> Allowed(m.t, m.kroot, v, a)
  {
    hide Inv, Allowed, Leaf;
    RightsOfLeaf(m, r, v, a);
    KernelRights(m, v, a);
    SpaceIsOverlay(m, r, v);
  }

  // ----- what a mapping changes -----

  /** A page is mapped, reached by ring 3, written and executed in one memory as in the other. */
  ghost predicate SameReach(t: Tables, t': Tables, root: nat, w: nat) {
    && Leaf(t', root, w) == Leaf(t, root, w) && UserOk(t', root, w) == UserOk(t, root, w)
    && forall a :: Allowed(t', root, w, a) == Allowed(t, root, w, a)
  }

  /** A page is mapped by an entry, and reached, written and executed as that entry says. */
  ghost predicate ReachedAs(t: Tables, root: nat, w: nat, leaf: Entry) {
    && Leaf(t, root, w) == Mapped(leaf) && (UserOk(t, root, w) <==> leaf.fl.user)
    && forall a :: Allowed(t, root, w, a) <==> Grants(leaf.fl, a)
  }

  /** m' has the kernel's tables of m and, beyond the spaces of m, only page v of space r. */
  ghost predicate MapsOnly(m: Vm, m': Vm, r: nat, v: nat, leaf: Entry) {
    SameKernel(m, m') && r in m.spaces && m'.spaces == WithPage(m.spaces, r, v, leaf)
  }

  lemma KernelUnchanged(m: Vm, m': Vm, w: nat)
    requires Inv(m) && Inv(m') && SameKernel(m, m')
    ensures SameReach(m.t, m'.t, m.kroot, w)
  {
    KernelLeaf(m.t, m.kroot, m.kern, w);
    KernelLeaf(m'.t, m.kroot, m.kern, w);
    KernelEntryFrame(m.t, m'.t, m.kroot, m.kern, 1, Prefix(w, 1), Index(w, 1));
    assert Leaf(m'.t, m.kroot, w) == Leaf(m.t, m.kroot, w);
    hide Inv, KernelOk, UserOk, Leaf, Allowed;
    KernelClosed(m, w);
    KernelClosed(m', w);
    forall a ensures Allowed(m'.t, m.kroot, w, a) == Allowed(m.t, m.kroot, w, a) {
      KernelRights(m, w, a);
      KernelRights(m', w, a);
    }
  }

  /** Ring 3 reaches nothing through the kernel's own tables. */
  lemma KernelClosed(m: Vm, v: nat)
    requires Inv(m)
    ensures !UserOk(m.t, m.kroot, v)
  {
    hide Inv, UserOk, Leaf;
    KernelHasNoUserPage(m, v);
    if UserOk(m.t, m.kroot, v) { UserOkHasUserLeaf(m.t, m.kroot, v); }
  }

  /** A space whose pages did not change translates every page as before, with the same rights. */
  lemma SpaceUnchanged(m: Vm, m': Vm, s: nat, w: nat)
    requires Inv(m) && Inv(m') && SameKernel(m, m') && s in m.spaces && s in m'.spaces && w < PAGE_NUMBERS
    requires (w in m.spaces[s]) == (w in m'.spaces[s]) && (w in m.spaces[s] ==> m'.spaces[s][w] == m.spaces[s][w])
    ensures SameReach(m.t, m'.t, s, w)
  {
    hide Inv, UserOk, Allowed, Leaf, KernelOk;
    KernelUnchanged(m, m', w);
    SpaceIsOverlay(m, s, w);
    SpaceIsOverlay(m', s, w);
    UserReach(m, s, w);
    UserReach(m', s, w);
    forall a ensures Allowed(m'.t, s, w, a) == Allowed(m.t, s, w, a) {
      RightsOfLeaf(m, s, w, a);
      RightsOfLeaf(m', s, w, a);
    }
  }

  /** Mapping page v in space r changes the translation, the ring-3 reach and the rights of that page alone. */
  lemma MapChangesOnePage(m: Vm, m': Vm, r: nat, v: nat, leaf: Entry, s: nat, w: nat)
    requires Inv(m) && Inv(m') && MapsOnly(m, m', r, v, leaf)
    requires s in m.spaces && w < PAGE_NUMBERS
    ensures s == r && w == v ==> ReachedAs(m'.t, s, w, leaf)
    ensures !(s == r && w == v) ==> SameReach(m.t, m'.t, s, w)
  {
    hide Inv, UserOk, Allowed, Leaf;
    if s == r && w == v {
      SpaceIsOverlay(m', s, w);
      UserReach(m', s, w);
      forall a ensures Allowed(m'.t, s, w, a) <==> Grants(leaf.fl, a) { RightsOfLeaf(m', s, w, a); }
    } else {
      SpaceUnchanged(m, m', s, w);
    }
  }
}
