/** Which tables hang below a private table, and what is left when a whole space is removed. */
module Teardown {
  import opened PageTables

  // ----- a new space -----

  /** A root copied from the kernel's. */
  function AddSpace(m: Vm, n: nat): Vm
    requires m.kroot in m.t
  {
    m.(t := m.t[n := m.t[m.kroot]], own := m.own[n := Slot(n, 4, 0, n)], spaces := m.spaces[n := map[]])
  }

  lemma AddSpaceTable(m: Vm, n: nat, g: nat)
    requires Inv(m) && n !in m.own && n !in m.kern && m.kroot in m.t
    requires g in m.own || g == n
    ensures TableOk(AddSpace(m, n), g) && UserLinkOk(AddSpace(m, n), g)
  {
    if g in m.own {
      assert TableOk(m, g) && UserLinkOk(m, g);
      if m.own[g].level < 4 {
        assert TableOk(m, m.own[g].parent);
      }
    }
  }

  lemma AddSpaceLinkOk(m: Vm, n: nat, g: nat)
    requires Inv(m) && n !in m.own && n !in m.kern && m.kroot in m.t
    requires g in m.own || g == n
    ensures LinkOk(AddSpace(m, n), g)
  {
    hide Inv, KernelOk, KernelEntry;
    if g in m.own {
      TableIs(m, g);
      LinkStays(m, AddSpace(m, n), g);
    }
  }

  lemma AddSpaceOldEntry(m: Vm, n: nat, g: nat, j: nat)
    requires KernelOk(m.t, m.kroot, m.kern) && n !in m.own && n !in m.kern && n !in m.spaces
    requires g in m.own && 1 <= m.own[g].level <= 4 && j < ENTRIES && EntryOk(m, g, j)
    ensures EntryOk(AddSpace(m, n), g, j)
  {
    var m' := AddSpace(m, n);
    InheritedStays(m, m', m.own[g].level, m.own[g].prefix, j);
    assert At(m'.t, g, j) == At(m.t, g, j);
  }

  lemma AddSpaceRootEntry(m: Vm, n: nat, j: nat)
    requires KernelOk(m.t, m.kroot, m.kern) && n !in m.own && n !in m.kern && j < ENTRIES
    ensures EntryOk(AddSpace(m, n), n, j)
  {
    var m' := AddSpace(m, n);
    assert At(m'.t, n, j) == At(m.t, m.kroot, j) == At(m'.t, m.kroot, j);
  }

  lemma AddSpaceEntry(m: Vm, n: nat, g: nat, j: nat)
    requires Inv(m) && n !in m.own && n !in m.kern && m.kroot in m.t
    requires (g in m.own || g == n) && j < ENTRIES
    ensures var m' := AddSpace(m, n); 1 <= m'.own[g].level <= 4 && EntryOk(m', g, j)
  {
    if g in m.own {
      assert TableOk(m, g) && EntryOk(m, g, j);
      assert n in m.spaces ==> RootOk(m, n);
      AddSpaceOldEntry(m, n, g, j);
    } else {
      AddSpaceRootEntry(m, n, j);
    }
  }

  lemma AddSpacePage(m: Vm, n: nat, r: nat, v: nat)
    requires Inv(m) && n !in m.own && n !in m.kern && m.kroot in m.t
    requires r in m.spaces && v in m.spaces[r] && r != n
    ensures PageOk(AddSpace(m, n), r, v)
  {
    hide Inv, KernelOk, EntryOk;
    var g := PageIs(m, r, v);
    TableIs(m, m.own[g].parent);
    assert HoldsPage(AddSpace(m, n), g, r, v);
  }

  /** A new space is a well-formed one with no page of its own. */
  lemma AddSpaceKeepsInv(m: Vm, n: nat)
    requires Inv(m) && n !in m.own && n !in m.kern
    ensures m.kroot in m.t && Inv(AddSpace(m, n))
  {
    var m' := AddSpace(m, n);
    KernelStays(m, m');
    hide LinkOk;
    forall g | g in m'.own ensures TableOk(m', g) && UserLinkOk(m', g) && LinkOk(m', g) {
      AddSpaceTable(m, n, g);
      AddSpaceLinkOk(m, n, g);
    }
    forall g, j: nat | g in m'.own && j < ENTRIES ensures EntryOk(m', g, j) {
      AddSpaceEntry(m, n, g, j);
    }
    forall r, v | r in m'.spaces && v in m'.spaces[r] ensures PageOk(m', r, v) {
      AddSpacePage(m, n, r, v);
    }
    forall r | r in m'.spaces ensures RootOk(m', r) {
      assert r in m.spaces ==> RootOk(m, r);
    }
  }

  // ----- removing a space -----

  function TablesOf(m: Vm, r: nat): set<nat> {
    set f | f in m.own && m.own[f].space == r
  }

  /** The tables left when space r is gone and its frames hold whatever teardown left in them. */
  function RemoveSpace(m: Vm, r: nat, t: Tables): Vm {
    m.(t := t, own := map f | f in m.own && m.own[f].space != r :: m.own[f], spaces := m.spaces - {r})
  }

  ghost predicate OthersKept(m: Vm, r: nat, t: Tables) {
    && (forall f :: f in m.own && m.own[f].space != r ==> f in t && f in m.t && t[f] == m.t[f])
    && (forall f :: f in m.kern ==> f in t && f in m.t && t[f] == m.t[f])
  }

  lemma RemoveTable(m: Vm, r: nat, t: Tables, g: nat)
    requires Inv(m) && OthersKept(m, r, t) && g in m.own && m.own[g].space != r
    ensures var m' := RemoveSpace(m, r, t); TableOk(m', g) && UserLinkOk(m', g)
  {
    hide Inv, KernelOk, EntryOk;
    TableIs(m, g);
    if m.own[g].level < 4 {
      var p := m.own[g].parent;
      TableIs(m, p);
      if m.own[p].level < 4 {
        TableIs(m, m.own[p].parent);
      }
    }
  }

  lemma RemoveLinkOk(m: Vm, r: nat, t: Tables, g: nat)
    requires Inv(m) && OthersKept(m, r, t) && g in m.own && m.own[g].space != r
    ensures LinkOk(RemoveSpace(m, r, t), g)
  {
    hide Inv, KernelOk, EntryOk, KernelEntry, LinkOk;
    TableIs(m, g);
    if m.own[g].level < 4 { TableIs(m, m.own[g].parent); }
    LinkStays(m, RemoveSpace(m, r, t), g);
  }

  lemma RemoveOldEntry(m: Vm, r: nat, t: Tables, g: nat, j: nat)
    requires KernelOk(m.t, m.kroot, m.kern) && OthersKept(m, r, t)
    requires g in m.own && m.own[g].space != r && j < ENTRIES && 1 <= m.own[g].level <= 4 && EntryOk(m, g, j)
    ensures EntryOk(RemoveSpace(m, r, t), g, j)
  {
    InheritedStays(m, RemoveSpace(m, r, t), m.own[g].level, m.own[g].prefix, j);
  }

  lemma RemoveEntry(m: Vm, r: nat, t: Tables, g: nat, j: nat)
    requires Inv(m) && OthersKept(m, r, t) && g in m.own && m.own[g].space != r && j < ENTRIES
    ensures 1 <= m.own[g].level <= 4 && EntryOk(RemoveSpace(m, r, t), g, j)
  {
    assert TableOk(m, g) && EntryOk(m, g, j);
    RemoveOldEntry(m, r, t, g, j);
  }

  lemma RemovePage(m: Vm, r: nat, t: Tables, s: nat, v: nat)
    requires Inv(m) && OthersKept(m, r, t) && s in m.spaces && s != r && v in m.spaces[s]
    ensures PageOk(RemoveSpace(m, r, t), s, v)
  {
    hide Inv, KernelOk, EntryOk;
    var g := PageIs(m, s, v);
    TableIs(m, m.own[g].parent);
    assert HoldsPage(RemoveSpace(m, r, t), g, s, v);
  }

  lemma RemoveKernel(m: Vm, r: nat, t: Tables)
    requires KernelOk(m.t, m.kroot, m.kern) && OthersKept(m, r, t)
    ensures var m' := RemoveSpace(m, r, t);
      KernelOk(m'.t, m'.kroot, m'.kern)
  {
    KernelStays(m, RemoveSpace(m, r, t));
  }

  lemma RemoveRoot(m: Vm, r: nat, t: Tables, s: nat)
    requires RootOk(m, s) && s != r
    ensures RootOk(RemoveSpace(m, r, t), s)
  {
  }

  /** Removing a space keeps every other one. */
  lemma RemoveKeepsInv(m: Vm, r: nat, t: Tables)
    requires Inv(m) && OthersKept(m, r, t)
    ensures Inv(RemoveSpace(m, r, t))
  {
    hide LinkOk, KernelOk, KernelEntry, EntryOk, PageOk, UserLinkOk, RootOk, OthersKept;
    var m' := RemoveSpace(m, r, t);
    RemoveKernel(m, r, t);
    forall g | g in m'.own ensures TableOk(m', g) && UserLinkOk(m', g) && LinkOk(m', g) {
      RemoveTable(m, r, t, g);
      RemoveLinkOk(m, r, t, g);
    }
    forall g, j: nat | g in m'.own && j < ENTRIES ensures EntryOk(m', g, j) {
      RemoveEntry(m, r, t, g, j);
    }
    forall s, v | s in m'.spaces && v in m'.spaces[s] ensures PageOk(m', s, v) {
      RemovePage(m, r, t, s, v);
    }
    forall s | s in m'.spaces ensures RootOk(m', s) {
      RemoveRoot(m, r, t, s);
    }
  }

  // ----- the tables below an entry -----

  /** The private tables of space r below level l whose level l - 1 ancestor has a prefix in [lo, hi). */
  ghost function Under(m: Vm, r: nat, l: nat, lo: nat, hi: nat): set<nat>
    requires l <= 4
  {
    set g | g in m.own && m.own[g].space == r && 1 <= m.own[g].level < l
            && lo <= Prefix(m.own[g].prefix, l - 1 - m.own[g].level) < hi
  }

  /** All private tables below table f. */
  ghost function Subtree(m: Vm, f: nat): set<nat>
    requires f in m.own && m.own[f].level <= 4
  {
    Under(m, m.own[f].space, m.own[f].level, m.own[f].prefix * ENTRIES, m.own[f].prefix * ENTRIES + ENTRIES)
  }

  /** The tables below entry i of table f. */
  ghost function Below(m: Vm, f: nat, i: nat): set<nat>
    requires f in m.own && m.own[f].level <= 4
  {
    Under(m, m.own[f].space, m.own[f].level, m.own[f].prefix * ENTRIES + i, m.own[f].prefix * ENTRIES + i + 1)
  }

  /** The tables below the first i entries of table f. */
  ghost function Before(m: Vm, f: nat, i: nat): set<nat>
    requires f in m.own && m.own[f].level <= 4
  {
    Under(m, m.own[f].space, m.own[f].level, m.own[f].prefix * ENTRIES, m.own[f].prefix * ENTRIES + i)
  }

  lemma BeforeNext(m: Vm, f: nat, i: nat)
    requires f in m.own && m.own[f].level <= 4 && i < ENTRIES
    ensures Before(m, f, i + 1) == Before(m, f, i) + Below(m, f, i) && Before(m, f, i) !! Below(m, f, i)
    ensures Below(m, f, i) <= Subtree(m, f) && Before(m, f, i) <= Subtree(m, f)
    ensures f !in Subtree(m, f)
  {
  }

  lemma BeforeEnds(m: Vm, f: nat)
    requires f in m.own && m.own[f].level <= 4
    ensures Before(m, f, 0) == {} && Before(m, f, ENTRIES) == Subtree(m, f)
  {
  }

  /** Memory t still holds the tables S of m. */
  ghost predicate Intact(t: Tables, m: Vm, S: set<nat>) {
    forall g :: g in S ==> g in t && g in m.t && t[g] == m.t[g]
  }

  /** Outside S memory is as it was. */
  ghost predicate KeptOutside(t: Tables, t': Tables, S: set<nat>) {
    && t'.Keys == t.Keys
    && (forall g :: g in t ==> |t'[g]| == |t[g]|)
    && (forall g :: g in t && g !in S ==> t'[g] == t[g])
  }

  /** The ancestor of a private table at a higher level. */
  lemma {:induction false} Ancestor(m: Vm, g: nat, l: nat) returns (a: nat)
    requires Inv(m) && g in m.own && m.own[g].level <= l <= 4
    ensures 1 <= m.own[g].level
    ensures a in m.own && m.own[a].space == m.own[g].space && m.own[a].level == l
    ensures m.own[a].prefix == Prefix(m.own[g].prefix, l - m.own[g].level)
    decreases l
  {
    assert TableOk(m, g);
    if m.own[g].level == l {
      a := g;
    } else {
      var b := Ancestor(m, g, l - 1);
      assert TableOk(m, b);
      a := m.own[b].parent;
    }
  }

  /** Nothing hangs below an entry that is not a private table. */
  lemma BelowShared(m: Vm, f: nat, i: nat)
    requires Inv(m) && f in m.own && 2 <= m.own[f].level <= 4 && i < ENTRIES
    requires !(At(m.t, f, i).fl.present && At(m.t, f, i).fl.priv && !At(m.t, f, i).fl.huge)
    ensures Below(m, f, i) == {}
  {
    hide Inv, KernelOk, EntryOk, Prefix;
    if g :| g in Below(m, f, i) {
      var a := Ancestor(m, g, m.own[f].level - 1);
      TableIs(m, a);
      PrefixSplits(m.own[f].prefix, i);
      TableIs(m, m.own[a].parent);
      SlotUnique(m, m.own[a].parent, f);
    }
  }

  /** Below an entry that is a private table c hang c and the tables below c. */
  lemma BelowChild(m: Vm, f: nat, i: nat, c: nat)
    requires Inv(m) && f in m.own && 2 <= m.own[f].level <= 4 && i < ENTRIES
    requires IsChild(m, f, i, At(m.t, f, i)) && c == At(m.t, f, i).frame
    ensures Below(m, f, i) == {c} + Subtree(m, c)
    ensures c !in Subtree(m, c)
  {
    hide Inv, KernelOk, EntryOk;
    forall g | g in Below(m, f, i) ensures g == c || g in Subtree(m, c) {
      if m.own[g].level == m.own[f].level - 1 {
        SlotUnique(m, g, c);
      } else {
        UpOne(m.own[g].prefix, m.own[f].level - 2 - m.own[g].level, m.own[f].prefix * ENTRIES + i);
      }
    }
    forall g | g in Subtree(m, c) ensures g in Below(m, f, i) {
      UpOne(m.own[g].prefix, m.own[f].level - 2 - m.own[g].level, m.own[f].prefix * ENTRIES + i);
    }
  }

  lemma UpOne(p: nat, k: nat, q: nat)
    requires k + 1 <= 4
    ensures Prefix(p, k + 1) == q <==> q * ENTRIES <= Prefix(p, k) < q * ENTRIES + ENTRIES
  {
  }

  /** Everything a space owns hangs below its root. */
  lemma SpaceIsRootAndSubtree(m: Vm, r: nat)
    requires Inv(m) && r in m.spaces
    ensures r in m.own && m.own[r].level == 4 && TablesOf(m, r) == {r} + Subtree(m, r) && r !in Subtree(m, r)
  {
    assert RootOk(m, r);
    forall g | g in TablesOf(m, r) ensures g == r || g in Subtree(m, r) {
      assert TableOk(m, g);
      if m.own[g].level < 4 {
        var a := Ancestor(m, g, 3);
        assert TableOk(m, a);
        assert TableOk(m, m.own[a].parent);
      }
    }
  }
}
