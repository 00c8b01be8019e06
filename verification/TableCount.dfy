/** How many tables a mapping needs: the private tables that are missing on the way to a page. */
module TableCount {
  import opened PageTables

  /** Private table f is the one at level l on the way to page v of space r. */
  ghost predicate Serves(m: Vm, f: nat, r: nat, v: nat, l: nat)
    requires l <= 4
  {
    f in m.own && m.own[f].space == r && m.own[f].level == l && m.own[f].prefix == Prefix(v, l)
  }

  ghost predicate HasTable(m: Vm, r: nat, v: nat, l: nat)
    requires l <= 4
  {
    exists f :: Serves(m, f, r, v, l)
  }

  /** The levels at which space r has no private table on the way to page v. */
  ghost function Missing(m: Vm, r: nat, v: nat): set<nat> {
    set l: nat | 1 <= l <= 3 && !HasTable(m, r, v, l)
  }

  /** All private tables of m are in m', at the same place. */
  ghost predicate Extends(m: Vm, m': Vm) {
    forall f :: f in m.own ==> f in m'.own && m'.own[f] == m.own[f]
  }

  function NewTables(m: Vm, m': Vm): set<nat> {
    m'.own.Keys - m.own.Keys
  }

  /** The only private table that m' may have on top of those of m is the one behind entry i of f. */
  ghost predicate OnlyChild(m: Vm, m': Vm, f: nat, i: nat) {
    Extends(m, m') && forall n :: n in NewTables(m, m') ==> n == At(m'.t, f, i).frame
  }

  lemma OnlyChildTwice(m0: Vm, m1: Vm, m2: Vm, f: nat, i: nat)
    requires Inv(m2) && OnlyChild(m1, m2, f, i) && (m1 == m0 || OnlyChild(m0, m1, f, i))
    requires f in m1.own && m1.own[f].level >= 1 && IsChild(m2, f, i, At(m2.t, f, i))
    requires m1 != m0 ==> IsChild(m1, f, i, At(m1.t, f, i))
    ensures OnlyChild(m0, m2, f, i)
  {
    hide Inv;
    if m1 != m0 {
      var a, b := At(m1.t, f, i).frame, At(m2.t, f, i).frame;
      assert m2.own[a] == m1.own[a] && m2.own[f] == m1.own[f];
      SlotUnique(m2, a, b);
      forall n | n in NewTables(m0, m2) ensures n == b {
        assert n in NewTables(m1, m2) || n in NewTables(m0, m1);
      }
    }
  }

  /** The private tables that m has on top of those of m0 are on the way to page v of space r. */
  ghost predicate OnPath(m0: Vm, m: Vm, r: nat, v: nat) {
    && Extends(m0, m)
    && forall n :: n in NewTables(m0, m) ==> 1 <= m.own[n].level <= 3 && Serves(m, n, r, v, m.own[n].level)
  }

  lemma OnPathNext(m0: Vm, m: Vm, m': Vm, r: nat, v: nat, l: nat, f: nat)
    requires 2 <= l <= 4 && OnPath(m0, m, r, v) && Serves(m, f, r, v, l)
    requires m' == m || (f in m'.own && m'.own[f] == m.own[f] && OnlyChild(m, m', f, Index(v, l)) &&
      IsChild(m', f, Index(v, l), At(m'.t, f, Index(v, l))))
    ensures OnPath(m0, m', r, v)
  {
    assert Prefix(v, l) * ENTRIES + Index(v, l) == Prefix(v, l - 1);
    hide Prefix, Index;
    forall n | n in NewTables(m0, m') ensures 1 <= m'.own[n].level <= 3 && Serves(m', n, r, v, m'.own[n].level) {
      if n in m.own {
        assert n in NewTables(m0, m) && m'.own[n] == m.own[n];
      } else {
        assert n in NewTables(m, m');
        assert m'.own[n] == Slot(r, l - 1, Prefix(v, l) * ENTRIES + Index(v, l), f);
      }
    }
  }

  /** An entry on the way to a page that leads to no private table: there is none at the next level. */
  lemma NoneBelow(m: Vm, r: nat, v: nat, l: nat, f: nat)
    requires Inv(m) && 2 <= l <= 4 && Serves(m, f, r, v, l)
    requires !(At(m.t, f, Index(v, l)).fl.present && At(m.t, f, Index(v, l)).fl.priv)
    ensures l - 1 in Missing(m, r, v)
  {
    var k := l - 1;
    forall g ensures !Serves(m, g, r, v, k) {
      if Serves(m, g, r, v, k) {
        TableIs(m, g);
        SlotUnique(m, m.own[g].parent, f);
      }
    }
  }

  /** With a private table at level 1 there is one at every level. */
  lemma NoneMissing(m: Vm, r: nat, v: nat, f: nat)
    requires Inv(m) && Serves(m, f, r, v, 1)
    ensures Missing(m, r, v) == {}
  {
    hide Inv;
    TableIs(m, f);
    var g := m.own[f].parent;
    assert Prefix(v, 2) == Prefix(v, 1) / ENTRIES && Prefix(v, 3) == Prefix(v, 2) / ENTRIES;
    assert Serves(m, g, r, v, 2);
    TableIs(m, g);
    assert Serves(m, m.own[g].parent, r, v, 3);
  }

  function Levels(m: Vm, tables: set<nat>): set<nat>
    requires tables <= m.own.Keys
  {
    set n | n in tables :: m.own[n].level
  }

  /** Tables at different levels are as many as the levels. */
  lemma {:induction false} LevelCount(m: Vm, tables: set<nat>)
    requires tables <= m.own.Keys
    requires forall a, b :: a in tables && b in tables && m.own[a].level == m.own[b].level ==> a == b
    ensures |Levels(m, tables)| == |tables|
  {
    if tables != {} {
      var n :| n in tables;
      LevelCount(m, tables - {n});
      assert Levels(m, tables) == Levels(m, tables - {n}) + {m.own[n].level};
    }
  }

  lemma NewWasMissing(m0: Vm, m: Vm, r: nat, v: nat, n: nat)
    requires Inv(m) && OnPath(m0, m, r, v) && n in NewTables(m0, m)
    ensures 1 <= m.own[n].level <= 3
    ensures m.own[n].level in Missing(m0, r, v) && m.own[n].level !in Missing(m, r, v)
  {
    hide Inv;
    var l := m.own[n].level;
    assert Serves(m, n, r, v, l);
    forall f ensures !Serves(m0, f, r, v, l) {
      if Serves(m0, f, r, v, l) { SlotUnique(m, f, n); }
    }
  }

  /** The new tables are at the levels at which there is one now and was none. */
  lemma NewAtLevels(m0: Vm, m: Vm, r: nat, v: nat)
    requires Inv(m) && OnPath(m0, m, r, v)
    ensures Levels(m, NewTables(m0, m)) == Missing(m0, r, v) - Missing(m, r, v)
  {
    hide Inv;
    var added := NewTables(m0, m);
    forall n | n in added
      ensures m.own[n].level in Missing(m0, r, v) && m.own[n].level !in Missing(m, r, v)
    {
      NewWasMissing(m0, m, r, v, n);
    }
    forall l | l in Missing(m0, r, v) && l !in Missing(m, r, v) ensures l in Levels(m, added) {
      var f :| Serves(m, f, r, v, l);
      assert !Serves(m0, f, r, v, l);
      assert f in added;
    }
  }

  lemma MissingShrinks(m0: Vm, m: Vm, r: nat, v: nat)
    requires Extends(m0, m)
    ensures Missing(m, r, v) <= Missing(m0, r, v)
  {
    forall l | l in Missing(m, r, v) ensures l in Missing(m0, r, v) {
      forall f ensures !Serves(m0, f, r, v, l) { assert !Serves(m, f, r, v, l); }
    }
  }

  lemma Fewer(a: set<nat>, b: set<nat>)
    requires a <= b
    ensures |a| <= |b|
  {
    assert b == a + (b - a);
  }

  lemma Removed(a: set<nat>, b: set<nat>)
    requires b <= a
    ensures |a - b| == |a| - |b|
  {
    assert a == (a - b) + b;
  }

  /** There is one new table for each of these levels. */
  lemma NewLevels(m0: Vm, m: Vm, r: nat, v: nat)
    requires Inv(m) && OnPath(m0, m, r, v)
    ensures |NewTables(m0, m)| == |Missing(m0, r, v)| - |Missing(m, r, v)|
  {
    hide Inv, Missing, Extends, HasTable;
    var added := NewTables(m0, m);
    NewAtLevels(m0, m, r, v);
    MissingShrinks(m0, m, r, v);
    forall a, b | a in added && b in added && m.own[a].level == m.own[b].level ensures a == b {
      assert Serves(m, a, r, v, m.own[a].level) && Serves(m, b, r, v, m.own[b].level);
      SlotUnique(m, a, b);
    }
    LevelCount(m, added);
    Fewer(Missing(m, r, v), Missing(m0, r, v));
  }

  /** The walk ends exactly when the free frames suffice for the missing tables; it takes one for each. */
  lemma WalkCost(m0: Vm, used0: set<nat>, free0: set<nat>, m: Vm, free: set<nat>, r: nat, v: nat, ok: bool)
    requires Inv(m) && OnPath(m0, m, r, v) && m0.own.Keys <= used0
    requires NewTables(m0, m) <= free0 && free == free0 - m.own.Keys && free0 !! used0
    requires if ok then Missing(m, r, v) == {} else Missing(m, r, v) != {} && free == {}
    ensures ok <==> |Missing(m0, r, v)| <= |free0|
    ensures |free| == |free0| - (|Missing(m0, r, v)| - |Missing(m, r, v)|)
  {
    hide Inv, Missing, OnPath;
    NewLevels(m0, m, r, v);
    Removed(free0, NewTables(m0, m));
    assert free == free0 - NewTables(m0, m);
    assert Missing(m, r, v) != {} ==> |Missing(m, r, v)| > 0;
  }
}
