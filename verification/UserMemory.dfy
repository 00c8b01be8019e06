/** The memory of user processes: the pages mapped for each, the frames behind them, and the copy
    loops that write through the page tables. */
module UserMemory {
  import opened Pte
  import opened PageTables
  import opened Translation
  import opened Teardown
  import opened TableCount
  import opened Vmm
  import Pmm

  /** The fields of a process that its memory depends on. cr3 is the frame of its root table, 0 once
      it has been cleaned up. */
  datatype Proc = Proc(cr3: nat, isUser: bool, pages: seq<nat>)

  datatype Place = Place(space: nat, page: nat)

  /** `home` says for which page each user frame was taken: it belongs to a space there is, and every
      mapped page is open to ring 3 and has a frame of its own. */
  ghost predicate HomeOk(m: Vm, home: map<nat, Place>) {
    && (forall f :: f in home ==> home[f].space in m.spaces)
    && (forall r, v :: r in m.spaces && v in m.spaces[r] ==> PageHomed(m, home, r, v))
  }

  ghost predicate PageHomed(m: Vm, home: map<nat, Place>, r: nat, v: nat)
    requires r in m.spaces && v in m.spaces[r]
  {
    var e := m.spaces[r][v];
    e.frame in home && home[e.frame] == Place(r, v) && e.fl.user
  }

  /** Every frame in use is a boot frame, a private table or a user page, and only one of them. */
  ghost predicate FramesOk(m: Vm, home: map<nat, Place>, boot: set<nat>, used: set<nat>) {
    && used == boot + m.own.Keys + home.Keys
    && boot !! m.own.Keys && boot !! home.Keys && m.own.Keys !! home.Keys
    && m.kern.Keys <= boot && 0 in boot
  }

  /** The frames of the pages mapped in space r. */
  ghost function FramesOf(home: map<nat, Place>, r: nat): set<nat> {
    set f | f in home && home[f].space == r
  }

  /** Every frame space r holds: its tables and the frames of its pages. */
  ghost function Acquired(m: Vm, home: map<nat, Place>, r: nat): set<nat> {
    FramesOf(home, r) + TablesOf(m, r)
  }

  ghost predicate ProcOk(m: Vm, home: map<nat, Place>, p: Proc) {
    if p.cr3 != 0 && p.isUser then
      && p.cr3 in m.spaces
      && NoDuplicates(p.pages)
      && (forall f :: f in p.pages <==> f in FramesOf(home, p.cr3))
    else p.pages == []
  }

  ghost predicate NoDuplicates(s: seq<nat>) {
    forall i, j :: 0 <= i < j < |s| ==> s[i] != s[j]
  }

  ghost predicate ProcsOk(m: Vm, home: map<nat, Place>, procs: map<nat, Proc>) {
    && (forall pid :: pid in procs ==> ProcOk(m, home, procs[pid]))
    && OwnSpaces(procs)
    && AllHeld(m, procs)
  }

  /** No two user processes share an address space. */
  ghost predicate OwnSpaces(procs: map<nat, Proc>) {
    forall p, q :: p in procs && q in procs && p != q && procs[p].isUser && procs[q].isUser && procs[p].cr3 != 0 ==>
      procs[p].cr3 != procs[q].cr3
  }

  ghost predicate AllHeld(m: Vm, procs: map<nat, Proc>) {
    forall r :: r in m.spaces ==> Held(procs, r)
  }

  /** An address space belongs to a process. */
  ghost predicate Held(procs: map<nat, Proc>, r: nat) {
    r != 0 && exists pid :: pid in procs && procs[pid].isUser && procs[pid].cr3 == r
  }

  /** Once every process has been cleaned up, exactly the frames in use before any process are in use. */
  lemma AllCleanedUp(m: Vm, home: map<nat, Place>, boot: set<nat>, used: set<nat>, procs: map<nat, Proc>)
    requires Inv(m) && HomeOk(m, home) && FramesOk(m, home, boot, used) && ProcsOk(m, home, procs)
    requires forall pid :: pid in procs && procs[pid].isUser ==> procs[pid].cr3 == 0
    ensures m.spaces == map[] && used == boot
  {
    forall f | f in m.own ensures m.own[f].space in m.spaces { assert TableOk(m, f); }
    assert forall r :: r in m.spaces ==> Held(procs, r);
    assert m.spaces.Keys == {} && m.own.Keys == {} && home.Keys == {};
  }

  ghost function TablesElsewhere(m: Vm, r: nat): set<nat> {
    set f | f in m.own && m.own[f].space != r
  }

  ghost function FramesElsewhere(home: map<nat, Place>, r: nat): set<nat> {
    set f | f in home && home[f].space != r
  }

  /** Apart from space r, the spaces, their private tables and their user frames are the same. */
  ghost predicate SameElsewhere(m: Vm, home: map<nat, Place>, m': Vm, home': map<nat, Place>, r: nat) {
    && TablesElsewhere(m', r) == TablesElsewhere(m, r)
    && FramesElsewhere(home', r) == FramesElsewhere(home, r)
    && m'.spaces - {r} == m.spaces - {r}
  }

  lemma SameAsItself(m: Vm, home: map<nat, Place>, r: nat)
    ensures SameElsewhere(m, home, m, home, r)
  {
  }

  lemma TwiceElsewhere(m0: Vm, home0: map<nat, Place>, m1: Vm, home1: map<nat, Place>, m2: Vm, home2: map<nat, Place>,
                       r: nat)
    requires SameElsewhere(m0, home0, m1, home1, r) && SameElsewhere(m1, home1, m2, home2, r)
    ensures SameElsewhere(m0, home0, m2, home2, r)
  {
  }

  lemma MappedElsewhere(r: nat, used: set<nat>, m: Vm, used': set<nat>, m': Vm, home: map<nat, Place>, v: nat,
                        leaf: Entry)
    requires Grew(r, used, m, used', m') && MapsOnly(m, m', r, v, leaf) && leaf.frame !in home
    ensures SameElsewhere(m, home, m', home[leaf.frame := Place(r, v)], r)
  {
  }

  lemma FailedElsewhere(r: nat, used: set<nat>, m: Vm, used': set<nat>, m': Vm, home: map<nat, Place>)
    requires Grew(r, used, m, used', m') && m'.spaces == m.spaces
    ensures SameElsewhere(m, home, m', home, r)
  {
  }

  // ----- one mapping -----

  lemma HomeGrows(m: Vm, m': Vm, home: map<nat, Place>, r: nat, v: nat, leaf: Entry)
    requires HomeOk(m, home) && MapsOnly(m, m', r, v, leaf) && leaf.frame !in home && leaf.fl.user
    ensures HomeOk(m', home[leaf.frame := Place(r, v)])
  {
    var home' := home[leaf.frame := Place(r, v)];
    forall s, w | s in m'.spaces && w in m'.spaces[s]
      ensures PageHomed(m', home', s, w)
    {
      if s != r || w != v {
        assert PageHomed(m, home, s, w);
      }
    }
  }

  lemma HomeSame(m: Vm, m': Vm, home: map<nat, Place>)
    requires HomeOk(m, home) && m'.spaces == m.spaces
    ensures HomeOk(m', home)
  {
  }

  lemma FramesGrow(m: Vm, m': Vm, home: map<nat, Place>, boot: set<nat>, used: set<nat>, used': set<nat>, f: nat,
                   place: Place, r: nat)
    requires FramesOk(m, home, boot, used) && f !in used
    requires Grew(r, used + {f}, m, used', m')
    ensures FramesOk(m', home[f := place], boot, used')
    ensures FramesOk(m', home, boot, used' - {f})
  {
    var home' := home[f := place];
    assert home'.Keys == home.Keys + {f};
    forall x | x in m'.own ensures x in m.own || (x !in used && x != f) {
    }
  }

  lemma ProcGrows(m: Vm, m': Vm, home: map<nat, Place>, p: Proc, mine: bool, r: nat, f: nat, v: nat)
    requires ProcOk(m, home, p) && f !in home && m'.spaces.Keys == m.spaces.Keys
    requires if mine then p.cr3 == r != 0 && p.isUser else p.isUser ==> p.cr3 != r
    ensures ProcOk(m', home[f := Place(r, v)], if mine then p.(pages := p.pages + [f]) else p)
  {
    var home' := home[f := Place(r, v)];
    if p.cr3 != 0 && p.isUser {
      assert f !in p.pages;
      forall x ensures (x in p.pages || (mine && x == f)) <==> x in FramesOf(home', p.cr3) {
        assert x in p.pages <==> x in FramesOf(home, p.cr3);
      }
    }
  }

  lemma ProcsGrow(m: Vm, m': Vm, home: map<nat, Place>, procs: map<nat, Proc>, pid: nat, f: nat, v: nat)
    requires ProcsOk(m, home, procs) && pid in procs && procs[pid].cr3 != 0 && procs[pid].isUser && f !in home
    requires m'.spaces.Keys == m.spaces.Keys
    ensures ProcsOk(m', home[f := Place(procs[pid].cr3, v)], procs[pid := procs[pid].(pages := procs[pid].pages + [f])])
  {
    hide ProcOk, Held;
    var home' := home[f := Place(procs[pid].cr3, v)];
    var procs' := procs[pid := procs[pid].(pages := procs[pid].pages + [f])];
    forall q | q in procs' ensures ProcOk(m', home', procs'[q]) {
      ProcGrows(m, m', home, procs[q], q == pid, procs[pid].cr3, f, v);
    }
    HeldStill(m, procs, procs', pid, procs[pid].cr3);
    HeldBy(procs', pid);
  }

  lemma HeldBy(procs: map<nat, Proc>, pid: nat)
    requires pid in procs && procs[pid].isUser && procs[pid].cr3 != 0
    ensures Held(procs, procs[pid].cr3)
  {
  }

  // ----- a new process and the end of one -----

  lemma HomeStarts(m: Vm, m': Vm, home: map<nat, Place>, r: nat)
    requires HomeOk(m, home) && r !in m.spaces && m'.spaces == m.spaces[r := map[]]
    ensures HomeOk(m', home) && FramesOf(home, r) == {}
  {
    forall s, v | s in m'.spaces && v in m'.spaces[s] ensures PageHomed(m', home, s, v) {
      assert PageHomed(m, home, s, v);
    }
  }

  lemma FramesStart(m: Vm, m': Vm, home: map<nat, Place>, boot: set<nat>, used: set<nat>, r: nat)
    requires FramesOk(m, home, boot, used) && r !in used
    requires m'.own == m.own[r := Slot(r, 4, 0, r)] && m'.kern == m.kern
    ensures FramesOk(m', home, boot, used + {r})
  {
    assert m'.own.Keys == m.own.Keys + {r};
  }

  lemma ProcsStart(m: Vm, m': Vm, home: map<nat, Place>, procs: map<nat, Proc>, pid: nat, r: nat)
    requires ProcsOk(m, home, procs) && r !in m.spaces && m'.spaces == m.spaces[r := map[]] && r != 0
    requires FramesOf(home, r) == {} && (pid in procs ==> procs[pid].cr3 == 0)
    ensures ProcsOk(m', home, procs[pid := Proc(r, true, [])])
  {
    hide ProcOk, Held, FramesOf;
    var procs' := procs[pid := Proc(r, true, [])];
    forall q | q in procs'
      ensures ProcOk(m', home, procs'[q]) && (q != pid && procs'[q].isUser ==> procs'[q].cr3 != r)
    {
      if q == pid { ProcBegins(m', home, r); } else { ProcStays(m, m', home, procs[q], r); }
    }
    ZeroIsNoSpace(m, procs);
    HeldStill(m, procs, procs', pid, 0);
    HeldBy(procs', pid);
  }

  lemma ProcBegins(m: Vm, home: map<nat, Place>, r: nat)
    requires r in m.spaces && FramesOf(home, r) == {}
    ensures ProcOk(m, home, Proc(r, true, []))
  {
  }

  lemma ProcStays(m: Vm, m': Vm, home: map<nat, Place>, p: Proc, r: nat)
    requires ProcOk(m, home, p) && r !in m.spaces && m'.spaces == m.spaces[r := map[]] && r != 0
    ensures ProcOk(m', home, p) && (p.isUser ==> p.cr3 != r)
  {
    hide FramesOf;
  }

  lemma ZeroIsNoSpace(m: Vm, procs: map<nat, Proc>)
    requires AllHeld(m, procs)
    ensures 0 !in m.spaces
  {
  }

  lemma AllStart(m: Vm, m': Vm, home: map<nat, Place>, boot: set<nat>, used: set<nat>, procs: map<nat, Proc>, pid: nat,
                 r: nat, max: nat)
    requires HomeOk(m, home) && FramesOk(m, home, boot, used) && ProcsOk(m, home, procs) && PagesBounded(procs, max)
    requires r !in used && r !in m.spaces && r != 0 && m'.spaces == m.spaces[r := map[]]
    requires (pid in procs ==> procs[pid].cr3 == 0)
    requires m'.own == m.own[r := Slot(r, 4, 0, r)] && m'.kern == m.kern
    ensures HomeOk(m', home) && FramesOk(m', home, boot, used + {r})
    ensures ProcsOk(m', home, procs[pid := Proc(r, true, [])]) && PagesBounded(procs[pid := Proc(r, true, [])], max)
  {
    hide HomeOk, FramesOk, ProcsOk, FramesOf;
    HomeStarts(m, m', home, r);
    FramesStart(m, m', home, boot, used, r);
    ProcsStart(m, m', home, procs, pid, r);
  }

  /** The homes left when space r is gone. */
  function Without(home: map<nat, Place>, r: nat): map<nat, Place> {
    map f | f in home && home[f].space != r :: home[f]
  }

  lemma HomeShrinks(m: Vm, home: map<nat, Place>, r: nat, t: Tables)
    requires HomeOk(m, home)
    ensures HomeOk(RemoveSpace(m, r, t), Without(home, r))
  {
    var m' := RemoveSpace(m, r, t);
    forall s, v | s in m'.spaces && v in m'.spaces[s] ensures PageHomed(m', Without(home, r), s, v) {
      assert PageHomed(m, home, s, v);
    }
  }

  lemma FramesShrink(m: Vm, home: map<nat, Place>, boot: set<nat>, used: set<nat>, r: nat, t: Tables)
    requires FramesOk(m, home, boot, used)
    ensures FramesOk(RemoveSpace(m, r, t), Without(home, r), boot, used - FramesOf(home, r) - TablesOf(m, r))
  {
    var m' := RemoveSpace(m, r, t);
    assert m'.own.Keys == m.own.Keys - TablesOf(m, r);
    assert Without(home, r).Keys == home.Keys - FramesOf(home, r);
  }

  lemma ProcsShrink(m: Vm, home: map<nat, Place>, procs: map<nat, Proc>, pid: nat, r: nat, t: Tables)
    requires ProcsOk(m, home, procs) && pid in procs && procs[pid].isUser && procs[pid].cr3 == r != 0
    ensures ProcsOk(RemoveSpace(m, r, t), Without(home, r), procs[pid := Proc(0, true, [])])
  {
    forall q | q in procs && q != pid ensures ProcOk(RemoveSpace(m, r, t), Without(home, r), procs[q]) {
      var p := procs[q];
      assert ProcOk(m, home, p);
      if p.cr3 != 0 && p.isUser {
        assert p.cr3 != r;
        assert FramesOf(Without(home, r), p.cr3) == FramesOf(home, p.cr3);
      }
    }
    var procs' := procs[pid := Proc(0, true, [])];
    HeldStill(m, procs, procs', pid, r);
  }

  lemma ProcsForget(m: Vm, home: map<nat, Place>, procs: map<nat, Proc>, pid: nat)
    requires ProcsOk(m, home, procs) && pid in procs && !(procs[pid].isUser && procs[pid].cr3 != 0)
    ensures ProcsOk(m, home, procs[pid := Proc(0, procs[pid].isUser, [])])
  {
    hide FramesOf;
    var procs' := procs[pid := Proc(0, procs[pid].isUser, [])];
    HeldStill(m, procs, procs', pid, 0);
  }

  /** A space that a process holds is still held after another process changed. */
  lemma HeldStill(m: Vm, procs: map<nat, Proc>, procs': map<nat, Proc>, pid: nat, r: nat)
    requires forall s :: s in m.spaces ==> Held(procs, s)
    requires forall q :: q in procs && q != pid ==> q in procs' && procs'[q] == procs[q]
    requires pid in procs && procs[pid].isUser ==> procs[pid].cr3 == r
    ensures forall s :: s in m.spaces && s != r ==> Held(procs', s)
  {
    forall s | s in m.spaces && s != r ensures Held(procs', s) {
      assert Held(procs, s);
      var q :| q in procs && procs[q].isUser && procs[q].cr3 == s;
      assert q in procs' && procs'[q].isUser && procs'[q].cr3 == s;
    }
  }

  // ----- bytes of physical memory -----

  function Peek(ram: map<nat, bv8>, a: nat): bv8 {
    if a in ram then ram[a] else 0
  }

  /** memcpy to physical address a. */
  function Poke(ram: map<nat, bv8>, a: nat, bytes: seq<bv8>): (ram': map<nat, bv8>)
    ensures forall x: nat {:trigger Peek(ram', x)} ::
      Peek(ram', x) == if a <= x < a + |bytes| then bytes[x - a] else Peek(ram, x)
    decreases |bytes|
  {
    if bytes == [] then ram else Poke(ram[a := bytes[0]], a + 1, bytes[1..])
  }

  function ZeroBytes(n: nat): (s: seq<bv8>)
    ensures |s| == n && forall i :: 0 <= i < n ==> s[i] == 0
  {
    if n == 0 then [] else ZeroBytes(n - 1) + [0]
  }

  /** Process pid gained page v, on the zeroed frame f, and nothing else changed in any process. */
  ghost predicate Gained(procs: map<nat, Proc>, procs': map<nat, Proc>, m: Vm, m': Vm, ram: map<nat, bv8>,
                         ram': map<nat, bv8>,
                         pid: nat, v: nat, f: nat, flags: Flags)
  {
    && pid in procs
    && procs' == procs[pid := procs[pid].(pages := procs[pid].pages + [f])]
    && MapsOnly(m, m', procs[pid].cr3, v, Entry(f, LeafFlags(WithUser(flags))))
    && ram' == Poke(ram, f * PAGE_SIZE, ZeroBytes(PAGE_SIZE))
  }

  function LastPage(procs: map<nat, Proc>, pid: nat): nat {
    if pid in procs && procs[pid].pages != [] then procs[pid].pages[|procs[pid].pages| - 1] else 0
  }

  lemma FrameIsFresh(m: Vm, home: map<nat, Place>, boot: set<nat>, used: set<nat>, f: nat)
    requires FramesOk(m, home, boot, used) && f !in used
    ensures f !in home && f !in m.own && f !in m.kern && f != 0
  {
  }

  lemma PageGrows(m: Vm, m': Vm, home: map<nat, Place>, procs: map<nat, Proc>, pid: nat, v: nat, leaf: Entry)
    requires HomeOk(m, home) && ProcsOk(m, home, procs) && pid in procs && procs[pid].cr3 != 0 && procs[pid].isUser
    requires MapsOnly(m, m', procs[pid].cr3, v, leaf) && leaf.frame !in home && leaf.fl.user
    ensures HomeOk(m', home[leaf.frame := Place(procs[pid].cr3, v)])
    ensures ProcsOk(m', home[leaf.frame := Place(procs[pid].cr3, v)],
                    procs[pid := procs[pid].(pages := procs[pid].pages + [leaf.frame])])
  {
    HomeGrows(m, m', home, procs[pid].cr3, v, leaf);
    ProcsGrow(m, m', home, procs, pid, leaf.frame, v);
  }

  lemma AllGrow(m: Vm, m': Vm, home: map<nat, Place>, boot: set<nat>, used: set<nat>, used': set<nat>, procs: map<nat,
                Proc>,
                pid: nat, v: nat, leaf: Entry, max: nat)
    requires HomeOk(m, home) && FramesOk(m, home, boot, used) && ProcsOk(m, home, procs) && PagesBounded(procs, max)
    requires pid in procs && procs[pid].cr3 != 0 && procs[pid].isUser && |procs[pid].pages| < max
    requires MapsOnly(m, m', procs[pid].cr3, v, leaf) && leaf.frame !in home && leaf.fl.user && leaf.frame !in used
    requires Grew(procs[pid].cr3, used + {leaf.frame}, m, used', m')
    ensures var home' := home[leaf.frame := Place(procs[pid].cr3, v)];
      var procs' := procs[pid := procs[pid].(pages := procs[pid].pages + [leaf.frame])];
      && HomeOk(m', home') && FramesOk(m', home', boot, used') && ProcsOk(m', home', procs')
      && PagesBounded(procs', max)
      && SameElsewhere(m, home, m', home', procs[pid].cr3)
  {
    hide HomeOk, FramesOk, ProcsOk, FramesOf, Grew, SameElsewhere, MapsOnly;
    MappedElsewhere(procs[pid].cr3, used + {leaf.frame}, m, used', m', home, v, leaf);
    FramesGrow(m, m', home, boot, used, used', leaf.frame, Place(procs[pid].cr3, v), procs[pid].cr3);
    PageGrows(m, m', home, procs, pid, v, leaf);
  }

  lemma NothingGrows(m: Vm, m': Vm, home: map<nat, Place>, procs: map<nat, Proc>)
    requires HomeOk(m, home) && ProcsOk(m, home, procs) && m'.spaces == m.spaces
    ensures HomeOk(m', home) && ProcsOk(m', home, procs)
  {
    HomeSame(m, m', home);
  }

  lemma NewFrameApart(r: nat, m: Vm, m': Vm, used: set<nat>, used': set<nat>, f: nat)
    requires Grew(r, used + {f}, m, used', m') && f !in m.own && f !in m.kern
    ensures f !in m'.own && f !in m'.kern
  {
  }

  lemma ProcFacts(m: Vm, home: map<nat, Place>, procs: map<nat, Proc>, pid: nat, virt: nat)
    requires Inv(m) && HomeOk(m, home) && ProcsOk(m, home, procs)
    requires pid in procs && procs[pid].isUser && procs[pid].cr3 != 0
    ensures procs[pid].cr3 in m.spaces
    ensures UserOk(m.t, procs[pid].cr3, PageOf(virt - virt % PAGE_SIZE)) <==> PageOf(virt) in m.spaces[procs[pid].cr3]
  {
    var r := procs[pid].cr3;
    assert ProcOk(m, home, procs[pid]);
    forall v | v in m.spaces[r] ensures m.spaces[r][v].fl.user {
      assert PageHomed(m, home, r, v);
    }
    SamePage(virt - virt % PAGE_SIZE, virt);
    UserReach(m, r, PageOf(virt));
  }

  lemma ProcReach(m: Vm, home: map<nat, Place>, procs: map<nat, Proc>, pid: nat, virt: nat)
    requires Inv(m) && HomeOk(m, home) && ProcsOk(m, home, procs)
    requires pid in procs && procs[pid].isUser && procs[pid].cr3 != 0
    ensures procs[pid].cr3 in m.spaces
    ensures UserOk(m.t, procs[pid].cr3, PageOf(virt)) <==> PageOf(virt) in m.spaces[procs[pid].cr3]
  {
    hide Inv, HomeOk, ProcsOk, UserOk, PageOf;
    ProcFacts(m, home, procs, pid, virt);
    SamePage(virt - virt % PAGE_SIZE, virt);
  }

  /** The frames of the first n pages of a space. */
  ghost function FirstFrames(pages: map<nat, Entry>, n: nat): set<nat>
    requires forall v: nat :: v < n ==> v in pages
  {
    set v: nat | v < n :: pages[v].frame
  }

  lemma {:induction false} FramesDiffer(m: Vm, home: map<nat, Place>, r: nat, n: nat)
    requires HomeOk(m, home) && r in m.spaces && forall v: nat :: v < n ==> v in m.spaces[r]
    ensures |FirstFrames(m.spaces[r], n)| == n
  {
    if n > 0 {
      FramesDiffer(m, home, r, n - 1);
      var f := m.spaces[r][n - 1].frame;
      assert PageHomed(m, home, r, n - 1);
      assert f !in FirstFrames(m.spaces[r], n - 1) by {
        forall v: nat | v < n - 1 ensures m.spaces[r][v].frame != f { assert PageHomed(m, home, r, v); }
      }
      assert FirstFrames(m.spaces[r], n) == FirstFrames(m.spaces[r], n - 1) + {f};
    }
  }

  lemma {:induction false} AtMostLength(s: seq<nat>)
    ensures |SetOf(s)| <= |s|
  {
    if s != [] {
      var n := |s| - 1;
      AtMostLength(s[..n]);
      assert SetOf(s) == SetOf(s[..n]) + {s[n]};
    }
  }

  /** A process with fewer pages than there are page numbers has a page that is closed to ring 3. */
  lemma PageClosed(m: Vm, home: map<nat, Place>, procs: map<nat, Proc>, pid: nat)
    requires Inv(m) && HomeOk(m, home) && ProcsOk(m, home, procs)
    requires pid in procs && procs[pid].isUser && procs[pid].cr3 != 0 && |procs[pid].pages| < PAGE_NUMBERS
    ensures SomeClosed(m.t, procs[pid].cr3)
  {
    hide Inv, UserOk, FirstFrames, SetOf;
    var r, n := procs[pid].cr3, |procs[pid].pages| + 1;
    assert ProcOk(m, home, procs[pid]);
    if forall v: nat :: v < n ==> v in m.spaces[r] {
      FramesDiffer(m, home, r, n);
      FirstAreMine(m, home, procs[pid], n);
      Fewer(FirstFrames(m.spaces[r], n), SetOf(procs[pid].pages));
      AtMostLength(procs[pid].pages);
      assert false;
    }
    var v: nat :| v < n && v !in m.spaces[r];
    UserReach(m, r, v);
  }

  lemma FirstAreMine(m: Vm, home: map<nat, Place>, p: Proc, n: nat)
    requires HomeOk(m, home) && ProcOk(m, home, p) && p.cr3 != 0 && p.isUser
    requires forall v: nat :: v < n ==> v in m.spaces[p.cr3]
    ensures FirstFrames(m.spaces[p.cr3], n) <= SetOf(p.pages)
  {
    forall v: nat | v < n ensures m.spaces[p.cr3][v].frame in p.pages {
      assert PageHomed(m, home, p.cr3, v);
      assert m.spaces[p.cr3][v].frame in FramesOf(home, p.cr3);
    }
  }

  lemma Fewer(a: set<nat>, b: set<nat>)
    requires a <= b
    ensures |a| <= |b|
  {
    assert b == a + (b - a);
  }

  lemma GainedPage(procs: map<nat, Proc>, procs': map<nat, Proc>, m: Vm, m': Vm, ram: map<nat, bv8>, ram': map<nat,
                   bv8>,
                   pid: nat, v: nat, f: nat, flags: Flags)
    requires Gained(procs, procs', m, m', ram, ram', pid, v, f, flags)
    ensures pid in procs' && procs'[pid].cr3 in m'.spaces && v in m'.spaces[procs'[pid].cr3]
    ensures procs'[pid].cr3 == procs[pid].cr3 && procs'[pid].isUser == procs[pid].isUser
  {
  }

  lemma FewerPages(procs: map<nat, Proc>, pid: nat, max: nat)
    requires PagesBounded(procs, max)
    ensures PagesBounded(procs[pid := Proc(0, true, [])], max)
  {
  }

  lemma AllShrink(m: Vm, home: map<nat, Place>, boot: set<nat>, used: set<nat>, procs: map<nat, Proc>, pid: nat, r: nat,
                  t: Tables)
    requires HomeOk(m, home) && FramesOk(m, home, boot, used) && ProcsOk(m, home, procs)
    requires pid in procs && procs[pid].isUser && procs[pid].cr3 == r != 0
    ensures var m', home' := RemoveSpace(m, r, t), Without(home, r);
      && m'.spaces == m.spaces - {r} && m'.own == RemoveSpace(m, r, m.t).own && HomeOk(m', home')
      && FramesOk(m', home', boot, used - FramesOf(home, r) - TablesOf(m, r))
      && ProcsOk(m', home', procs[pid := Proc(0, true, [])])
    ensures used - FramesOf(home, r) - TablesOf(m, r) == used - (FramesOf(home, r) + TablesOf(m, r))
  {
    HomeShrinks(m, home, r, t);
    FramesShrink(m, home, boot, used, r, t);
    ProcsShrink(m, home, procs, pid, r, t);
  }

  // ----- copying through the page tables -----

  /** Addresses this far apart walk through the same tables. */
  const SPAN: nat := PAGE_NUMBERS * PAGE_SIZE

  ghost predicate InRange(pages: map<nat, Entry>, virt: nat, n: nat) {
    forall a: nat :: virt <= a < virt + n ==> PageOf(a) in pages
  }

  /** No byte of [virt, virt + n) is at physical address x. */
  ghost predicate Misses(t: Tables, r: nat, virt: nat, n: nat, x: nat) {
    forall a: nat :: virt <= a < virt + n ==> Physical(t, r, a) != x
  }

  /** Memory is as it was, but for the bytes of [virt, virt + n). */
  ghost predicate Confined(t: Tables, r: nat, ram: map<nat, bv8>, ram': map<nat, bv8>, virt: nat, n: nat) {
    forall x: nat :: Misses(t, r, virt, n, x) ==> Peek(ram', x) == Peek(ram, x)
  }

  /** The first n bytes of data are readable at virt, and memory elsewhere is as it was. */
  ghost predicate Copied(t: Tables, r: nat, ram: map<nat, bv8>, ram': map<nat, bv8>, virt: nat, data: seq<bv8>, n: nat)
    requires n <= |data|
  {
    && (forall a: nat :: virt <= a < virt + n ==> Peek(ram', Physical(t, r, a)) == data[a - virt])
    && Confined(t, r, ram, ram', virt, n)
  }

  /** An address at which a copy to [virt, virt + n) begins a page. */
  ghost predicate Begins(virt: nat, n: nat, a: nat) {
    virt <= a < virt + n && (a == virt || a % PAGE_SIZE == 0)
  }

  /** A copy to [virt, virt + n) got as far as it can: to its end, or to the first page without a
      physical address. */
  ghost predicate Stops(t: Tables, r: nat, virt: nat, n: nat, done: nat) {
    && done <= n
    && (forall a: nat :: Begins(virt, done, a) ==> Physical(t, r, a) != 0)
    && (done < n ==> Begins(virt, n, virt + done) && Physical(t, r, virt + done) == 0)
  }

  /** A copy that got to a certain byte. */
  ghost predicate Progress(t: Tables, r: nat, ram: map<nat, bv8>, ram': map<nat, bv8>, virt: nat, n: nat, done: nat) {
    && done <= n && (done == n || Begins(virt, n, virt + done))
    && (forall a: nat :: Begins(virt, done, a) ==> Physical(t, r, a) != 0)
    && Confined(t, r, ram, ram', virt, done)
  }

  lemma CopiedNothing(t: Tables, r: nat, ram: map<nat, bv8>, virt: nat, data: seq<bv8>)
    ensures Copied(t, r, ram, ram, virt, data, 0) && Progress(t, r, ram, ram, virt, |data|, 0)
  {
  }

  /** The bytes of a page that is mapped are next to each other. */
  lemma RunOfBytes(t: Tables, r: nat, a0: nat, a: nat)
    requires Physical(t, r, a0) != 0 && a0 <= a < a0 + (PAGE_SIZE - a0 % PAGE_SIZE)
    ensures Physical(t, r, a) == Physical(t, r, a0) + (a - a0)
  {
    hide Leaf, PageOf;
    SamePage(a0 - a0 % PAGE_SIZE, a0);
    SamePage(a0 - a0 % PAGE_SIZE, a);
    OffsetInPage(a0, a);
  }

  lemma OffsetInPage(a0: nat, a: nat)
    requires a0 <= a < a0 + (PAGE_SIZE - a0 % PAGE_SIZE)
    ensures a % PAGE_SIZE == a0 % PAGE_SIZE + (a - a0)
  {
  }

  lemma ProgressStops(t: Tables, r: nat, ram: map<nat, bv8>, ram': map<nat, bv8>, virt: nat, n: nat)
    requires Progress(t, r, ram, ram', virt, n, n)
    ensures Stops(t, r, virt, n, n) && Confined(t, r, ram, ram', virt, n)
  {
  }

  /** How many bytes are left of a page, and of the range. */
  function Chunk(a: nat, left: nat): (n: nat)
    ensures n <= left && n <= PAGE_SIZE - a % PAGE_SIZE && (left > 0 ==> n > 0)
    ensures n < left ==> (a + n) % PAGE_SIZE == 0
  {
    var room := PAGE_SIZE - a % PAGE_SIZE;
    assert (a + room) % PAGE_SIZE == 0;
    if left < room then left else room
  }

  lemma NoPageBegins(a0: nat, n: nat, a: nat)
    requires n <= PAGE_SIZE - a0 % PAGE_SIZE && a0 < a < a0 + n
    ensures a % PAGE_SIZE != 0
  {
    OffsetInPage(a0, a);
  }

  /** Writing up to the end of a page takes a copy further, whatever the page tables map there. */
  lemma ProgressMore(t: Tables, r: nat, ram: map<nat, bv8>, ram': map<nat, bv8>, virt: nat, data: seq<bv8>, done: nat)
    requires done < |data| && Progress(t, r, ram, ram', virt, |data|, done) && Physical(t, r, virt + done) != 0
    ensures var n := Chunk(virt + done, |data| - done);
      Progress(t, r, ram, Poke(ram', Physical(t, r, virt + done), data[done..done + n]), virt, |data|, done + n)
  {
    hide Physical;
    var a0, n := virt + done, Chunk(virt + done, |data| - done);
    var p0 := Physical(t, r, a0);
    var ram'' := Poke(ram', p0, data[done..done + n]);
    var end := done + n;
    forall x: nat | Misses(t, r, virt, end, x) ensures Peek(ram'', x) == Peek(ram, x) {
      assert Misses(t, r, virt, done, x);
      if p0 <= x < p0 + n { RunOfBytes(t, r, a0, a0 + (x - p0)); }
    }
    forall a: nat | Begins(virt, end, a) ensures Physical(t, r, a) != 0 {
      if a > a0 { NoPageBegins(a0, n, a); } else if a < a0 { assert Begins(virt, done, a); }
    }
  }

  /** A byte of a process's own page lies at the same offset of the frame behind the page. */
  lemma MappedByte(m: Vm, home: map<nat, Place>, procs: map<nat, Proc>, pid: nat, a: nat)
    requires Inv(m) && HomeOk(m, home) && ProcsOk(m, home, procs)
    requires pid in procs && procs[pid].isUser && procs[pid].cr3 != 0
    requires procs[pid].cr3 in m.spaces && PageOf(a) in m.spaces[procs[pid].cr3]
    ensures Physical(m.t, procs[pid].cr3, a) == m.spaces[procs[pid].cr3][PageOf(a)].frame * PAGE_SIZE + a % PAGE_SIZE
  {
    SpaceIsOverlay(m, procs[pid].cr3, PageOf(a));
  }

  /** Two bytes of a process's own pages never share a physical address. */
  lemma BytesApart(m: Vm, home: map<nat, Place>, procs: map<nat, Proc>, pid: nat, a: nat, b: nat)
    requires Inv(m) && HomeOk(m, home) && ProcsOk(m, home, procs)
    requires pid in procs && procs[pid].isUser && procs[pid].cr3 != 0 && procs[pid].cr3 in m.spaces
    requires PageOf(a) in m.spaces[procs[pid].cr3] && PageOf(b) in m.spaces[procs[pid].cr3]
    requires a < b + SPAN && b < a + SPAN
    requires Physical(m.t, procs[pid].cr3, a) == Physical(m.t, procs[pid].cr3, b)
    ensures a == b
  {
    hide Inv, ProcsOk, Physical;
    var r := procs[pid].cr3;
    MappedByte(m, home, procs, pid, a);
    MappedByte(m, home, procs, pid, b);
    assert PageHomed(m, home, r, PageOf(a)) && PageHomed(m, home, r, PageOf(b));
    SameAddress(m.spaces[r][PageOf(a)].frame, m.spaces[r][PageOf(b)].frame, a, b);
    if a <= b { SameNumber(a, b); } else { SameNumber(b, a); }
  }

  lemma SameAddress(f: nat, g: nat, a: nat, b: nat)
    requires f * PAGE_SIZE + a % PAGE_SIZE == g * PAGE_SIZE + b % PAGE_SIZE
    ensures f == g && a % PAGE_SIZE == b % PAGE_SIZE
  {
    assert (f - g) * PAGE_SIZE == b % PAGE_SIZE - a % PAGE_SIZE;
  }

  lemma SameNumber(a: nat, b: nat)
    requires a <= b < a + SPAN && a % PAGE_SIZE == b % PAGE_SIZE && PageOf(a) == PageOf(b)
    ensures a == b
  {
    var p, q := a / PAGE_SIZE, b / PAGE_SIZE;
    assert b - a == (q - p) * PAGE_SIZE;
    assert p <= q < p + PAGE_NUMBERS;
    var i, j := p / PAGE_NUMBERS, q / PAGE_NUMBERS;
    assert q - p == (j - i) * PAGE_NUMBERS;
  }

  lemma FrameNonzero(m: Vm, home: map<nat, Place>, boot: set<nat>, used: set<nat>, r: nat, v: nat)
    requires HomeOk(m, home) && FramesOk(m, home, boot, used) && r in m.spaces && v in m.spaces[r]
    ensures m.spaces[r][v].frame != 0
  {
    assert PageHomed(m, home, r, v);
  }

  /** Copying up to the end of a page extends what has been copied. */
  lemma CopiedMore(m: Vm, home: map<nat, Place>, procs: map<nat, Proc>, pid: nat,
                   ram: map<nat, bv8>, ram': map<nat, bv8>, virt: nat, data: seq<bv8>, done: nat, n: nat)
    requires Inv(m) && HomeOk(m, home) && ProcsOk(m, home, procs)
    requires pid in procs && procs[pid].isUser && procs[pid].cr3 != 0 && procs[pid].cr3 in m.spaces
    requires |data| <= SPAN && done + n <= |data| && InRange(m.spaces[procs[pid].cr3], virt, done + n)
    requires n <= PAGE_SIZE - (virt + done) % PAGE_SIZE && 0 < n && Physical(m.t, procs[pid].cr3, virt + done) != 0
    requires Copied(m.t, procs[pid].cr3, ram, ram', virt, data, done)
    ensures Copied(m.t, procs[pid].cr3, ram,
                   Poke(ram', Physical(m.t, procs[pid].cr3, virt + done), data[done..done + n]), virt, data, done + n)
  {
    hide Inv, HomeOk, ProcsOk, Physical;
    var r, a0 := procs[pid].cr3, virt + done;
    var p0 := Physical(m.t, r, a0);
    var ram'' := Poke(ram', p0, data[done..done + n]);
    forall a: nat | a0 <= a < a0 + n ensures Physical(m.t, r, a) == p0 + (a - a0) {
      RunOfBytes(m.t, r, a0, a);
    }
    forall a: nat | virt <= a < virt + done + n ensures Peek(ram'', Physical(m.t, r, a)) == data[a - virt] {
      var x := Physical(m.t, r, a);
      if a < a0 && p0 <= x < p0 + n {
        BytesApart(m, home, procs, pid, a, a0 + (x - p0));
      }
    }
    var end := done + n;
    forall x: nat | p0 <= x < p0 + n ensures !Misses(m.t, r, virt, end, x) {
      assert Physical(m.t, r, a0 + (x - p0)) == x;
    }
    forall x: nat | Misses(m.t, r, virt, end, x) ensures Peek(ram'', x) == Peek(ram, x) {
      assert Misses(m.t, r, virt, done, x);
    }
  }

  /** The bytes before mid are not among those from mid on. */
  lemma HeadMissesTail(m: Vm, home: map<nat, Place>, procs: map<nat, Proc>, pid: nat, virt: nat, mid: nat, tail: nat,
                       a: nat)
    requires Inv(m) && HomeOk(m, home) && ProcsOk(m, home, procs)
    requires pid in procs && procs[pid].isUser && procs[pid].cr3 != 0 && procs[pid].cr3 in m.spaces
    requires virt <= a < mid && mid + tail - virt <= SPAN && InRange(m.spaces[procs[pid].cr3], virt, mid + tail - virt)
    ensures Misses(m.t, procs[pid].cr3, mid, tail, Physical(m.t, procs[pid].cr3, a))
  {
    hide Inv, HomeOk, ProcsOk, Physical;
    var r := procs[pid].cr3;
    forall b: nat | mid <= b < mid + tail ensures Physical(m.t, r, b) != Physical(m.t, r, a) {
      if Physical(m.t, r, b) == Physical(m.t, r, a) {
        BytesApart(m, home, procs, pid, a, b);
      }
    }
  }

  /** Writing data and then zeroing the rest leaves data followed by zeros. */
  lemma DataThenZeros(m: Vm, home: map<nat, Place>, procs: map<nat, Proc>, pid: nat,
                      ram: map<nat, bv8>, ram1: map<nat, bv8>, ram2: map<nat, bv8>, virt: nat, data: seq<bv8>,
                      memory: nat)
    requires Inv(m) && HomeOk(m, home) && ProcsOk(m, home, procs)
    requires pid in procs && procs[pid].isUser && procs[pid].cr3 != 0 && procs[pid].cr3 in m.spaces
    requires |data| <= memory <= SPAN && InRange(m.spaces[procs[pid].cr3], virt, memory)
    requires Copied(m.t, procs[pid].cr3, ram, ram1, virt, data, |data|)
    requires Copied(m.t, procs[pid].cr3, ram1, ram2, virt + |data|, ZeroBytes(memory - |data|), memory - |data|)
    ensures Copied(m.t, procs[pid].cr3, ram, ram2, virt, data + ZeroBytes(memory - |data|), memory)
  {
    hide Inv, HomeOk, ProcsOk, Physical, Peek, ZeroBytes, InRange;
    var r, mid, tail := procs[pid].cr3, virt + |data|, memory - |data|;
    var zeros := ZeroBytes(tail);
    forall a: nat | virt <= a < mid ensures Misses(m.t, r, mid, tail, Physical(m.t, r, a)) {
      HeadMissesTail(m, home, procs, pid, virt, mid, tail, a);
    }
    CopiedBoth(m.t, r, ram, ram1, ram2, virt, data, zeros);
  }

  /** Two copies, the second beyond the first and clear of it, are one. */
  lemma CopiedBoth(t: Tables, r: nat, ram: map<nat, bv8>, ram1: map<nat, bv8>, ram2: map<nat, bv8>, virt: nat,
                   a: seq<bv8>, b: seq<bv8>)
    requires Copied(t, r, ram, ram1, virt, a, |a|) && Copied(t, r, ram1, ram2, virt + |a|, b, |b|)
    requires forall x: nat :: virt <= x < virt + |a| ==> Misses(t, r, virt + |a|, |b|, Physical(t, r, x))
    ensures Copied(t, r, ram, ram2, virt, a + b, |a + b|)
  {
    hide Physical, Peek, Misses;
    forall x: nat | Misses(t, r, virt, |a + b|, x)
      ensures Misses(t, r, virt, |a|, x) && Misses(t, r, virt + |a|, |b|, x)
    {
      MissesParts(t, r, virt, |a|, |b|, x);
    }
  }

  lemma MissesParts(t: Tables, r: nat, virt: nat, m: nat, n: nat, x: nat)
    requires Misses(t, r, virt, m + n, x)
    ensures Misses(t, r, virt, m, x) && Misses(t, r, virt + m, n, x)
  {
    hide Physical;
  }

  lemma NothingOf(m: Vm, home: map<nat, Place>, r: nat)
    requires Inv(m) && HomeOk(m, home) && r !in m.spaces
    ensures TablesElsewhere(m, r) == m.own.Keys && FramesElsewhere(home, r) == home.Keys
  {
    forall f | f in m.own ensures m.own[f].space != r {
      assert TableOk(m, f);
    }
  }

  lemma Restored(m0: Vm, home0: map<nat, Place>, m1: Vm, m2: Vm, home2: map<nat, Place>, m3: Vm, home3: map<nat, Place>,
                 boot: set<nat>, used0: set<nat>, used3: set<nat>, r: nat)
    requires FramesOk(m0, home0, boot, used0) && FramesOk(m3, home3, boot, used3)
    requires Inv(m0) && HomeOk(m0, home0) && r !in m0.spaces && r !in m0.own && m1.own == m0.own[r := Slot(r, 4, 0, r)]
    requires SameElsewhere(m1, home0, m2, home2, r)
    requires home3 == Without(home2, r) && m3.own == RemoveSpace(m2, r, m2.t).own
    ensures used3 == used0
  {
    hide Inv, HomeOk;
    NothingOf(m0, home0, r);
    assert TablesElsewhere(m1, r) == TablesElsewhere(m0, r);
    assert m3.own.Keys == TablesElsewhere(m2, r);
    assert home3.Keys == FramesElsewhere(home2, r);
  }

  ghost function SetOf(s: seq<nat>): set<nat> {
    set x | x in s
  }

  lemma NoneFreed(log: seq<nat>, pages: seq<nat>)
    ensures SetOf(pages[..0]) == {} && FreedExactly(log, log, SetOf(pages[..0]))
  {
  }

  lemma OneMoreFreed(used: set<nat>, log: seq<nat>, log': seq<nat>, pages: seq<nat>, i: nat)
    requires NoDuplicates(pages) && i < |pages| && FreedExactly(log, log', SetOf(pages[..i]))
    ensures used - SetOf(pages[..i]) - {pages[i]} == used - SetOf(pages[..i + 1])
    ensures FreedExactly(log, log' + [pages[i]], SetOf(pages[..i + 1]))
  {
    assert pages[..i + 1] == pages[..i] + [pages[i]];
    assert SetOf(pages[..i + 1]) == SetOf(pages[..i]) + {pages[i]};
    assert pages[i] !in SetOf(pages[..i]);
    FreedTwice(log, log', log' + [pages[i]], SetOf(pages[..i]), {pages[i]});
  }

  lemma ProcFrames(m: Vm, home: map<nat, Place>, boot: set<nat>, used: set<nat>, procs: map<nat, Proc>, pid: nat)
    requires Inv(m) && FramesOk(m, home, boot, used) && ProcsOk(m, home, procs)
    requires pid in procs && procs[pid].isUser && procs[pid].cr3 != 0
    ensures var p := procs[pid];
      && p.cr3 in m.spaces && p.cr3 != m.kroot && NoDuplicates(p.pages)
      && SetOf(p.pages) == FramesOf(home, p.cr3) && FramesOf(home, p.cr3) !! TablesOf(m, p.cr3)
      && forall f :: f in p.pages ==> f != 0 && f !in m.own && f !in m.kern
  {
    var p := procs[pid];
    assert ProcOk(m, home, p);
    assert RootOk(m, p.cr3);
    assert TableOk(m, p.cr3);
    forall f | f in p.pages ensures f in home {
      assert f in FramesOf(home, p.cr3);
    }
  }

  datatype MemoryOp = Begin(pid: nat) | Map(pid: nat, virt: nat, flags: Flags) | End(pid: nat)

  ghost predicate PagesBounded(procs: map<nat, Proc>, max: nat) {
    forall pid :: pid in procs ==> |procs[pid].pages| <= max
  }

  /** There are free frames for n pages at page v of space r and for the tables missing on the way to it. */
  ghost predicate Affords(m: Vm, free: set<nat>, r: nat, v: nat, n: nat) {
    n + |Missing(m, r, v)| <= |free|
  }

  /** The frames that mapping page v of space r took: one for the page and one for each missing table. */
  ghost predicate Spent(m: Vm, free: set<nat>, m': Vm, free': set<nat>, r: nat, v: nat) {
    |free'| == |free| - 1 - |Missing(m, r, v)| && Missing(m', r, v) == {}
  }

  class UserSpaces {
    const vmm: AddressSpaces
    const maxPages: nat
    var procs: map<nat, Proc>
    var ram: map<nat, bv8>
    ghost const boot: set<nat>          // frames in use before any process
    ghost var home: map<nat, Place>

    ghost predicate Valid()
      reads this, vmm, vmm.pmm, vmm.pmm.bitmap
    {
      && vmm.Valid()
      && HomeOk(vmm.m, home)
      && FramesOk(vmm.m, home, boot, vmm.pmm.used)
      && ProcsOk(vmm.m, home, procs)
      && maxPages < PAGE_NUMBERS && PagesBounded(procs, maxPages)
    }

    constructor (vmm: AddressSpaces, maxPages: nat, ram: map<nat, bv8>)
      requires maxPages < PAGE_NUMBERS && vmm.Valid() && vmm.m.own == map[] && vmm.m.spaces == map[]
      requires 0 in vmm.pmm.used
      ensures Valid() && this.vmm == vmm && boot == vmm.pmm.used && procs == map[] && home == map[]
    {
      this.vmm := vmm;
      this.maxPages := maxPages;
      this.ram := ram;
      procs := map[];
      home := map[];
      boot := vmm.pmm.used;
    }

    /** Gives process pid an address space of its own. */
    method CreateSpaceFor(pid: nat) returns (ok: bool)
      requires Valid() && (pid in procs ==> procs[pid].cr3 == 0)
      modifies this`procs, vmm, vmm.pmm, vmm.pmm.bitmap
      ensures Valid() && vmm.pmm.freed == old(vmm.pmm.freed)
      ensures !ok ==>
        procs == old(procs) && vmm.m == old(vmm.m) && vmm.pmm.used == old(vmm.pmm.used) && vmm.pmm.NoneFree()
      ensures ok ==>
        && pid in procs && procs[pid].isUser && procs[pid].cr3 != 0 && procs[pid].pages == []
        && procs == old(procs)[pid := procs[pid]]
      ensures ok ==>
        && procs[pid].cr3 in vmm.m.spaces && procs[pid].cr3 !in old(vmm.pmm.used)
        && vmm.pmm.used == old(vmm.pmm.used) + {procs[pid].cr3}
      ensures ok ==> procs[pid].cr3 !in old(vmm.m.spaces) && vmm.m.spaces == old(vmm.m.spaces)[procs[pid].cr3 := map[]]
      ensures ok ==> vmm.m.own == old(vmm.m.own)[procs[pid].cr3 := Slot(procs[pid].cr3, 4, 0, procs[pid].cr3)]
    {
      hide Inv, HomeOk, FramesOk, ProcsOk, KernelOk, PagesBounded, Accounted, vmm.pmm.NoneFree;
      var r := vmm.CreateAddressSpace();
      ok := r != 0;
      if ok {
        AllStart(old(vmm.m), vmm.m, home, boot, old(vmm.pmm.used), procs, pid, r, maxPages);
        procs := procs[pid := Proc(r, true, [])];
      }
    }

    /** The pages mapped for process pid. */
    ghost function Mine(pid: nat): map<nat, Entry>
      reads this, vmm
    {
      if pid in procs && procs[pid].cr3 in vmm.m.spaces then vmm.m.spaces[procs[pid].cr3] else map[]
    }

    /** Allocates a frame that nothing uses; 0 when there is none. */
    method AllocFrame() returns (phys: nat)
      requires Valid()
      modifies vmm.pmm, vmm.pmm.bitmap
      ensures vmm.Valid() && vmm.m == old(vmm.m)
      ensures phys == 0 ==> vmm.pmm.used == old(vmm.pmm.used) && vmm.pmm.NoneFree()
      ensures phys != 0 ==> var f := phys / PAGE_SIZE;
        && f != 0 && f !in old(vmm.pmm.used) && f !in home && f !in vmm.m.own && f !in vmm.m.kern
        && vmm.pmm.used == old(vmm.pmm.used) + {f}
      ensures phys == 0 ==> |old(vmm.pmm.FreeFrames())| == 0
      ensures phys != 0 ==> |vmm.pmm.FreeFrames()| == |old(vmm.pmm.FreeFrames())| - 1
    {
      hide Inv, HomeOk, FramesOk, ProcsOk;
      phys := vmm.pmm.AllocPage();
      if phys != 0 {
        FrameIsFresh(vmm.m, home, boot, old(vmm.pmm.used), phys / PAGE_SIZE);
        Pmm.OneTaken(old(vmm.pmm.used), vmm.pmm.low, 8 * vmm.pmm.bitmap.Length, phys / PAGE_SIZE);
      } else {
        Pmm.NoneIn(vmm.pmm.used, vmm.pmm.low, 8 * vmm.pmm.bitmap.Length);
      }
    }

    method FreeFrame(phys: nat)
      requires vmm.Valid() && phys / PAGE_SIZE !in vmm.m.own && phys / PAGE_SIZE !in vmm.m.kern
      modifies vmm.pmm, vmm.pmm.bitmap
      ensures vmm.Valid() && vmm.pmm.used == old(vmm.pmm.used) - {phys / PAGE_SIZE}
      ensures vmm.pmm.freed == old(vmm.pmm.freed) + [phys / PAGE_SIZE]
    {
      hide Inv;
      vmm.pmm.FreePage(phys);
    }

    /** Records a frame that was just mapped. */
    method Commit(ghost m0: Vm, ghost used0: set<nat>, pid: nat, v: nat, f: nat, flags: Flags)
      requires vmm.Valid() && HomeOk(m0, home) && FramesOk(m0, home, boot, used0) && ProcsOk(m0, home, procs)
      requires pid in procs && procs[pid].cr3 != 0 && procs[pid].isUser
      requires f !in used0 && f !in home && Grew(procs[pid].cr3, used0 + {f}, m0, vmm.pmm.used, vmm.m)
      requires MapsOnly(m0, vmm.m, procs[pid].cr3, v, Entry(f, LeafFlags(WithUser(flags))))
      requires procs[pid].cr3 in m0.spaces && maxPages < PAGE_NUMBERS && PagesBounded(procs, maxPages)
      requires |procs[pid].pages| < maxPages
      modifies this`home, this`procs
      ensures Valid() && procs == old(procs)[pid := old(procs)[pid].(pages := old(procs)[pid].pages + [f])]
      ensures SameElsewhere(m0, old(home), vmm.m, home, procs[pid].cr3)
    {
      hide Inv, HomeOk, FramesOk, ProcsOk, KernelOk, Grew, SameElsewhere, MapsOnly, PagesBounded, Accounted;
      ghost var leaf := Entry(f, LeafFlags(WithUser(flags)));
      AllGrow(m0, vmm.m, home, boot, used0, vmm.pmm.used, procs, pid, v, leaf, maxPages);
      home := home[f := Place(procs[pid].cr3, v)];
      procs := procs[pid := procs[pid].(pages := procs[pid].pages + [f])];
    }

    /** Gives back a frame that could not be mapped. */
    method Abandon(ghost m0: Vm, ghost used0: set<nat>, ghost r: nat, phys: nat)
      requires vmm.Valid() && HomeOk(m0, home) && FramesOk(m0, home, boot, used0) && ProcsOk(m0, home, procs)
      requires maxPages < PAGE_NUMBERS && PagesBounded(procs, maxPages)
      requires phys / PAGE_SIZE !in used0 && phys / PAGE_SIZE !in m0.own && phys / PAGE_SIZE !in m0.kern
      requires Grew(r, used0 + {phys / PAGE_SIZE}, m0, vmm.pmm.used, vmm.m) && vmm.m.spaces == m0.spaces
      requires vmm.pmm.NoneFree()
      modifies vmm.pmm, vmm.pmm.bitmap
      ensures Valid() && SameElsewhere(m0, home, vmm.m, home, r) && vmm.pmm.Exhausted()
    {
      hide Inv, HomeOk, FramesOk, ProcsOk, KernelOk, FramesOf, Grew, SameElsewhere, PagesBounded;
      FailedElsewhere(r, used0 + {phys / PAGE_SIZE}, m0, vmm.pmm.used, vmm.m, home);
      FramesGrow(m0, vmm.m, home, boot, used0, vmm.pmm.used, phys / PAGE_SIZE, Place(0, 0), r);
      NothingGrows(m0, vmm.m, home, procs);
      NewFrameApart(r, m0, vmm.m, used0, vmm.pmm.used, phys / PAGE_SIZE);
      FreeFrame(phys);
      assert vmm.pmm.NoneFreeBut(phys / PAGE_SIZE);
    }

    /** Allocates, zeroes and maps a frame at a page of process pid. */
    method InstallPage(pid: nat, virt: nat, flags: Flags) returns (ok: bool)
      requires Valid() && pid in procs && procs[pid].isUser && procs[pid].cr3 != 0
      requires procs[pid].cr3 in vmm.m.spaces && |procs[pid].pages| < maxPages
      modifies this, vmm, vmm.pmm, vmm.pmm.bitmap
      ensures Valid()
      ensures !ok ==>
        procs == old(procs) && vmm.m.spaces == old(vmm.m.spaces) && home == old(home) && vmm.pmm.Exhausted()
      ensures ok ==>
        Gained(old(procs), procs, old(vmm.m), vmm.m, old(ram), ram, pid, PageOf(virt), LastPage(procs, pid), flags)
      ensures ok ==> LastPage(procs, pid) !in old(vmm.pmm.used)
      ensures ok ==>
        ReachedAs(vmm.t, procs[pid].cr3, PageOf(virt), Entry(LastPage(procs, pid), LeafFlags(WithUser(flags))))
      ensures SameElsewhere(old(vmm.m), old(home), vmm.m, home, old(procs)[pid].cr3)
      ensures ok <==> Affords(old(vmm.m), old(vmm.pmm.FreeFrames()), old(procs)[pid].cr3, PageOf(virt), 1)
      ensures ok ==> Spent(old(vmm.m), old(vmm.pmm.FreeFrames()), vmm.m, vmm.pmm.FreeFrames(), old(procs)[pid].cr3,
                           PageOf(virt))
    {
      hide SameElsewhere, Inv, HomeOk, FramesOk, ProcsOk, KernelOk, FramesOf, PageOf, Leaf, Grew, SameKernel,
           MapsOnly, Accounted, Poke, vmm.pmm.NoneFree, vmm.pmm.Exhausted, vmm.pmm.FreeFrames, Missing,
           ReachedAs;
      ok := false;
      SameAsItself(vmm.m, home, procs[pid].cr3);
      var phys := AllocFrame();
      if phys != 0 {
        ram := Poke(ram, phys / PAGE_SIZE * PAGE_SIZE, ZeroBytes(PAGE_SIZE));
        ok := vmm.MapPageIn(procs[pid].cr3, virt, phys, WithUser(flags));
        if ok {
          Commit(old(vmm.m), old(vmm.pmm.used), pid, PageOf(virt), phys / PAGE_SIZE, flags);
        } else {
          Abandon(old(vmm.m), old(vmm.pmm.used), procs[pid].cr3, phys);
        }
      } else {
        vmm.pmm.NoneIsExhausted();
      }
    }
  
    /** The page is recognised as one that the process already has. That fails in the last page of the
        address space, which no range check accepts. */
    ghost predicate Seen(pid: nat, virt: nat)
      reads this, vmm
    {
      virt < LAST_PAGE && PageOf(virt) in Mine(pid)
    }

    /** Maps a page of process pid on a fresh zeroed frame. A page that is recognised as mapped is left
        alone. Otherwise the request succeeds exactly when the process may have another page and there are
        free frames for the page and for the private tables missing on the way to it; one that fails changes
        no mapping of any process. */
    method MapUserPage(pid: nat, virt: nat, flags: Flags) returns (ok: bool)
      requires Valid() && virt < Pmm.WORD
      modifies this, vmm, vmm.pmm, vmm.pmm.bitmap
      ensures Valid()
      ensures pid !in old(procs) || !old(procs)[pid].isUser || old(procs)[pid].cr3 == 0 ==> !ok
      ensures !old(Seen(pid, virt)) && pid in old(procs) && |old(procs)[pid].pages| >= maxPages ==> !ok
      ensures !ok && pid in old(procs) && old(procs)[pid].isUser && old(procs)[pid].cr3 != 0 &&
              |old(procs)[pid].pages| < maxPages ==>
        vmm.pmm.Exhausted()
      ensures old(Seen(pid, virt)) && old(procs)[pid].isUser && old(procs)[pid].cr3 != 0 ==> ok
      ensures ok ==> pid in procs && PageOf(virt) in Mine(pid)
      ensures pid in old(procs) ==>
        pid in procs && procs[pid].cr3 == old(procs)[pid].cr3 && procs[pid].isUser == old(procs)[pid].isUser
      ensures !ok || old(Seen(pid, virt)) ==> procs == old(procs) && vmm.m.spaces == old(vmm.m.spaces)
      ensures ok && !old(Seen(pid, virt)) ==>
        Gained(old(procs), procs, old(vmm.m), vmm.m, old(ram), ram, pid, PageOf(virt), LastPage(procs, pid), flags)
      ensures ok && !old(Seen(pid, virt)) ==> LastPage(procs, pid) !in old(vmm.pmm.used)
      ensures ok && !old(Seen(pid, virt)) ==>
        ReachedAs(vmm.t, procs[pid].cr3, PageOf(virt), Entry(LastPage(procs, pid), LeafFlags(WithUser(flags))))
      ensures ok <==>
        && pid in old(procs) && old(procs)[pid].isUser && old(procs)[pid].cr3 != 0
        && (old(Seen(pid, virt)) ||
            (|old(procs)[pid].pages| < maxPages &&
             Affords(old(vmm.m), old(vmm.pmm.FreeFrames()), old(procs)[pid].cr3, PageOf(virt), 1)))
      ensures ok && !old(Seen(pid, virt)) ==>
        Spent(old(vmm.m), old(vmm.pmm.FreeFrames()), vmm.m, vmm.pmm.FreeFrames(), old(procs)[pid].cr3, PageOf(virt))
      ensures pid in old(procs) ==> SameElsewhere(old(vmm.m), old(home), vmm.m, home, old(procs)[pid].cr3)
    {
      hide Inv, HomeOk, FramesOk, ProcsOk, KernelOk, FramesOf, Accounted, Gained, PageOf, UserOk, SameElsewhere,
           SomeClosed, vmm.pmm.Exhausted, vmm.pmm.FreeFrames, Missing, Spent, Affords, ReachedAs;
      if pid in procs { SameAsItself(vmm.m, home, procs[pid].cr3); }
      if pid !in procs || !procs[pid].isUser || procs[pid].cr3 == 0 { return false; }
      var already := AlreadyMapped(pid, virt);
      if already { return true; }
      if |procs[pid].pages| >= maxPages { return false; }
      ok := InstallPage(pid, virt, flags);
      if ok {
        GainedPage(old(procs), procs, old(vmm.m), vmm.m, old(ram), ram, pid, PageOf(virt), LastPage(procs, pid), flags);
      }
    }

    method AlreadyMapped(pid: nat, virt: nat) returns (already: bool)
      requires Valid() && virt < Pmm.WORD && pid in procs && procs[pid].isUser && procs[pid].cr3 != 0
      ensures procs[pid].cr3 in vmm.m.spaces && (already <==> Seen(pid, virt))
    {
      hide Inv, HomeOk, FramesOk, ProcsOk, PageOf, UserOk, SomeClosed;
      ProcFacts(vmm.m, home, procs, pid, virt);
      PageClosed(vmm.m, home, procs, pid);
      var page := virt - virt % PAGE_SIZE;
      already := vmm.UserRangeOk(procs[pid].cr3, page, 1);
      assert already ==> UserOk(vmm.t, procs[pid].cr3, PageOf(page));
    }
  
    /** Gives back a list of distinct user frames. */
    method FreePages(pages: seq<nat>)
      requires vmm.Valid() && NoDuplicates(pages)
      requires forall f :: f in pages ==> f != 0 && f !in vmm.m.own && f !in vmm.m.kern
      modifies vmm.pmm, vmm.pmm.bitmap
      ensures vmm.Valid() && vmm.pmm.used == old(vmm.pmm.used) - SetOf(pages)
      ensures FreedExactly(old(vmm.pmm.freed), vmm.pmm.freed, SetOf(pages))
    {
      hide Inv, FreedExactly, Accounted, SetOf, NoDuplicates;
      var i := 0;
      NoneFreed(vmm.pmm.freed, pages);
      while i < |pages|
        invariant 0 <= i <= |pages| && vmm.Valid()
        invariant vmm.pmm.used == old(vmm.pmm.used) - SetOf(pages[..i])
        invariant FreedExactly(old(vmm.pmm.freed), vmm.pmm.freed, SetOf(pages[..i]))
      {
        OneMoreFreed(old(vmm.pmm.used), old(vmm.pmm.freed), vmm.pmm.freed, pages, i);
        assert pages[i] in pages;
        if pages[i] != 0 {
          assert pages[i] * PAGE_SIZE / PAGE_SIZE == pages[i];
          FreeFrame(pages[i] * PAGE_SIZE);
        }
        i := i + 1;
      }
      assert pages[..i] == pages;
    }

    /** Drops the records of a process whose space and pages are gone. */
    method Forget(ghost m0: Vm, ghost used0: set<nat>, pid: nat, r: nat)
      requires vmm.Valid() && HomeOk(m0, home) && FramesOk(m0, home, boot, used0) && ProcsOk(m0, home, procs)
      requires pid in procs && procs[pid].isUser && procs[pid].cr3 == r != 0 && maxPages < PAGE_NUMBERS
      requires PagesBounded(procs, maxPages)
      requires vmm.m == RemoveSpace(m0, r, vmm.t)
      requires vmm.pmm.used == used0 - FramesOf(home, r) - TablesOf(m0, r)
      modifies this`home, this`procs
      ensures Valid() && procs == old(procs)[pid := Proc(0, true, [])] && home == Without(old(home), r)
      ensures vmm.m.spaces == m0.spaces - {r} && vmm.m.own == RemoveSpace(m0, r, m0.t).own
      ensures vmm.pmm.used == used0 - (FramesOf(old(home), r) + TablesOf(m0, r))
    {
      hide Inv, HomeOk, FramesOk, ProcsOk, FramesOf, Accounted, TablesOf, Without, RemoveSpace, PagesBounded, vmm.Valid;
      AllShrink(m0, home, boot, used0, procs, pid, r, vmm.t);
      FewerPages(procs, pid, maxPages);
      home := Without(home, r);
      procs := procs[pid := Proc(0, true, [])];
    }

    /** Ends the memory of any process: the kernel's own is left alone, and one without an address
        space of its own has nothing to give back. */
    method Cleanup(pid: nat)
      requires Valid() && (pid in procs && !procs[pid].isUser ==> procs[pid].cr3 == 0 || procs[pid].cr3 == vmm.kroot)
      modifies this, vmm, vmm.pmm, vmm.pmm.bitmap
      ensures Valid()
      ensures pid == 0 || pid !in old(procs) ==> procs == old(procs)
      ensures pid != 0 && pid in old(procs) ==> procs == old(procs)[pid := Proc(0, old(procs)[pid].isUser, [])]
      ensures pid != 0 && pid in old(procs) && old(procs)[pid].isUser && old(procs)[pid].cr3 != 0 ==>
        && vmm.pmm.used == old(vmm.pmm.used) - Acquired(old(vmm.m), old(home), old(procs)[pid].cr3)
        && FreedExactly(old(vmm.pmm.freed), vmm.pmm.freed, Acquired(old(vmm.m), old(home), old(procs)[pid].cr3))
      ensures !(pid != 0 && pid in old(procs) && old(procs)[pid].isUser && old(procs)[pid].cr3 != 0) ==>
        vmm.pmm.used == old(vmm.pmm.used) && vmm.pmm.freed == old(vmm.pmm.freed) && vmm.m == old(vmm.m)
    {
      hide Inv, HomeOk, FramesOk, ProcsOk, KernelOk, FramesOf, Accounted, TablesOf, FreedExactly;
      if pid == 0 || pid !in procs { return; }
      if procs[pid].isUser && procs[pid].cr3 != 0 {
        CleanupUser(pid);
      } else {
        ProcsForget(vmm.m, home, procs, pid);
        procs := procs[pid := Proc(0, procs[pid].isUser, [])];
      }
    }

    /** Ends the memory of a process: every frame it acquired, table or page, is given back exactly
        once, and no other frame is. */
    method CleanupUser(pid: nat)
      requires Valid() && pid in procs && procs[pid].isUser && procs[pid].cr3 != 0 && pid != 0
      modifies this, vmm, vmm.pmm, vmm.pmm.bitmap
      ensures Valid()
      ensures procs == old(procs)[pid := Proc(0, true, [])]
      ensures var r := old(procs)[pid].cr3; vmm.m.spaces == old(vmm.m.spaces) - {r} && home == Without(old(home), r)
      ensures vmm.m.own == RemoveSpace(old(vmm.m), old(procs)[pid].cr3, old(vmm.t)).own
      ensures var r := old(procs)[pid].cr3;
        && vmm.pmm.used == old(vmm.pmm.used) - Acquired(old(vmm.m), old(home), r)
        && FreedExactly(old(vmm.pmm.freed), vmm.pmm.freed, Acquired(old(vmm.m), old(home), r))
    {
      hide Inv, HomeOk, FramesOk, ProcsOk, KernelOk, FramesOf, Accounted, TablesOf, FreedExactly, SetOf,
           NoDuplicates, SameKernel, Without, RemoveSpace;
      var r := procs[pid].cr3;
      ProcFrames(vmm.m, home, boot, vmm.pmm.used, procs, pid);
      FreePages(procs[pid].pages);
      ghost var log1 := vmm.pmm.freed;
      vmm.DestroyAddressSpace(r);
      FreedTwice(old(vmm.pmm.freed), log1, vmm.pmm.freed, FramesOf(home, r), TablesOf(old(vmm.m), r));
      Forget(old(vmm.m), old(vmm.pmm.used), pid, r);
    }
  
    /** Copies data to a range of the process, page by page, up to the first page without a physical
        address: it succeeds exactly when there is none. Memory outside the bytes gone over is as before.
        On a range of its own pages every byte read back through the page tables is the byte written. */
    method WriteUser(pid: nat, virt: nat, data: seq<bv8>) returns (ok: bool, ghost done: nat)
      requires Valid() && |data| <= SPAN
      modifies this`ram
      ensures pid !in procs || procs[pid].cr3 == 0 ==> !ok && ram == old(ram)
      ensures pid in procs && procs[pid].cr3 != 0 ==> Wrote(pid, virt, data, old(ram), done) && (ok <==> done == |data|)
      ensures InRange(Mine(pid), virt, |data|) && pid in procs && procs[pid].isUser && procs[pid].cr3 != 0 ==> ok
    {
      hide Inv, HomeOk, FramesOk, ProcsOk, Physical, Poke, Copied, Progress;
      done := 0;
      if pid !in procs || procs[pid].cr3 == 0 { return false, 0; }
      var r, at := procs[pid].cr3, 0;
      CopiedNothing(vmm.t, r, ram, virt, data);
      while at < |data|
        invariant 0 <= at <= |data| && Progress(vmm.t, r, old(ram), ram, virt, |data|, at)
        invariant procs[pid].isUser && InRange(Mine(pid), virt, at) ==> Copied(vmm.t, r, old(ram), ram, virt, data, at)
      {
        var va := virt + at;
        var phys := vmm.GetPhysicalIn(r, va);
        if phys == 0 {
          done := at;
          Stuck(pid, virt, data, old(ram), at);
          return false, at;
        }
        var n := Chunk(va, |data| - at);
        ProgressMore(vmm.t, r, old(ram), ram, virt, data, at);
        if procs[pid].isUser && InRange(Mine(pid), virt, at + n) {
          ProcFacts(vmm.m, home, procs, pid, virt);
          CopiedMore(vmm.m, home, procs, pid, old(ram), ram, virt, data, at, n);
        }
        ram := Poke(ram, phys, data[at..at + n]);
        at := at + n;
      }
      ProgressStops(vmm.t, r, old(ram), ram, virt, |data|);
      ok, done := true, at;
    }

    /** What a copy that got to a certain byte has done. */
    ghost predicate Wrote(pid: nat, virt: nat, data: seq<bv8>, was: map<nat, bv8>, done: nat)
      requires pid in procs
      reads this, vmm
    {
      && Stops(vmm.t, procs[pid].cr3, virt, |data|, done)
      && Confined(vmm.t, procs[pid].cr3, was, ram, virt, done)
      && (procs[pid].isUser && InRange(Mine(pid), virt, done) ==>
            Copied(vmm.t, procs[pid].cr3, was, ram, virt, data, done))
    }

    lemma Stuck(pid: nat, virt: nat, data: seq<bv8>, was: map<nat, bv8>, done: nat)
      requires Valid() && pid in procs && procs[pid].cr3 != 0 && done < |data|
      requires Physical(vmm.t, procs[pid].cr3, virt + done) == 0
      requires Progress(vmm.t, procs[pid].cr3, was, ram, virt, |data|, done)
      requires procs[pid].isUser && InRange(Mine(pid), virt, done) ==>
        Copied(vmm.t, procs[pid].cr3, was, ram, virt, data, done)
      ensures Wrote(pid, virt, data, was, done) && !(procs[pid].isUser && InRange(Mine(pid), virt, |data|))
    {
      hide Inv, HomeOk, FramesOk, ProcsOk, Physical, Copied, PageOf;
      if procs[pid].isUser && InRange(Mine(pid), virt, |data|) {
        ProcFacts(vmm.m, home, procs, pid, virt);
        MappedByte(vmm.m, home, procs, pid, virt + done);
        FrameNonzero(vmm.m, home, boot, vmm.pmm.used, procs[pid].cr3, PageOf(virt + done));
      }
    }

    /** Zeroes a range of the process, likewise. */
    method ZeroUser(pid: nat, virt: nat, size: nat) returns (ok: bool, ghost done: nat)
      requires Valid() && size <= SPAN
      modifies this`ram
      ensures pid !in procs || procs[pid].cr3 == 0 ==> !ok && ram == old(ram)
      ensures pid in procs && procs[pid].cr3 != 0 ==>
        Wrote(pid, virt, ZeroBytes(size), old(ram), done) && (ok <==> done == size)
      ensures InRange(Mine(pid), virt, size) && pid in procs && procs[pid].isUser && procs[pid].cr3 != 0 ==> ok
    {
      hide Inv, HomeOk, FramesOk, ProcsOk, Physical, Poke, Copied, Progress;
      done := 0;
      if pid !in procs || procs[pid].cr3 == 0 { return false, 0; }
      var r, at := procs[pid].cr3, 0;
      ghost var zeros := ZeroBytes(size);
      CopiedNothing(vmm.t, r, ram, virt, zeros);
      while at < size
        invariant 0 <= at <= size && Progress(vmm.t, r, old(ram), ram, virt, size, at)
        invariant procs[pid].isUser && InRange(Mine(pid), virt, at) ==> Copied(vmm.t, r, old(ram), ram, virt, zeros, at)
      {
        var va := virt + at;
        var phys := vmm.GetPhysicalIn(r, va);
        if phys == 0 {
          done := at;
          Stuck(pid, virt, zeros, old(ram), at);
          return false, at;
        }
        var n := Chunk(va, size - at);
        ProgressMore(vmm.t, r, old(ram), ram, virt, zeros, at);
        if procs[pid].isUser && InRange(Mine(pid), virt, at + n) {
          ProcFacts(vmm.m, home, procs, pid, virt);
          CopiedMore(vmm.m, home, procs, pid, old(ram), ram, virt, zeros, at, n);
        }
        assert zeros[at..at + n] == ZeroBytes(n);
        ram := Poke(ram, phys, ZeroBytes(n));
        at := at + n;
      }
      ProgressStops(vmm.t, r, old(ram), ram, virt, size);
      ok, done := true, at;
    }

    /** Loads a segment as the ELF loader does: the file's bytes, then zeros up to its memory size. */
    method LoadSegment(pid: nat, virt: nat, data: seq<bv8>, memory: nat) returns (ok: bool)
      requires Valid() && |data| <= memory <= SPAN
      modifies this`ram
      ensures InRange(Mine(pid), virt, memory) && pid in procs && procs[pid].isUser && procs[pid].cr3 != 0 ==>
        ok && Copied(vmm.t, procs[pid].cr3, old(ram), ram, virt, data + ZeroBytes(memory - |data|), memory)
    {
      hide Inv, HomeOk, FramesOk, ProcsOk, Physical, Copied;
      ghost var done;
      ok, done := WriteUser(pid, virt, data);
      if !ok { return; }
      ghost var ram1 := ram;
      ok, done := ZeroUser(pid, virt + |data|, memory - |data|);
      if InRange(Mine(pid), virt, memory) && pid in procs && procs[pid].isUser && procs[pid].cr3 != 0 {
        ProcFacts(vmm.m, home, procs, pid, virt);
        DataThenZeros(vmm.m, home, procs, pid, old(ram), ram1, ram, virt, data, memory);
      }
    }

    /** The whole life of a process's memory: whatever pages it asks for, and whether or not the
        requests succeed, in the end exactly the frames in use before are in use again. */
    method LifeCycle(pid: nat, requests: seq<(nat, Flags)>)
      requires Valid() && pid != 0 && (pid in procs ==> procs[pid].cr3 == 0)
      requires forall q :: q in requests ==> q.0 < Pmm.WORD
      modifies this, vmm, vmm.pmm, vmm.pmm.bitmap
      ensures Valid() && vmm.pmm.used == old(vmm.pmm.used) && vmm.pmm.freePages == old(vmm.pmm.freePages)
    {
      hide Inv, HomeOk, FramesOk, ProcsOk, KernelOk, Gained, PageOf, SameElsewhere, FramesOf, TablesOf, FreedExactly,
           Without;
      var ok := CreateSpaceFor(pid);
      if !ok { return; }
      var r := procs[pid].cr3;
      ghost var m1, home1 := vmm.m, home;
      SameAsItself(vmm.m, home, r);
      var i := 0;
      while i < |requests|
        invariant 0 <= i <= |requests| && Valid() && pid in procs && procs[pid].cr3 == r && procs[pid].isUser
        invariant SameElsewhere(m1, home1, vmm.m, home, r)
      {
        ghost var m2, home2 := vmm.m, home;
        assert requests[i] in requests;
        var _ := MapUserPage(pid, requests[i].0, requests[i].1);
        TwiceElsewhere(m1, home1, m2, home2, vmm.m, home, r);
        i := i + 1;
      }
      ghost var m2, home2 := vmm.m, home;
      CleanupUser(pid);
      Restored(old(vmm.m), old(home), m1, m2, home2, vmm.m, home, boot, old(vmm.pmm.used), vmm.pmm.used, r);
    }
  
    /** Any interleaving of processes: once all that were begun have ended, exactly the frames in use
        before any process are in use again. */
    method Interleave(ops: seq<MemoryOp>)
      requires Valid() && forall op :: op in ops && op.Map? ==> op.virt < Pmm.WORD
      requires forall pid :: pid in procs && !procs[pid].isUser ==> procs[pid].cr3 == 0
      modifies this, vmm, vmm.pmm, vmm.pmm.bitmap
      ensures Valid()
      ensures (forall pid :: pid in procs ==> procs[pid].cr3 == 0) ==> vmm.m.spaces == map[] && vmm.pmm.used == boot
    {
      hide Inv, HomeOk, FramesOk, ProcsOk, KernelOk, MapsOnly, PageOf, SameElsewhere, FramesOf, TablesOf, FreedExactly,
           vmm.pmm.Exhausted, vmm.pmm.NoneFree;
      for i := 0 to |ops|
        invariant Valid() && forall pid :: pid in procs && !procs[pid].isUser ==> procs[pid].cr3 == 0
      {
        var op := ops[i];
        assert op in ops;
        match op {
          case Begin(pid) =>
            if pid !in procs || procs[pid].cr3 == 0 { var _ := CreateSpaceFor(pid); }
          case Map(pid, virt, flags) =>
            var _ := MapUserPage(pid, virt, flags);
          case End(pid) =>
            Cleanup(pid);
        }
      }
      if forall pid :: pid in procs ==> procs[pid].cr3 == 0 {
        AllCleanedUp(vmm.m, home, boot, vmm.pmm.used, procs);
      }
    }

    /** The check made on every user pointer: accepted exactly when the range is nonempty, ends before the
        last page of the address space, and each of its bytes lies in a page mapped for the process. */
    method CheckRange(pid: nat, virt: nat, size: nat) returns (ok: bool)
      requires Valid() && virt < Pmm.WORD && size < Pmm.WORD
      requires pid in procs && procs[pid].isUser && procs[pid].cr3 != 0
      ensures ok <==> (0 < size && virt + size <= LAST_PAGE && InRange(Mine(pid), virt, size))
    {
      hide Inv, HomeOk, FramesOk, ProcsOk, UserOk, SomeClosed, PageOf;
      ProcFacts(vmm.m, home, procs, pid, virt);
      PageClosed(vmm.m, home, procs, pid);
      ok := vmm.UserRangeOk(procs[pid].cr3, virt, size);
      forall a: nat ensures UserOk(vmm.t, procs[pid].cr3, PageOf(a)) <==> PageOf(a) in Mine(pid) {
        ProcReach(vmm.m, home, procs, pid, a);
      }
    }

    /** A page mapped at the end of the address space passes no check, and is mapped anew by the next
        request for it. */
    method MapLastPage(pid: nat, flags: Flags) returns (mapped: bool, accepted: bool, again: bool)
      requires Valid() && pid in procs && procs[pid].isUser && procs[pid].cr3 != 0
      modifies this, vmm, vmm.pmm, vmm.pmm.bitmap
      ensures Valid() && !accepted
      ensures mapped ==> PageOf(LAST_PAGE) in Mine(pid)
      ensures mapped <==>
        && |old(procs)[pid].pages| < maxPages
        && Affords(old(vmm.m), old(vmm.pmm.FreeFrames()), old(procs)[pid].cr3, PageOf(LAST_PAGE), 1)
      ensures mapped && again <==>
        && |old(procs)[pid].pages| + 1 < maxPages
        && Affords(old(vmm.m), old(vmm.pmm.FreeFrames()), old(procs)[pid].cr3, PageOf(LAST_PAGE), 2)
      ensures mapped && again ==> pid in procs && |procs[pid].pages| == |old(procs)[pid].pages| + 2
    {
      hide Inv, HomeOk, FramesOk, ProcsOk, PageOf, SameElsewhere, vmm.pmm.Exhausted, vmm.pmm.FreeFrames, Missing;
      mapped := MapUserPage(pid, LAST_PAGE, flags);
      accepted := CheckRange(pid, LAST_PAGE, 1);
      again := MapUserPage(pid, LAST_PAGE, flags);
    }
  }
}
