/** Well-formed volumes: chains of live entries end properly and do not meet, and directories are sound. */
module FatTree {
  import opened Bytes
  import opened Geometry
  import opened FatCodec
  import opened FatDisk
  import opened FatChains
  import opened FatSpace
  import opened FatWrite
  import opened FatDir
  import opened FatName
  import opened FatLookup

  /** Chains by their first cluster, the directories among them (0 for a fixed root), and the slot of the
      entry that a chain belongs to. A chain may belong to no entry. */
  datatype Tree = Tree(chains: map<nat, seq<nat>>, dirs: set<nat>, owner: map<nat, (nat, nat)>)

  function FirstCluster(k: Kind, e: Slot): nat
    requires |e| == SLOT
  {
    Le16(e, 26) + if k == Fat32 then 0x1_0000 * Le16(e, 20) else 0
  }

  function SizeOf(e: Slot): nat
    requires |e| == SLOT
  {
    Le32(e, 28)
  }

  /** An entry of a file or directory; the dot entries of a directory are not. */
  predicate Object(e: Slot)
    requires |e| == SLOT
  {
    Visible(e) && e[0] != DOT
  }

  function RootId(g: Geo): nat {
    if g.kind == Fat32 then g.rootCluster else 0
  }

  function ChainOf(t: Tree, d: nat): seq<nat> {
    if d in t.chains then t.chains[d] else []
  }

  ghost predicate ChainsOk(g: Geo, fat: seq<nat>, t: Tree)
    requires |fat| == g.count + 2
  {
    forall s :: s in t.chains ==> |t.chains[s]| > 0 && t.chains[s][0] == s && IsChain(g, fat, t.chains[s])
  }

  ghost predicate Disjoint(a: seq<nat>, b: seq<nat>) {
    forall x :: x in a ==> x !in b
  }

  ghost predicate Apart(t: Tree) {
    forall a, b :: a in t.chains && b in t.chains && a != b ==> Disjoint(t.chains[a], t.chains[b])
  }

  ghost predicate DirsOk(g: Geo, t: Tree) {
    && RootId(g) in t.dirs && RootId(g) !in t.owner && t.owner.Keys <= t.chains.Keys
    && (forall c :: c in t.owner ==> t.owner[c].0 in t.dirs)
    && forall d :: d in t.dirs ==> if d == 0 then g.kind != Fat32 else d in t.chains
  }

  ghost predicate EntryOk(g: Geo, t: Tree, d: nat, i: nat, e: Slot)
    requires |e| == SLOT
  {
    var c := FirstCluster(g.kind, e);
    if c == 0 then !IsDirectory(e)
    else c != d && c in t.chains && c in t.owner && t.owner[c] == (d, i) && (IsDirectory(e) <==> c in t.dirs)
  }

  /** Nothing but end marks after the first. */
  ghost predicate ZeroTail(dir: seq<Slot>)
    requires SlotsOk(dir)
  {
    forall i, j :: 0 <= i < j < |dir| && dir[i][0] == 0 ==> dir[j][0] == 0
  }

  /** How a directory names its parent: the root directory is named 0. */
  function UpField(g: Geo, parent: nat): nat {
    if parent == g.rootCluster then 0 else parent
  }

  /** The first two slots of a directory other than the root lead to itself and to its parent. */
  ghost predicate Dotted(g: Geo, dir: seq<Slot>, d: nat, parent: nat)
    requires SlotsOk(dir)
  {
    && |dir| >= 2 && dir[0][0] == DOT && FirstCluster(g.kind, dir[0]) == d
    && dir[1][0] == DOT && FirstCluster(g.kind, dir[1]) == UpField(g, parent)
  }

  /** Slot i of a directory holds an entry that leads to c. */
  ghost predicate Enters(g: Geo, dir: seq<Slot>, i: nat, c: nat)
    requires SlotsOk(dir)
  {
    i < |dir| && Object(dir[i]) && FirstCluster(g.kind, dir[i]) == c
  }

  /** Entries lead to chains that belong to them, and chains that belong to an entry are entered there. */
  ghost predicate EntriesOk(g: Geo, t: Tree, d: nat, dir: seq<Slot>, h: set<(nat, nat)>)
    requires SlotsOk(dir)
  {
    && (forall i :: 0 <= i < |dir| && Object(dir[i]) && (d, i) !in h ==> EntryOk(g, t, d, i, dir[i]))
    && (forall c :: c in t.owner && t.owner[c].0 == d && t.owner[c] !in h ==> Enters(g, dir, t.owner[c].1, c))
    && (d in t.owner ==> Dotted(g, dir, d, t.owner[d].0))
  }

  ghost function DirOf(g: Geo, m: Vol, t: Tree, d: nat): (r: seq<Slot>)
    ensures SlotsOk(r)
  {
    if ListingOk(g, m, ChainOf(t, d)) then Listing(g, m, ChainOf(t, d)) else []
  }

  ghost predicate DirsGood(g: Geo, m: Vol, t: Tree, h: set<(nat, nat)>) {
    forall d :: d in t.dirs ==> ZeroTail(DirOf(g, m, t, d)) && EntriesOk(g, t, d, DirOf(g, m, t, d), h)
  }

  /** A well-formed volume; the entries in the slots h are left out of account. */
  ghost predicate WellFormed(g: Geo, m: Vol, t: Tree, h: set<(nat, nat)>) {
    && Shape(g, m) && g.spc > 0 && TableOk(g, m.fat)
    && ChainsOk(g, m.fat, t) && Apart(t) && DirsOk(g, t) && DirsGood(g, m, t, h)
  }

  /** The clusters of all chains are as before. */
  ghost predicate Kept(t: Tree, m: Vol, after: Vol) {
    && |after.fat| == |m.fat| && |after.data| == |m.data| == |m.fat| && after.root == m.root
    && forall s, x :: s in t.chains && x in t.chains[s] && x < |m.fat| ==>
         after.fat[x] == m.fat[x] && after.data[x] == m.data[x]
  }

  lemma SameChain(g: Geo, m: Vol, after: Vol, ch: seq<nat>)
    requires Shape(g, m) && Shape(g, after) && IsChain(g, m.fat, ch)
    requires forall x :: x in ch && x < |m.fat| ==> after.fat[x] == m.fat[x] && after.data[x] == m.data[x]
    ensures IsChain(g, after.fat, ch) && ListingOk(g, m, ch) && ListingOk(g, after, ch)
    ensures after.root == m.root ==> Listing(g, after, ch) == Listing(g, m, ch)
  {
    hide Slots;
    forall i | 0 <= i < |ch| ensures after.fat[ch[i]] == m.fat[ch[i]] && after.data[ch[i]] == m.data[ch[i]] {
      assert ch[i] in ch && Valid(g, ch[i]);
    }
    SectorsSame(g, m.data, after.data, ch);
  }

  /** Changes to clusters of no chain keep every chain and every directory. */
  lemma KeptDirs(g: Geo, m: Vol, after: Vol, t: Tree)
    requires Shape(g, m) && Shape(g, after) && ChainsOk(g, m.fat, t) && DirsOk(g, t) && Kept(t, m, after)
    ensures ChainsOk(g, after.fat, t)
    ensures forall d :: d in t.dirs ==> DirOf(g, after, t, d) == DirOf(g, m, t, d)
  {
    hide IsChain, Listing, ListingOk;
    forall s | s in t.chains ensures IsChain(g, after.fat, t.chains[s]) && DirOf(g, after, t, s) == DirOf(g, m, t, s) {
      SameChain(g, m, after, t.chains[s]);
    }
    if 0 in t.dirs && 0 !in t.chains { SameRoot(g, m, after); }
  }

  lemma SameRoot(g: Geo, m: Vol, after: Vol)
    requires Shape(g, m) && Shape(g, after) && after.root == m.root
    ensures ListingOk(g, m, []) && ListingOk(g, after, []) && Listing(g, after, []) == Listing(g, m, [])
  {
  }

  lemma KeptWellFormed(g: Geo, m: Vol, after: Vol, t: Tree, h: set<(nat, nat)>)
    requires WellFormed(g, m, t, h) && Shape(g, after) && Kept(t, m, after)
    ensures WellFormed(g, after, t, h)
    ensures forall d :: d in t.dirs ==> DirOf(g, after, t, d) == DirOf(g, m, t, d)
  {
    hide Shape, ChainsOk, Apart, DirsOk, EntriesOk, ZeroTail, Kept, DirOf;
    KeptDirs(g, m, after, t);
    TableSame(t, m, after);
  }

  lemma TableSame(t: Tree, m: Vol, after: Vol)
    requires Kept(t, m, after)
    ensures |after.fat| == |m.fat|
  {
  }

  /** Clusters on chains are not free, so taking free clusters keeps all chains. */
  lemma FramedKept(g: Geo, m: Vol, after: Vol, t: Tree, ch: seq<nat>)
    requires Shape(g, m) && TableOk(g, m.fat) && ChainsOk(g, m.fat, t) && Framed(m, after, ch)
    ensures Kept(t, m, after) && forall s :: s in t.chains ==> Disjoint(t.chains[s], ch)
  {
    hide IsChain;
    forall s | s in t.chains ensures Disjoint(t.chains[s], ch) {
      ChainInUse(g, m.fat, t.chains[s]);
    }
  }

  /** A new chain of clusters that were free, belonging to no entry yet. */
  function WithChain(t: Tree, ch: seq<nat>): Tree
    requires ch != []
  {
    t.(chains := t.chains[ch[0] := ch])
  }

  lemma ChainAdded(g: Geo, m: Vol, after: Vol, t: Tree, h: set<(nat, nat)>, ch: seq<nat>)
    requires WellFormed(g, m, t, h) && Shape(g, after) && Framed(m, after, ch) && ch != [] && IsChain(g, after.fat, ch)
    ensures WellFormed(g, after, WithChain(t, ch), h) && ch[0] !in t.chains
    ensures forall d :: d in t.dirs ==> DirOf(g, after, WithChain(t, ch), d) == DirOf(g, m, t, d)
  {
    hide IsChain, Listing, Shape, ListingOk, EntriesOk, ZeroTail;
    FramedKept(g, m, after, t, ch);
    KeptDirs(g, m, after, t);
    assert ch[0] in ch;
    assert ch[0] !in t.chains;
    var u := WithChain(t, ch);
    FramedTable(m, after, ch);
    forall d | d in t.dirs ensures ChainOf(u, d) == ChainOf(t, d) {
      assert ch[0] >= 2;
    }
    forall d | d in t.dirs ensures EntriesOk(g, u, d, DirOf(g, m, t, d), h) {
      SameEntries(g, t, u, h, d, DirOf(g, m, t, d));
    }
    assert Apart(u) by {
      forall a, b | a in u.chains && b in u.chains && a != b ensures Disjoint(u.chains[a], u.chains[b]) {
        if a == ch[0] { assert Disjoint(t.chains[b], ch); }
      }
    }
  }

  lemma FramedTable(m: Vol, after: Vol, ch: seq<nat>)
    requires Framed(m, after, ch)
    ensures |after.fat| == |m.fat| && forall x :: x in ch ==> 2 <= x
  {
  }

  /** A directory of a well-formed volume is where the driver looks for it. */
  lemma DirLocated(g: Geo, m: Vol, t: Tree, h: set<(nat, nat)>, d: nat)
    requires WellFormed(g, m, t, h) && d in t.dirs
    ensures Located(g, m, d, ChainOf(t, d)) && ListingOk(g, m, ChainOf(t, d))
    ensures DirOf(g, m, t, d) == Listing(g, m, ChainOf(t, d))
  {
    hide Listing, Apart, DirsGood, IsChain;
    if d == 0 { ZeroNoChain(g, m, t); }
    LocatedOk(g, m, d, ChainOf(t, d));
  }

  lemma ZeroNoChain(g: Geo, m: Vol, t: Tree)
    requires Shape(g, m) && ChainsOk(g, m.fat, t)
    ensures 0 !in t.chains && forall s :: s in t.chains ==> Valid(g, s)
  {
    forall s | s in t.chains ensures Valid(g, s) {
      assert Valid(g, t.chains[s][0]);
    }
  }

  /** Writing a slot of one directory leaves the chains and the other directories alone. */
  lemma OtherDirsKept(g: Geo, m: Vol, after: Vol, t: Tree, d: nat, i: nat, e: Slot)
    requires Shape(g, m) && Shape(g, after) && ChainsOk(g, m.fat, t) && Apart(t) && DirsOk(g, t) && d in t.dirs
    requires ListingOk(g, m, ChainOf(t, d)) && i < |Listing(g, m, ChainOf(t, d))|
    requires SlotPut(g, m, after, ChainOf(t, d), i, e)
    ensures DirOf(g, after, t, d) == DirOf(g, m, t, d)[i := e]
    ensures forall b :: b in t.dirs && b != d ==> DirOf(g, after, t, b) == DirOf(g, m, t, b)
  {
    hide IsChain, Listing, Shape, ListingOk;
    ZeroNoChain(g, m, t);
    forall b | b in t.dirs && b != d ensures DirOf(g, after, t, b) == DirOf(g, m, t, b) {
      if b == 0 {
        SameRoot(g, m, after);
      } else {
        assert d in t.chains ==> Disjoint(t.chains[b], t.chains[d]);
        SameDir(g, m, after, t.chains[b], ChainOf(t, d), i, e);
      }
    }
  }

  lemma SameDir(g: Geo, m: Vol, after: Vol, ch: seq<nat>, put: seq<nat>, i: nat, e: Slot)
    requires Shape(g, m) && Shape(g, after) && IsChain(g, m.fat, ch) && Disjoint(ch, put)
    requires ListingOk(g, m, put) && i < |Listing(g, m, put)| && SlotPut(g, m, after, put, i, e)
    ensures ListingOk(g, m, ch) && ListingOk(g, after, ch) && Listing(g, after, ch) == Listing(g, m, ch)
  {
    hide Slots;
    SectorsSame(g, m.data, after.data, ch);
  }

  /** The chain from c now belongs to the entry in slot i of d. */
  function Owned(t: Tree, c: nat, d: nat, i: nat): Tree {
    if c == 0 then t else t.(owner := t.owner[c := (d, i)])
  }

  /** An entry's chain is known and belongs to no entry yet; a free slot needs none. */
  ghost predicate Fits(g: Geo, t: Tree, d: nat, e: Slot)
    requires |e| == SLOT
  {
    var c := FirstCluster(g.kind, e);
    if !Object(e) then true
    else if c == 0 then !IsDirectory(e)
    else c != d && c in t.chains && c !in t.owner && c != RootId(g) && (IsDirectory(e) <==> c in t.dirs)
  }

  function OwnedBy(g: Geo, t: Tree, e: Slot, d: nat, i: nat): Tree
    requires |e| == SLOT
  {
    if Object(e) then Owned(t, FirstCluster(g.kind, e), d, i) else t
  }

  /** No chain belongs to the entry in slot i of d. */
  ghost predicate Unowned(t: Tree, d: nat, i: nat) {
    forall c :: c in t.owner ==> t.owner[c] != (d, i)
  }

  /** To a slot without an entry nothing belongs, nor to the slot of a file without clusters. */
  lemma SlotUnowned(g: Geo, m: Vol, t: Tree, d: nat, i: nat)
    requires WellFormed(g, m, t, {}) && d in t.dirs && i < |DirOf(g, m, t, d)|
    requires Object(DirOf(g, m, t, d)[i]) ==> FirstCluster(g.kind, DirOf(g, m, t, d)[i]) == 0
    ensures Unowned(t, d, i)
  {
    hide Apart, DirOf, Object, FirstCluster, ZeroTail, Shape;
    ZeroNoChain(g, m, t);
    assert EntriesOk(g, t, d, DirOf(g, m, t, d), {});
  }

  /** To the slot of an entry nothing belongs but what the entry leads to. */
  lemma EntryOwns(g: Geo, m: Vol, t: Tree, d: nat, i: nat)
    requires WellFormed(g, m, t, {}) && d in t.dirs && i < |DirOf(g, m, t, d)| && Object(DirOf(g, m, t, d)[i])
    ensures EntryOk(g, t, d, i, DirOf(g, m, t, d)[i])
    ensures forall x :: x in t.owner && t.owner[x] == (d, i) ==> x == FirstCluster(g.kind, DirOf(g, m, t, d)[i])
  {
    hide ChainsOk, Apart, DirOf, Object, FirstCluster, ZeroTail, Shape;
    assert EntriesOk(g, t, d, DirOf(g, m, t, d), {});
  }

  /** An entry of a directory leads to one that names the entry's directory as its parent. */
  ghost predicate Named(g: Geo, m: Vol, t: Tree, d: nat, e: Slot)
    requires |e| == SLOT
  {
    var c := FirstCluster(g.kind, e);
    Object(e) && IsDirectory(e) ==> Dotted(g, DirOf(g, m, t, c), c, d)
  }

  /** Putting an entry whose chain fits, where the end marks stay last, gives a well-formed volume. */
  lemma EntryPut(g: Geo, m: Vol, after: Vol, t: Tree, h: set<(nat, nat)>, d: nat, i: nat, e: Slot)
    requires WellFormed(g, m, t, h) && d in t.dirs && Shape(g, after) && |e| == SLOT && Fits(g, t, d, e)
    requires ListingOk(g, m, ChainOf(t, d)) && i < |Listing(g, m, ChainOf(t, d))|
    requires SlotPut(g, m, after, ChainOf(t, d), i, e)
    requires ZeroTail(DirOf(g, m, t, d)[i := e]) && (d in t.owner ==> i >= 2) && Named(g, m, t, d, e)
    requires Unowned(t, d, i)
    ensures WellFormed(g, after, OwnedBy(g, t, e, d, i), h - {(d, i)})
    ensures DirOf(g, after, OwnedBy(g, t, e, d, i), d) == DirOf(g, m, t, d)[i := e]
    ensures forall b :: b in t.dirs && b != d ==> DirOf(g, after, OwnedBy(g, t, e, d, i), b) == DirOf(g, m, t, b)
  {
    hide IsChain, Listing, Shape, ListingOk, ZeroTail, EntriesOk;
    OtherDirsKept(g, m, after, t, d, i, e);
    var u := OwnedBy(g, t, e, d, i);
    SameTable(g, m, after, ChainOf(t, d), i, e);
    forall b | b in t.dirs ensures DirOf(g, after, u, b) == DirOf(g, after, t, b) {
    }
    forall b | b in t.dirs ensures EntriesOk(g, u, b, DirOf(g, after, u, b), h - {(d, i)}) {
      EntriesStay(g, t, h, b, DirOf(g, m, t, b), d, i, e);
    }
  }

  lemma SameTable(g: Geo, m: Vol, after: Vol, ch: seq<nat>, i: nat, e: Slot)
    requires ListingOk(g, m, ch) && i < |Listing(g, m, ch)| && SlotPut(g, m, after, ch, i, e)
    ensures after.fat == m.fat && i < |Listing(g, m, ch)|
  {
  }

  lemma EntriesStay(g: Geo, t: Tree, h: set<(nat, nat)>, b: nat, dir: seq<Slot>, d: nat, i: nat, e: Slot)
    requires SlotsOk(dir) && EntriesOk(g, t, b, dir, h) && |e| == SLOT && Fits(g, t, d, e) && b in t.dirs
    requires (b == d ==> i < |dir|) && Unowned(t, d, i)
    requires b == d && d in t.owner ==> i >= 2
    requires Object(e) && IsDirectory(e) && b == FirstCluster(g.kind, e) ==> Dotted(g, dir, b, d)
    ensures EntriesOk(g, OwnedBy(g, t, e, d, i), b, if b == d then dir[i := e] else dir, h - {(d, i)})
  {
    hide Object, FirstCluster, IsDirectory;
    var u := OwnedBy(g, t, e, d, i);
    var now := if b == d then dir[i := e] else dir;
    forall j | 0 <= j < |now| && Object(now[j]) && (b, j) !in h - {(d, i)} ensures EntryOk(g, u, b, j, now[j]) {
      if (b, j) != (d, i) {
        assert now[j] == dir[j];
        assert EntryOk(g, t, b, j, dir[j]);
      }
    }
  }

  function WithoutChain(t: Tree, s: nat): Tree {
    t.(chains := t.chains - {s}, owner := t.owner - {s})
  }

  /** A chain that belongs to no entry taken into account can be forgotten. */
  lemma ChainDropped(g: Geo, m: Vol, t: Tree, h: set<(nat, nat)>, s: nat)
    requires WellFormed(g, m, t, h) && s in t.chains && s !in t.dirs && (s in t.owner ==> t.owner[s] in h)
    ensures WellFormed(g, m, WithoutChain(t, s), h)
    ensures forall d :: d in t.dirs ==> DirOf(g, m, WithoutChain(t, s), d) == DirOf(g, m, t, d)
  {
    hide Shape, ZeroTail, EntriesOk, ChainsOk, Apart, DirsOk, DirOf;
    var u := WithoutChain(t, s);
    ForgetChain(g, m, t, s);
    forall d | d in t.dirs ensures EntriesOk(g, u, d, DirOf(g, m, t, d), h) {
      EntriesForget(g, t, h, d, DirOf(g, m, t, d), s);
    }
  }

  lemma ForgetChain(g: Geo, m: Vol, t: Tree, s: nat)
    requires |m.fat| == g.count + 2 && ChainsOk(g, m.fat, t) && Apart(t) && DirsOk(g, t) && s !in t.dirs
    ensures var u := WithoutChain(t, s);
      && ChainsOk(g, m.fat, u) && Apart(u) && DirsOk(g, u)
      && (forall d :: d in t.dirs ==> DirOf(g, m, u, d) == DirOf(g, m, t, d))
  {
    hide IsChain, Disjoint, Listing, ListingOk;
  }

  lemma EntriesForget(g: Geo, t: Tree, h: set<(nat, nat)>, d: nat, dir: seq<Slot>, s: nat)
    requires SlotsOk(dir) && EntriesOk(g, t, d, dir, h) && s in t.chains && (s in t.owner ==> t.owner[s] in h)
    ensures EntriesOk(g, WithoutChain(t, s), d, dir, h)
  {
    hide Object, FirstCluster, IsDirectory;
  }

  /** Freeing a chain that belongs to no entry taken into account. */
  lemma ChainFreed(g: Geo, m: Vol, t: Tree, h: set<(nat, nat)>, s: nat)
    requires WellFormed(g, m, t, h) && s in t.chains && s !in t.dirs && (s in t.owner ==> t.owner[s] in h)
    ensures WellFormed(g, FreeView(g, m, s), WithoutChain(t, s), h)
    ensures forall d :: d in t.dirs ==> DirOf(g, FreeView(g, m, s), WithoutChain(t, s), d) == DirOf(g, m, t, d)
    ensures forall x :: 0 <= x < |m.fat| ==> FreeView(g, m, s).fat[x] == if x in t.chains[s] then 0 else m.fat[x]
    ensures Shape(g, FreeView(g, m, s)) && Conserves(g, m, FreeView(g, m, s))
  {
    hide IsChain, FreeView, DirsGood, DirOf, ZeroTail, EntriesOk, Conserves;
    var u := WithoutChain(t, s);
    FreesChain(g, m.fat, t.chains[s]);
    FreeShape(g, m, s);
    FreeConserves(g, m, s);
    ChainDropped(g, m, t, h, s);
    forall a, x | a in u.chains && x in u.chains[a] ensures x !in t.chains[s] {
      assert Disjoint(t.chains[a], t.chains[s]);
    }
    KeptWellFormed(g, m, FreeView(g, m, s), u, h);
  }

  /** A directory is one no more, and what its entries led to belongs to no entry. */
  function Undir(t: Tree, s: nat): Tree {
    t.(dirs := t.dirs - {s}, owner := map c | c in t.owner && t.owner[c].0 != s :: t.owner[c])
  }

  /** A directory whose entry is left out of account stops being one. */
  lemma DirRemoved(g: Geo, m: Vol, t: Tree, h: set<(nat, nat)>, s: nat)
    requires WellFormed(g, m, t, h) && s in t.dirs && s in t.owner && t.owner[s] in h
    ensures WellFormed(g, m, Undir(t, s), h)
    ensures forall d :: d in t.dirs ==> DirOf(g, m, Undir(t, s), d) == DirOf(g, m, t, d)
  {
    hide Shape, ZeroTail, EntriesOk, ChainsOk, Apart, DirsOk, DirOf;
    var u := Undir(t, s);
    UndirChains(g, m, t, s);
    forall d | d in u.dirs ensures EntriesOk(g, u, d, DirOf(g, m, t, d), h) {
      EntriesUndir(g, t, h, d, DirOf(g, m, t, d), s);
    }
  }

  lemma UndirChains(g: Geo, m: Vol, t: Tree, s: nat)
    requires |m.fat| == g.count + 2 && ChainsOk(g, m.fat, t) && Apart(t) && DirsOk(g, t) && s in t.owner
    ensures var u := Undir(t, s);
      && ChainsOk(g, m.fat, u) && Apart(u) && DirsOk(g, u)
      && (forall d :: d in t.dirs ==> DirOf(g, m, u, d) == DirOf(g, m, t, d))
  {
    hide ChainsOk, Apart, DirOf;
    SameChains(g, m, t, Undir(t, s));
  }

  lemma SameChains(g: Geo, m: Vol, t: Tree, u: Tree)
    requires |m.fat| == g.count + 2 && ChainsOk(g, m.fat, t) && Apart(t) && u.chains == t.chains
    ensures ChainsOk(g, m.fat, u) && Apart(u) && forall d :: DirOf(g, m, u, d) == DirOf(g, m, t, d)
  {
    hide IsChain, Disjoint, Listing, ListingOk;
  }

  lemma EntriesUndir(g: Geo, t: Tree, h: set<(nat, nat)>, d: nat, dir: seq<Slot>, s: nat)
    requires SlotsOk(dir) && EntriesOk(g, t, d, dir, h) && s in t.owner && t.owner[s] in h && d != s
    ensures EntriesOk(g, Undir(t, s), d, dir, h)
  {
    hide Object, FirstCluster, IsDirectory;
  }

  /** A directory without entries, to whose slots nothing belongs. */
  lemma NoEntries(g: Geo, t: Tree, d: nat, dir: seq<Slot>, h: set<(nat, nat)>)
    requires SlotsOk(dir) && d !in t.owner && forall c :: c in t.owner ==> t.owner[c].0 != d
    requires forall i :: 0 <= i < |dir| ==> !Object(dir[i])
    ensures EntriesOk(g, t, d, dir, h)
  {
  }

  /** A chain that belongs to no entry, and whose slots hold none, becomes a directory. */
  lemma DirAdded(g: Geo, m: Vol, t: Tree, h: set<(nat, nat)>, s: nat)
    requires WellFormed(g, m, t, h) && s in t.chains && s !in t.owner && s !in t.dirs && ZeroTail(DirOf(g, m, t, s))
    requires forall i :: 0 <= i < |DirOf(g, m, t, s)| ==> !Object(DirOf(g, m, t, s)[i])
    ensures WellFormed(g, m, t.(dirs := t.dirs + {s}), h)
    ensures forall d :: d in t.dirs || d == s ==> DirOf(g, m, t.(dirs := t.dirs + {s}), d) == DirOf(g, m, t, d)
  {
    hide IsChain, Listing, Shape, ListingOk, ZeroTail, EntriesOk, Disjoint;
    var u := t.(dirs := t.dirs + {s});
    assert EntriesOk(g, u, s, DirOf(g, m, t, s), h) by { NoEntries(g, u, s, DirOf(g, m, t, s), h); }
    forall d | d in t.dirs ensures EntriesOk(g, u, d, DirOf(g, m, t, d), h) {
      EntriesDir(g, t, h, d, DirOf(g, m, t, d), s);
    }
    assert s != 0 by { assert Shape(g, m); ZeroNoChain(g, m, t); }
  }

  lemma EntriesDir(g: Geo, t: Tree, h: set<(nat, nat)>, d: nat, dir: seq<Slot>, s: nat)
    requires SlotsOk(dir) && EntriesOk(g, t, d, dir, h) && s !in t.owner
    ensures EntriesOk(g, t.(dirs := t.dirs + {s}), d, dir, h)
  {
    hide Object, FirstCluster, IsDirectory;
  }

  lemma HoleAdded(g: Geo, m: Vol, t: Tree, h: set<(nat, nat)>, d: nat, i: nat)
    requires WellFormed(g, m, t, h)
    ensures WellFormed(g, m, t, h + {(d, i)})
  {
    hide IsChain, DirOf, Shape, ZeroTail;
  }

  /** The end marks that a zeroed cluster adds to a directory. */
  ghost function EndMarks(g: Geo): (r: seq<Slot>)
    ensures |r| == 16 * g.spc && forall i :: 0 <= i < |r| ==> |r[i]| == SLOT && r[i] == Zeros(SLOT)
  {
    seq(16 * g.spc, _ => Zeros(SLOT))
  }

  lemma ZeroSlots(g: Geo)
    ensures Full(ZeroCluster(g)) && Slots(ZeroCluster(g)) == EndMarks(g)
  {
    forall i | 0 <= i < 16 * g.spc ensures Slots(ZeroCluster(g))[i] == EndMarks(g)[i] {
      assert Zeros(SECTOR)[i % 16 * 32..i % 16 * 32 + 32] == Zeros(SLOT);
    }
  }

  lemma SectorsMore(g: Geo, data: seq<Disk>, ch: seq<nat>, c: nat)
    requires ClustersOk(g, data, ch) && Valid(g, c)
    ensures ClustersOk(g, data, ch + [c]) && Sectors(g, data, ch + [c]) == Sectors(g, data, ch) + data[c]
  {
    assert (ch + [c])[..|ch|] == ch;
  }

  /** The slots of a directory that got another cluster. */
  lemma GrownListing(g: Geo, m: Vol, ch: seq<nat>, c: nat)
    requires Shape(g, m) && TableOk(g, m.fat) && IsChain(g, m.fat, ch) && Valid(g, c) && m.fat[c] == 0
    ensures ListingOk(g, m, ch) && Valid(g, ch[|ch| - 1])
    ensures Shape(g, Grown(g, m, ch, c)) && ListingOk(g, Grown(g, m, ch, c), ch + [c])
    ensures Listing(g, Grown(g, m, ch, c), ch + [c]) == Listing(g, m, ch) + EndMarks(g)
  {
    hide Slots, Sectors, ZeroCluster, AdjustInfo;
    var after := Grown(g, m, ch, c);
    FreeOffChain(g, m.fat, ch, c);
    assert after.data == m.data[c := ZeroCluster(g)];
    SectorsSame(g, m.data, after.data, ch);
    SectorsMore(g, after.data, ch, c);
    ZeroSlots(g);
    SlotsJoined(Sectors(g, m.data, ch), ZeroCluster(g));
  }

  /** A chain grown by a free cluster; the other chains are as before. */
  lemma GrownChains(g: Geo, m: Vol, t: Tree, d: nat, c: nat)
    requires Shape(g, m) && TableOk(g, m.fat) && ChainsOk(g, m.fat, t) && Apart(t) && d in t.chains
    requires Valid(g, c) && m.fat[c] == 0
    ensures Valid(g, t.chains[d][|t.chains[d]| - 1]) && c !in t.chains && c !in t.chains[d]
    ensures Shape(g, Grown(g, m, t.chains[d], c)) && IsChain(g, Grown(g, m, t.chains[d], c).fat, t.chains[d] + [c])
    ensures forall s, x :: s in t.chains && x in t.chains[s] ==> x != c && Valid(g, x)
    ensures forall s, x :: s in t.chains && s != d && x in t.chains[s] ==>
      Grown(g, m, t.chains[d], c).fat[x] == m.fat[x]
    ensures forall s, x :: s in t.chains && s != d && x in t.chains[s] ==>
      Grown(g, m, t.chains[d], c).data[x] == m.data[x]
  {
    hide IsChain, Listing, ListingOk, AdjustInfo, ZeroCluster;
    var ch := t.chains[d];
    GrownListing(g, m, ch, c);
    ChainGrows(g, m.fat, ch, c);
    var last := ch[|ch| - 1];
    forall s | s in t.chains
      ensures c !in t.chains[s] && (s != d ==> last !in t.chains[s]) && forall x :: x in t.chains[s] ==> Valid(g, x)
    {
      FreeOffChain(g, m.fat, t.chains[s], c);
      ChainInUse(g, m.fat, t.chains[s]);
      if s != d {
        assert Disjoint(t.chains[d], t.chains[s]) && last in ch;
      }
    }
    assert Grown(g, m, ch, c).fat == Linked(g, m.fat, ch, c);
    assert forall s :: s in t.chains ==> t.chains[s][0] == s;
  }

  function WithGrown(t: Tree, d: nat, c: nat): Tree
    requires d in t.chains
  {
    t.(chains := t.chains[d := t.chains[d] + [c]])
  }

  lemma DirGrown(g: Geo, m: Vol, t: Tree, h: set<(nat, nat)>, d: nat, c: nat)
    requires WellFormed(g, m, t, h) && d in t.dirs && d in t.chains && Valid(g, c) && m.fat[c] == 0
    ensures Valid(g, t.chains[d][|t.chains[d]| - 1])
    ensures WellFormed(g, Grown(g, m, t.chains[d], c), WithGrown(t, d, c), h)
    ensures DirOf(g, Grown(g, m, t.chains[d], c), WithGrown(t, d, c), d) == DirOf(g, m, t, d) + EndMarks(g)
    ensures forall b :: b in t.dirs && b != d ==>
      DirOf(g, Grown(g, m, t.chains[d], c), WithGrown(t, d, c), b) == DirOf(g, m, t, b)
  {
    hide IsChain, Listing, ListingOk, Grown, ZeroTail, EntriesOk, FullCluster, Full, Apart, Disjoint;
    var ch := t.chains[d];
    GrownChains(g, m, t, d, c);
    var after, u := Grown(g, m, ch, c), WithGrown(t, d, c);
    GrownListing(g, m, ch, c);
    GrownApart(t, d, c);
    GrownRoot(g, m, ch, c);
    forall b | b in t.chains && b != d
      ensures IsChain(g, after.fat, t.chains[b]) && DirOf(g, after, u, b) == DirOf(g, m, t, b)
    {
      SameChain(g, m, after, t.chains[b]);
    }
    if 0 in t.dirs && 0 !in t.chains { SameRoot(g, m, after); }
    GrownEntries(g, t, u, h, d, DirOf(g, m, t, d));
    forall b | b in t.dirs && b != d
      ensures EntriesOk(g, u, b, DirOf(g, m, t, b), h)
    {
      SameEntries(g, t, u, h, b, DirOf(g, m, t, b));
    }
  }

  lemma GrownRoot(g: Geo, m: Vol, ch: seq<nat>, c: nat)
    requires Shape(g, m) && Valid(g, c) && ch != [] && ch[|ch| - 1] < |m.fat|
    ensures Grown(g, m, ch, c).root == m.root && |Grown(g, m, ch, c).fat| == |m.fat|
  {
  }

  lemma GrownApart(t: Tree, d: nat, c: nat)
    requires Apart(t) && d in t.chains && forall s :: s in t.chains ==> c !in t.chains[s]
    ensures Apart(WithGrown(t, d, c))
  {
    var u := WithGrown(t, d, c);
    forall a, b | a in u.chains && b in u.chains && a != b ensures Disjoint(u.chains[a], u.chains[b]) {
      assert Disjoint(t.chains[a], t.chains[b]);
    }
  }

  lemma SameEntries(g: Geo, t: Tree, u: Tree, h: set<(nat, nat)>, d: nat, dir: seq<Slot>)
    requires SlotsOk(dir) && EntriesOk(g, t, d, dir, h) && u.owner == t.owner && u.dirs == t.dirs
    requires t.chains.Keys <= u.chains.Keys
    ensures EntriesOk(g, u, d, dir, h)
  {
    hide Object, FirstCluster, IsDirectory;
  }

  /** End marks added at the end keep a directory sound. */
  lemma GrownEntries(g: Geo, t: Tree, u: Tree, h: set<(nat, nat)>, d: nat, dir: seq<Slot>)
    requires SlotsOk(dir) && ZeroTail(dir) && EntriesOk(g, t, d, dir, h) && u.owner == t.owner
    requires u.dirs == t.dirs && t.chains.Keys <= u.chains.Keys
    ensures SlotsOk(dir + EndMarks(g)) && ZeroTail(dir + EndMarks(g)) && EntriesOk(g, u, d, dir + EndMarks(g), h)
  {
    hide FirstCluster, IsDirectory;
    SameEntries(g, t, u, h, d, dir);
  }

  /** A way down from the root directory, each directory entered in the one before. */
  ghost predicate Path(g: Geo, t: Tree, p: seq<nat>, d: nat) {
    && |p| > 0 && p[0] == RootId(g) && p[|p| - 1] == d
    && (forall i :: 0 <= i < |p| ==> p[i] in t.dirs)
    && (forall i :: 0 < i < |p| ==> p[i] in t.owner && t.owner[p[i]].0 == p[i - 1])
  }

  /** A directory that can be reached from the root. */
  ghost predicate Rooted(g: Geo, t: Tree, d: nat) {
    exists p :: Path(g, t, p, d)
  }

  /** Directories that have an entry keep it, in the same slot. */
  ghost predicate DirsStay(t: Tree, u: Tree) {
    forall x :: x in t.dirs && x in t.owner ==> x in u.dirs && x in u.owner && u.owner[x] == t.owner[x]
  }

  /** Every step of a way down is by an entry on the volume: one in the directory before, marked as that of a
      directory, that leads to the next. */
  lemma PathEntries(g: Geo, m: Vol, t: Tree, p: seq<nat>, d: nat, i: nat)
    requires WellFormed(g, m, t, {}) && Path(g, t, p, d) && 0 < i < |p|
    ensures Enters(g, DirOf(g, m, t, p[i - 1]), t.owner[p[i]].1, p[i])
    ensures IsDirectory(DirOf(g, m, t, p[i - 1])[t.owner[p[i]].1])
  {
    hide ChainsOk, Apart, DirOf, Object, FirstCluster, IsDirectory, ZeroTail, Shape;
    ZeroNoChain(g, m, t);
    var j := t.owner[p[i]].1;
    assert p[i - 1] in t.dirs && t.owner[p[i]] == (p[i - 1], j);
    var dir := DirOf(g, m, t, p[i - 1]);
    assert EntriesOk(g, t, p[i - 1], dir, {});
    assert EntryOk(g, t, p[i - 1], j, dir[j]);
  }

  lemma RootedStays(g: Geo, t: Tree, u: Tree, d: nat)
    requires Rooted(g, t, d) && DirsStay(t, u) && RootId(g) in u.dirs
    ensures Rooted(g, u, d)
  {
    var p :| Path(g, t, p, d);
    assert Path(g, u, p, d);
  }

  /** A directory lies on no way down to the one that it is entered in. */
  lemma {:induction false} NotAbove(g: Geo, t: Tree, p: seq<nat>, d: nat, c: nat, j: nat)
    requires DirsOk(g, t) && Path(g, t, p, d) && c in t.owner && t.owner[c].0 == d && j < |p|
    ensures p[j] != c
  {
    if j > 0 && p[j] == c { NoReturn(g, t, p, j - 1, |p| - 1); }
  }

  /** A way down visits no directory twice. */
  lemma {:induction false} NoReturn(g: Geo, t: Tree, p: seq<nat>, i: nat, j: nat)
    requires DirsOk(g, t) && |p| > 0 && Path(g, t, p, p[|p| - 1]) && i < j < |p|
    ensures p[i] != p[j]
  {
    if i > 0 && p[i] == p[j] { NoReturn(g, t, p, i - 1, j - 1); }
  }

  /** Removing a directory leaves the one that it is entered in reachable. */
  lemma RootedWithout(g: Geo, t: Tree, u: Tree, d: nat, c: nat)
    requires DirsOk(g, t) && Rooted(g, t, d) && c in t.owner && t.owner[c].0 == d && RootId(g) in u.dirs
    requires forall x :: x in t.dirs && x in t.owner && x != c && t.owner[x].0 != c ==>
      x in u.dirs && x in u.owner && u.owner[x] == t.owner[x]
    ensures Rooted(g, u, d)
  {
    var p :| Path(g, t, p, d);
    forall j | 0 <= j < |p| ensures p[j] != c { NotAbove(g, t, p, d, c, j); }
    forall j | 0 < j < |p| ensures p[j] in u.dirs && p[j] in u.owner && u.owner[p[j]] == t.owner[p[j]] {
      assert t.owner[p[j]].0 == p[j - 1];
    }
    assert Path(g, u, p, d);
  }

  /** The directory that a reachable one other than the root is entered in is reachable. */
  lemma ParentRooted(g: Geo, t: Tree, d: nat)
    requires Rooted(g, t, d) && d != RootId(g)
    ensures d in t.owner && t.owner[d].0 in t.dirs && Rooted(g, t, t.owner[d].0)
  {
    var p :| Path(g, t, p, d);
    var n := |p| - 1;
    assert Path(g, t, p[..n], t.owner[d].0);
  }

  lemma ChildRooted(g: Geo, t: Tree, d: nat, c: nat)
    requires Rooted(g, t, d) && c in t.dirs && c in t.owner && t.owner[c].0 == d
    ensures Rooted(g, t, c)
  {
    var p :| Path(g, t, p, d);
    assert Path(g, t, p + [c], c);
  }

  lemma RootRooted(g: Geo, t: Tree)
    requires RootId(g) in t.dirs
    ensures Rooted(g, t, RootId(g))
  {
    assert Path(g, t, [RootId(g)], RootId(g));
  }
}
