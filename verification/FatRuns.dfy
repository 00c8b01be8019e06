/** Runs of file operations: what holds of a well-formed volume after any of them. */
module FatRuns {
  import opened Bytes
  import opened Geometry
  import opened FatCodec
  import opened FatDisk
  import opened FatChains
  import opened FatVolume
  import opened FatSpace
  import opened FatDir
  import opened FatName
  import opened FatLookup
  import opened FatTree
  import opened FatRead
  import opened FatEntry
  import opened FatSteps
  import opened FatFiles
  import opened FatTreeOps

  datatype Op =
    | Write(name: seq<Byte>, data: seq<Byte>)
    | Remove(name: seq<Byte>)
    | MakeDir(name: seq<Byte>)
    | RemoveDir(name: seq<Byte>)
    | Enter(name: seq<Byte>)

  predicate Callable(op: Op) {
    0 !in op.name && (op.Write? ==> |op.data| < 0x1_0000_0000)
  }

  const UP: seq<Byte> := [DOT, DOT]

  predicate NamesRoot(name: seq<Byte>) {
    name == [] || name == [47]
  }

  /** A volume between two operations: what is on it, how it is made up, and the current directory. */
  datatype Moment = Moment(m: Vol, t: Tree, d: nat)

  ghost predicate Sound(g: Geo, s: Moment) {
    g.spc > 0 && WellFormed(g, s.m, s.t, {}) && s.d in s.t.dirs && Rooted(g, s.t, s.d)
  }

  lemma GoodIsSound(v: Volume, t: Tree)
    requires Good(v, t)
    ensures Sound(v.g, Moment(v.View(), t, v.current))
  {
    hide v.View, WellFormed, Rooted;
  }

  /** Where a change of directory leads: to the root, to the parent, or into a directory of the current one. */
  ghost function Destination(g: Geo, s: Moment, name: seq<Byte>): nat {
    if NamesRoot(name) then RootId(g)
    else if name == UP then (if s.d in s.t.owner then s.t.owner[s.d].0 else s.d)
    else if Names(g, s.m, s.t, s.d, name, true) then ClusterNamed(g, s.m, s.t, s.d, name)
    else s.d
  }

  /** Goes to the root, to the parent or into a directory of the current one. */
  method ChangeDirectory(v: Volume, name: seq<Byte>, ghost t: Tree) returns (ok: bool)
    requires Good(v, t)
    modifies v`current
    ensures Good(v, t) && v.View() == old(v.View())
    ensures ok <==> NamesRoot(name) || name == UP || Names(v.g, v.View(), t, old(v.current), name, true)
    ensures v.current == Destination(v.g, Moment(v.View(), t, old(v.current)), name)
  {
    hide WellFormed, Rooted, Names, ClusterNamed, DirOf;
    if name == [] || name == [47] {
      v.current := if v.g.kind == Fat32 then v.g.rootCluster else 0;
      AtRoot(v.g, v.View(), t);
      return true;
    }
    if name == UP {
      ok := GoUp(v, t);
      return;
    }
    ok := EnterDirectoryNamed(v, name, t);
  }

  lemma AtRoot(g: Geo, m: Vol, t: Tree)
    requires WellFormed(g, m, t, {})
    ensures RootId(g) in t.dirs && RootId(g) !in t.owner && Rooted(g, t, RootId(g))
  {
    hide Rooted, DirsGood, ChainsOk, Apart;
    RootRooted(g, t);
  }

  /** Follows the second dot entry of a directory to its parent. */
  method GoUp(v: Volume, ghost t: Tree) returns (ok: bool)
    requires Good(v, t)
    modifies v`current
    ensures Good(v, t) && v.View() == old(v.View()) && ok
    ensures v.current == if old(v.current) in t.owner then t.owner[old(v.current)].0 else old(v.current)
  {
    hide ChainsOk, Apart, DirsOk, DirsGood, DirOf, Full, FullCluster, FirstCluster, Listing, Located, ListingOk,
         ZeroTail, Rooted;
    AtRoot(v.g, v.View(), t);
    if (v.g.kind != Fat32 && v.current == 0) || (v.g.kind == Fat32 && v.current == v.g.rootCluster) { return true; }
    ghost var d := v.current;
    DirLocated(v.g, v.View(), t, {}, d);
    ParentNamed(v.g, v.View(), t, d);
    var x := DirRead(v, v.current, 1, ChainOf(t, d));
    if x == NoSlot { return false; }
    var p := FirstCluster(v.g.kind, x.e);
    v.current := if p != 0 then p else if v.g.kind == Fat32 then v.g.rootCluster else 0;
    ok := true;
  }

  /** The second slot of a directory that can be reached, other than the root, leads to its parent. */
  lemma ParentNamed(g: Geo, m: Vol, t: Tree, d: nat)
    requires WellFormed(g, m, t, {}) && d in t.dirs && Rooted(g, t, d) && d != RootId(g)
    requires (g.kind != Fat32 ==> g.rootCluster == 0)
    ensures d in t.owner && t.owner[d].0 in t.dirs && Rooted(g, t, t.owner[d].0)
    ensures |DirOf(g, m, t, d)| >= 2
    ensures var p := FirstCluster(g.kind, DirOf(g, m, t, d)[1]);
      t.owner[d].0 == if p == 0 then RootId(g) else p
  {
    hide Apart, DirOf, Full, FullCluster, FirstCluster, Listing, ListingOk, ZeroTail, Rooted, EntryOk;
    ParentRooted(g, t, d);
    WellFormedDir(g, m, t, {}, d);
    ZeroNoChain(g, m, t);
  }

  method EnterDirectoryNamed(v: Volume, name: seq<Byte>, ghost t: Tree) returns (ok: bool)
    requires Good(v, t)
    modifies v`current
    ensures Good(v, t) && v.View() == old(v.View()) && (ok <==> Names(v.g, v.View(), t, old(v.current), name, true))
    ensures v.current == if ok then ClusterNamed(v.g, v.View(), t, old(v.current), name) else old(v.current)
  {
    hide ChainsOk, Apart, DirsOk, DirsGood, DirOf, Full, FullCluster, Sfn, FirstCluster, Object, IsDirectory,
         Listing, Located, ListingOk, ZeroTail, Rooted;
    ghost var d := v.current;
    DirLocated(v.g, v.View(), t, {}, d);
    var r, e := FindEntry(v, v.current, name, ChainOf(t, d));
    if r == Missing || !IsDirectory(e) { return false; }
    FoundEntry(v.g, v.View(), t, d, r.i, name);
    ChildRooted(v.g, t, d, FirstCluster(v.g.kind, e));
    v.current := FirstCluster(v.g.kind, e);
    ok := true;
  }

  /** Going into a directory and then to the parent leads back. */
  lemma DownAndUp(g: Geo, s: Moment, name: seq<Byte>)
    requires Sound(g, s) && !NamesRoot(name) && name != UP && Names(g, s.m, s.t, s.d, name, true)
    ensures Destination(g, s.(d := Destination(g, s, name)), UP) == s.d
  {
    hide DirsGood, DirOf, FirstCluster, Sfn, Object, IsDirectory, Rooted;
    FoundEntry(g, s.m, s.t, s.d, FindFrom(DirOf(g, s.m, s.t, s.d), Sfn(name), 0).i, name);
  }

  /** A write that cannot be done, after the clusters of the file that it was to replace were given up. */
  ghost predicate Loses(g: Geo, s: Moment, op: Op)
    requires g.spc > 0
  {
    && op.Write? && op.name != [] && ReplacesFile(g, s.m, s.t, s.d, op.name)
    && !CanCreate(g, s.m, s.t, s.d, op.name, |op.data|)
  }

  /** What an operation does: when it succeeds, what it makes, and that all other names find what they did and
      all other files read as before. */
  ghost predicate Does(g: Geo, a: Moment, op: Op, b: Moment, ok: bool)
    requires g.spc > 0 && Shape(g, a.m) && Shape(g, b.m)
  {
    && Conserves(g, a.m, b.m)
    && (!op.Enter? ==> b.d == a.d && Unaffected(g, a.m, a.t, b.m, b.t, a.d, Sfn(op.name)))
    && match op
       case Write(name, data) => b.t.dirs == a.t.dirs && Writes(g, a, name, data, b, ok)
       case Remove(name) => b.t.dirs == a.t.dirs && Removes(g, a, name, b, ok)
       case MakeDir(name) => a.t.dirs <= b.t.dirs && MakesDir(g, a, name, b, ok)
       case RemoveDir(name) => RemovesDir(g, a, name, b, ok)
       case Enter(name) =>
         && b.m == a.m && b.t == a.t && b.d == Destination(g, a, name)
         && (ok <==> NamesRoot(name) || name == UP || Names(g, a.m, a.t, a.d, name, true))
  }

  ghost predicate Writes(g: Geo, a: Moment, name: seq<Byte>, data: seq<Byte>, b: Moment, ok: bool)
    requires g.spc > 0 && Shape(g, b.m)
  {
    && (ok <==> CanCreate(g, a.m, a.t, a.d, name, |data|))
    && (name == [] || Names(g, a.m, a.t, a.d, name, true) ==> b == a)
    && ListedAfter(g, a.m, a.t, a.d, name, |data|, DirOf(g, b.m, b.t, b.d), ok)
    && (!ok && name != [] && FindFrom(DirOf(g, a.m, a.t, a.d), Sfn(name), 0) == Missing ==>
          RoomMade(g, a.m, a.t, a.d, b.m.fat))
    && (ok && name != [] ==>
          (name[0] != DELETED <==> ReadsAs(g, b.m, DirOf(g, b.m, b.t, b.d), Sfn(name), data)))
  }

  ghost predicate Removes(g: Geo, a: Moment, name: seq<Byte>, b: Moment, ok: bool) {
    && (ok <==> Names(g, a.m, a.t, a.d, name, false))
    && (!ok ==> b == a)
    && (ok ==> NextFound(DirOf(g, a.m, a.t, a.d), DirOf(g, b.m, b.t, b.d), Sfn(name)))
    && (ok ==> StruckOut(DirOf(g, a.m, a.t, a.d), DirOf(g, b.m, b.t, b.d), Sfn(name)))
    && (ok ==> Freed(a.m.fat, b.m.fat, ChainOf(a.t, ClusterNamed(g, a.m, a.t, a.d, name))))
  }

  ghost predicate MakesDir(g: Geo, a: Moment, name: seq<Byte>, b: Moment, ok: bool)
    requires g.spc > 0
  {
    var r := FindFrom(DirOf(g, a.m, a.t, a.d), Sfn(name), 0);
    && (ok <==> name != [] && r == Missing && RoomForDirectory(g, a.m, a.t, a.d))
    && (name == [] || r.Found? ==> b == a)
    && (!ok && name != [] && r == Missing ==>
          if HasRoom(g, a.m, a.t, a.d) then RoomMade(g, a.m, a.t, a.d, b.m.fat) else FirstTaken(g, a.m.fat, b.m.fat))
    && (!ok && name != [] && r == Missing ==> OnlyRoom(g, a.m, a.t, a.d, DirOf(g, b.m, b.t, b.d)))
    && (ok ==> exists c: nat :: c !in a.t.dirs && Made(g, a, b, name, c))
  }

  ghost predicate Made(g: Geo, a: Moment, b: Moment, name: seq<Byte>, c: nat)
    requires g.spc > 0
  {
    && c < Range(g.kind) && UpField(g, b.d) < Range(g.kind)
    && MadeDirectory(g, b.m, b.t, b.d, name, c, UpField(g, b.d))
    && EnteredIn(g, DirOf(g, a.m, a.t, a.d), DirOf(g, b.m, b.t, b.d),
                 SetCluster(g.kind, FreshEntry(Sfn(name), DIRECTORY), c))
  }

  ghost predicate RemovesDir(g: Geo, a: Moment, name: seq<Byte>, b: Moment, ok: bool) {
    var c := ClusterNamed(g, a.m, a.t, a.d, name);
    && (ok <==> Names(g, a.m, a.t, a.d, name, true) && EmptyFrom(DirOf(g, a.m, a.t, c), 2))
    && (!ok ==> b == a)
    && (ok ==> b.t.dirs == a.t.dirs - {c} && Freed(a.m.fat, b.m.fat, ChainOf(a.t, c)))
    && (ok ==> NextFound(DirOf(g, a.m, a.t, a.d), DirOf(g, b.m, b.t, b.d), Sfn(name)))
    && (ok ==> StruckOut(DirOf(g, a.m, a.t, a.d), DirOf(g, b.m, b.t, b.d), Sfn(name)))
  }

  /** Exactly the clusters of a chain were freed. */
  ghost predicate Freed(fat: seq<nat>, now: seq<nat>, ch: seq<nat>) {
    && |now| == |fat|
    && forall x :: 0 <= x < |now| ==> now[x] == if x in ch then 0 else fat[x]
  }

  /** Does one operation. The volume stays well-formed, except exactly when a file is lost. */
  method Step(v: Volume, op: Op, ghost t: Tree) returns (ok: bool, lost: bool, ghost u: Tree)
    requires Good(v, t) && Callable(op)
    modifies v
    ensures v.Ok() && (lost <==> Loses(v.g, Moment(old(v.View()), t, old(v.current)), op))
    ensures Does(v.g, Moment(old(v.View()), t, old(v.current)), op, Moment(v.View(), u, v.current), ok)
    ensures !lost ==> Good(v, u)
    ensures lost ==> !Repairable(v.g, v.View(), v.current)
  {
    hide v.Ok, v.View, WellFormed, DirOf, Conserves, Full, FullCluster, Unaffected, ZeroSet, Sfn, FirstCluster,
         IsDirectory, ReadsAs, CanCreate, Names, ReplacesFile, Rooted, Destination, NextFound;
    hide FindFrom, MadeDirectory, RoomForDirectory, HasRoom, EmptyFrom, ClusterNamed, Repairable, RoomMade, FirstTaken;
    ghost var m, d := v.View(), v.current;
    NoChange(v.g, m, t, d, []);
    lost, u := false, t;
    match op {
      case Write(name, data) =>
        ok, lost, u := Create(v, name, data, t);
      case Remove(name) =>
        ok, u := Delete(v, name, t);
      case MakeDir(name) =>
        ghost var c;
        ok, u, c := Mkdir(v, name, t);
        assert ok ==> Made(v.g, Moment(m, t, d), Moment(v.View(), u, v.current), name, c);
      case RemoveDir(name) =>
        ok, u := Rmdir(v, name, t);
      case Enter(name) =>
        ok := ChangeDirectory(v, name, t);
    }
  }

  /** A run of operations: what it went through, one operation after the other. */
  ghost predicate IsRun(g: Geo, trace: seq<Moment>, ops: seq<Op>, results: seq<bool>) {
    && g.spc > 0 && |results| <= |ops| && |trace| == |results| + 1
    && (forall i :: 0 <= i < |trace| ==> Shape(g, trace[i].m))
    && (forall i :: 0 <= i < |results| ==> Sound(g, trace[i]) && Does(g, trace[i], ops[i], trace[i + 1], results[i]))
  }

  /** Does operations until one of them loses a file. Until then the volume is well-formed throughout. */
  method Run(v: Volume, ops: seq<Op>, ghost t: Tree) returns (results: seq<bool>, lost: bool, ghost trace: seq<Moment>)
    requires Good(v, t) && forall i :: 0 <= i < |ops| ==> Callable(ops[i])
    modifies v
    ensures v.Ok() && Conserves(v.g, old(v.View()), v.View()) && IsRun(v.g, trace, ops, results)
    ensures trace[0] == Moment(old(v.View()), t, old(v.current))
    ensures var now := trace[|results|];
      now.m == v.View() && now.d == v.current
    ensures !lost ==> |results| == |ops| && Good(v, trace[|results|].t)
    ensures forall i :: 0 <= i < |results| ==> (Loses(v.g, trace[i], ops[i]) <==> lost && i == |results| - 1)
    ensures lost ==> results != [] && !Repairable(v.g, v.View(), v.current)
  {
    hide v.Ok, v.View, WellFormed, DirOf, Conserves, Full, FullCluster, Loses, Repairable, Callable, Does, Rooted;
    ghost var m := v.View();
    NoChange(v.g, m, t, v.current, []);
    GoodIsSound(v, t);
    results, lost, trace := [], false, [Moment(m, t, v.current)];
    while |results| < |ops|
      invariant v.Ok() && |results| <= |ops| && IsRun(v.g, trace, ops, results) && Conserves(v.g, m, v.View())
      invariant trace[0] == Moment(m, t, old(v.current))
      invariant Good(v, trace[|results|].t) && trace[|results|] == Moment(v.View(), trace[|results|].t, v.current)
      invariant forall i :: 0 <= i < |results| ==> !Loses(v.g, trace[i], ops[i])
      decreases |ops| - |results|
    {
      ghost var now := trace[|results|];
      GoodIsSound(v, now.t);
      var ok;
      ghost var u;
      ok, lost, u := Step(v, ops[|results|], now.t);
      DoesConserve(v.g, now, ops[|results|], Moment(v.View(), u, v.current), ok);
      ConservesThen(v.g, m, now.m, v.View());
      results, trace := results + [ok], trace + [Moment(v.View(), u, v.current)];
      if lost { return; }
    }
  }

  lemma DoesConserve(g: Geo, a: Moment, op: Op, b: Moment, ok: bool)
    requires g.spc > 0 && Shape(g, a.m) && Shape(g, b.m) && Does(g, a, op, b, ok)
    ensures Conserves(g, a.m, b.m)
  {
  }

  /** A file in a directory, found under a name, with these bytes. */
  ghost predicate Holds(g: Geo, s: Moment, d: nat, name: seq<Byte>, data: seq<Byte>)
    requires g.spc > 0 && Shape(g, s.m)
  {
    d in s.t.dirs && ReadsAs(g, s.m, DirOf(g, s.m, s.t, d), Sfn(name), data)
  }

  /** An operation that writes or removes a file under a name in a directory. */
  ghost predicate Touches(s: Moment, op: Op, d: nat, name: seq<Byte>) {
    (op.Write? || op.Remove?) && s.d == d && Sfn(op.name) == Sfn(name)
  }

  /** A name that reads is found, and is not that of a directory. */
  lemma HeldIsFound(g: Geo, s: Moment, d: nat, name: seq<Byte>, data: seq<Byte>)
    requires Sound(g, s) && Holds(g, s, d, name, data)
    ensures var dir := DirOf(g, s.m, s.t, d);
      var r := FindFrom(dir, Sfn(name), 0);
      r.Found? && !IsDirectory(dir[r.i])
  {
    hide Full, FullCluster, DirsGood, ChainsOk, Apart, DirsOk, DirOf, Sfn, Rooted, FindFrom, IsDirectory;
    var dir := DirOf(g, s.m, s.t, d);
    assert ReadOutcome(g, s.m, dir, Sfn(name), |data|) == Contents(data);
  }

  lemma {:induction false} EmptyMeans(dir: seq<Slot>, j: nat, i: nat)
    requires SlotsOk(dir) && EmptyFrom(dir, j) && j <= i < |dir| && i < MAX_SLOTS
    requires forall k :: j <= k < i ==> dir[k][0] != 0
    ensures dir[i][0] == 0 || dir[i][0] == DELETED
    decreases i - j
  {
    if j < i { EmptyMeans(dir, j + 1, i); }
  }

  /** A directory in which a name is found is not the one that is removed. */
  lemma HolderStays(g: Geo, s: Moment, dirName: seq<Byte>, d: nat, name: seq<Byte>)
    requires Sound(g, s) && d in s.t.dirs && FindFrom(DirOf(g, s.m, s.t, d), Sfn(name), 0).Found?
    requires Names(g, s.m, s.t, s.d, dirName, true)
    requires EmptyFrom(DirOf(g, s.m, s.t, ClusterNamed(g, s.m, s.t, s.d, dirName)), 2)
    ensures ClusterNamed(g, s.m, s.t, s.d, dirName) != d
  {
    hide DirsGood, ChainsOk, Apart, DirOf, Full, FullCluster, Sfn, Rooted, FindFrom, IsDirectory, FirstCluster, ReadsAs,
         EmptyFrom, ZeroTail;
    var i := FindFrom(DirOf(g, s.m, s.t, d), Sfn(name), 0).i;
    FoundEntry(g, s.m, s.t, d, i, name);
    FoundEntry(g, s.m, s.t, s.d, FindFrom(DirOf(g, s.m, s.t, s.d), Sfn(dirName), 0).i, dirName);
    if ClusterNamed(g, s.m, s.t, s.d, dirName) == d { EmptyMeans(DirOf(g, s.m, s.t, d), 2, i); }
  }

  /** An operation keeps every file that it does not write or remove by name. */
  lemma StepKeeps(g: Geo, a: Moment, op: Op, b: Moment, ok: bool, d: nat, name: seq<Byte>, data: seq<Byte>)
    requires Sound(g, a) && Shape(g, b.m) && Does(g, a, op, b, ok) && Holds(g, a, d, name, data)
    requires !Touches(a, op, d, name)
    ensures Holds(g, b, d, name, data)
  {
    hide Full, FullCluster, DirsGood, ChainsOk, Apart, DirsOk, DirOf, Conserves, ReadOutcome, Sfn, CanCreate, Rooted,
         FindFrom, EmptyFrom, MadeDirectory, ClusterNamed, NextFound, RoomForDirectory, Destination, IsDirectory,
         Freed, Writes, Removes;
    HeldIsFound(g, a, d, name, data);
    if op.RemoveDir? && ok { HolderStays(g, a, op.name, d, name); }
    if !op.Enter? {
      if a.d == d && Sfn(op.name) == Sfn(name) {
        assert b == a;
      } else {
        ReadsOn(g, a, b, d, if a.d == d then Sfn(op.name) else [], name, data);
      }
    }
  }

  lemma ReadsOn(g: Geo, a: Moment, b: Moment, d: nat, but: seq<Byte>, name: seq<Byte>, data: seq<Byte>)
    requires g.spc > 0 && Shape(g, a.m) && Shape(g, b.m) && Holds(g, a, d, name, data) && d in b.t.dirs
    requires Sfn(name) != but
    requires ReadsSame(g, a.m, DirOf(g, a.m, a.t, d), b.m, DirOf(g, b.m, b.t, d), but)
    ensures Holds(g, b, d, name, data)
  {
    hide Shape, DirOf, ReadOutcome, Sfn;
  }

  /** Over any run, a file reads the same until it is written or removed by name. */
  lemma {:induction false} FileStays(g: Geo, trace: seq<Moment>, ops: seq<Op>, results: seq<bool>, i: nat, j: nat,
                                     d: nat, name: seq<Byte>, data: seq<Byte>)
    requires IsRun(g, trace, ops, results) && i <= j < |trace| && Holds(g, trace[i], d, name, data)
    requires forall k :: i <= k < j ==> !Touches(trace[k], ops[k], d, name)
    ensures Holds(g, trace[j], d, name, data)
    decreases j - i
  {
    hide Shape, Sound, Does, Holds, Touches;
    if i < j {
      StepKeeps(g, trace[i], ops[i], trace[i + 1], results[i], d, name, data);
      FileStays(g, trace, ops, results, i + 1, j, d, name, data);
    }
  }

  /** Over any run, the last bytes that were written under a name are those that are read. */
  lemma LastWriteReads(g: Geo, trace: seq<Moment>, ops: seq<Op>, results: seq<bool>, i: nat, j: nat)
    requires IsRun(g, trace, ops, results) && i < j < |trace| && ops[i].Write? && results[i]
    requires ops[i].name != [] && ops[i].name[0] != DELETED
    requires forall k :: i < k < j ==> !Touches(trace[k], ops[k], trace[i].d, ops[i].name)
    ensures Holds(g, trace[j], trace[i].d, ops[i].name, ops[i].data)
  {
    hide Shape, Holds, Touches, Unaffected, Conserves, CanCreate, Rooted, WellFormed, ReadsAs, DirOf, Sfn;
    assert Does(g, trace[i], ops[i], trace[i + 1], results[i]);
    WriteHolds(g, trace[i], ops[i], trace[i + 1]);
    FileStays(g, trace, ops, results, i + 1, j, trace[i].d, ops[i].name, ops[i].data);
  }

  lemma WriteHolds(g: Geo, a: Moment, op: Op, b: Moment)
    requires Sound(g, a) && Shape(g, b.m) && Does(g, a, op, b, true) && op.Write? && op.name != []
    requires op.name[0] != DELETED
    ensures Holds(g, b, a.d, op.name, op.data)
  {
    hide Full, FullCluster, WellFormed, DirOf, Unaffected, Conserves, CanCreate, Rooted, ReadsAs, Sfn;
  }

  // ----- directories -----

  /** A name that leads from one directory to another. */
  ghost predicate Leads(g: Geo, s: Moment, d: nat, name: seq<Byte>, c: nat) {
    d in s.t.dirs && Names(g, s.m, s.t, d, name, true) && ClusterNamed(g, s.m, s.t, d, name) == c
  }

  /** Names that lead, one after the other, from one directory to another. */
  ghost predicate LeadsDown(g: Geo, s: Moment, d: nat, path: seq<seq<Byte>>, c: nat)
    decreases |path|
  {
    if path == [] then d == c
    else
      Leads(g, s, d, path[0], ClusterNamed(g, s.m, s.t, d, path[0])) &&
      LeadsDown(g, s, ClusterNamed(g, s.m, s.t, d, path[0]), path[1..], c)
  }

  /** An operation that removes the directory to which a name leads, by that name. */
  ghost predicate Drops(s: Moment, op: Op, ok: bool, d: nat, name: seq<Byte>) {
    op.RemoveDir? && ok && s.d == d && Sfn(op.name) == Sfn(name)
  }

  /** Two names that lead to the same directory are in the same directory, and have the same short name. */
  lemma OneName(g: Geo, s: Moment, d: nat, name: seq<Byte>, b: nat, other: seq<Byte>, c: nat)
    requires Sound(g, s) && Leads(g, s, d, name, c) && Leads(g, s, b, other, c)
    ensures b == d && Sfn(other) == Sfn(name) && c in s.t.dirs && c != d
  {
    hide DirsGood, ChainsOk, Apart, DirOf, Full, FullCluster, Sfn, Rooted, FindFrom, FirstCluster, ZeroTail;
    FoundEntry(g, s.m, s.t, d, FindFrom(DirOf(g, s.m, s.t, d), Sfn(name), 0).i, name);
    FoundEntry(g, s.m, s.t, b, FindFrom(DirOf(g, s.m, s.t, b), Sfn(other), 0).i, other);
  }

  /** A directory in which a name is found is still there after any operation. */
  lemma StaysDirectory(g: Geo, a: Moment, op: Op, b: Moment, ok: bool, d: nat, name: seq<Byte>)
    requires Sound(g, a) && Shape(g, b.m) && Does(g, a, op, b, ok) && d in a.t.dirs
    requires FindFrom(DirOf(g, a.m, a.t, d), Sfn(name), 0).Found?
    ensures d in b.t.dirs
  {
    hide Full, FullCluster, WellFormed, DirOf, Unaffected, Conserves, CanCreate, Rooted, ReadsAs, Sfn, EmptyFrom,
         ClusterNamed, Writes, Removes, Destination, FindFrom;
    if op.RemoveDir? && ok { HolderStays(g, a, op.name, d, name); }
  }

  /** After any operation but its removal by that name, a name leads to the directory that it led to. */
  lemma NameStays(g: Geo, a: Moment, op: Op, b: Moment, ok: bool, d: nat, name: seq<Byte>, c: nat)
    requires Sound(g, a) && Shape(g, b.m) && Does(g, a, op, b, ok) && Leads(g, a, d, name, c)
    requires !Drops(a, op, ok, d, name)
    ensures Leads(g, b, d, name, c)
  {
    hide Full, FullCluster, WellFormed, DirOf, Conserves, CanCreate, Rooted, ReadsAs, ReadOutcome, Sfn, EmptyFrom,
         Destination, FindFrom, IsDirectory, FirstCluster, NextFound, Freed, RoomMade, FirstTaken, HasRoom;
    StaysDirectory(g, a, op, b, ok, d, name);
    if !op.Enter? {
      if a.d != d {
        assert DirOf(g, b.m, b.t, d) == DirOf(g, a.m, a.t, d);
      } else if Sfn(op.name) == Sfn(name) {
        assert b == a;
      } else {
        assert FindsSame(DirOf(g, a.m, a.t, d), DirOf(g, b.m, b.t, d), Sfn(name));
      }
    }
  }

  /** A directory in which a name is found is not removed. */
  lemma NotDropped(g: Geo, a: Moment, op: Op, b: Moment, ok: bool, d: nat, name: seq<Byte>, c: nat, held: seq<Byte>)
    requires Sound(g, a) && Shape(g, b.m) && Does(g, a, op, b, ok) && Leads(g, a, d, name, c) && c in a.t.dirs
    requires op.RemoveDir? ==> FindFrom(DirOf(g, a.m, a.t, c), Sfn(held), 0).Found?
    ensures !Drops(a, op, ok, d, name)
  {
    hide Full, FullCluster, WellFormed, DirOf, Conserves, Rooted, Sfn, EmptyFrom, FindFrom, NextFound, Freed,
         Unaffected;
    if Drops(a, op, ok, d, name) { HolderStays(g, a, op.name, c, held); }
  }

  /** Names lead down to the same directory as before any operation, as long as that is not one to remove. */
  lemma {:induction false} PathStays(g: Geo, a: Moment, op: Op, b: Moment, ok: bool, d: nat, path: seq<seq<Byte>>,
                                     c: nat, held: seq<Byte>)
    requires Sound(g, a) && Shape(g, b.m) && Does(g, a, op, b, ok) && d in a.t.dirs && LeadsDown(g, a, d, path, c)
    requires op.RemoveDir? ==> FindFrom(DirOf(g, a.m, a.t, c), Sfn(held), 0).Found?
    ensures c in a.t.dirs && LeadsDown(g, b, d, path, c)
    decreases |path|
  {
    hide Shape, Sound, Does, DirOf, FindFrom, Sfn, ClusterNamed, Drops;
    if path != [] {
      var next := ClusterNamed(g, a.m, a.t, d, path[0]);
      OneName(g, a, d, path[0], d, path[0], next);
      PathStays(g, a, op, b, ok, next, path[1..], c, held);
      NotDropped(g, a, op, b, ok, d, path[0], next, if |path| > 1 then path[1] else held);
      NameStays(g, a, op, b, ok, d, path[0], next);
    }
  }

  /** Over any run, a path leads to the same directory until that is removed by its name. */
  lemma {:induction false} DirectoryStays(g: Geo, trace: seq<Moment>, ops: seq<Op>, results: seq<bool>, i: nat, j: nat,
                                          path: seq<seq<Byte>>, d: nat, name: seq<Byte>, c: nat)
    requires IsRun(g, trace, ops, results) && i <= j < |trace|
    requires LeadsDown(g, trace[i], RootId(g), path, d) && Leads(g, trace[i], d, name, c)
    requires forall k :: i <= k < j ==> !Drops(trace[k], ops[k], results[k], d, name)
    ensures LeadsDown(g, trace[j], RootId(g), path, d) && Leads(g, trace[j], d, name, c)
    decreases j - i
  {
    hide Shape, Sound, Does, LeadsDown, DirOf, FindFrom, Sfn, Drops;
    if i < j {
      RootThere(g, trace[i]);
      PathStays(g, trace[i], ops[i], trace[i + 1], results[i], RootId(g), path, d, name);
      NameStays(g, trace[i], ops[i], trace[i + 1], results[i], d, name, c);
      DirectoryStays(g, trace, ops, results, i + 1, j, path, d, name, c);
    }
  }

  lemma RootThere(g: Geo, s: Moment)
    requires Sound(g, s)
    ensures RootId(g) in s.t.dirs
  {
    hide Rooted, DirsGood, ChainsOk, Apart;
  }

  /** Over any run, a path leads to the same file, with the same bytes, until the file is written or removed by
      its name: as long as it is there, no directory on the way to it can be removed. */
  lemma {:induction false} PathReads(g: Geo, trace: seq<Moment>, ops: seq<Op>, results: seq<bool>, i: nat, j: nat,
                                     path: seq<seq<Byte>>, d: nat, name: seq<Byte>, data: seq<Byte>)
    requires IsRun(g, trace, ops, results) && i <= j < |trace|
    requires LeadsDown(g, trace[i], RootId(g), path, d) && Holds(g, trace[i], d, name, data)
    requires forall k :: i <= k < j ==> !Touches(trace[k], ops[k], d, name)
    ensures LeadsDown(g, trace[j], RootId(g), path, d) && Holds(g, trace[j], d, name, data)
    decreases j - i
  {
    hide Shape, Sound, Does, LeadsDown, DirOf, FindFrom, Sfn, Touches, Holds;
    if i < j {
      RootThere(g, trace[i]);
      HeldIsFound(g, trace[i], d, name, data);
      PathStays(g, trace[i], ops[i], trace[i + 1], results[i], RootId(g), path, d, name);
      StepKeeps(g, trace[i], ops[i], trace[i + 1], results[i], d, name, data);
      PathReads(g, trace, ops, results, i + 1, j, path, d, name, data);
    }
  }

  /** Over any run, what was last written under a path is what is read under that path. */
  lemma LastWriteAtPath(g: Geo, trace: seq<Moment>, ops: seq<Op>, results: seq<bool>, i: nat, j: nat,
                        path: seq<seq<Byte>>)
    requires IsRun(g, trace, ops, results) && i < j < |trace| && ops[i].Write? && results[i]
    requires ops[i].name != [] && ops[i].name[0] != DELETED && LeadsDown(g, trace[i], RootId(g), path, trace[i].d)
    requires forall k :: i < k < j ==> !Touches(trace[k], ops[k], trace[i].d, ops[i].name)
    ensures LeadsDown(g, trace[j], RootId(g), path, trace[i].d)
    ensures Holds(g, trace[j], trace[i].d, ops[i].name, ops[i].data)
  {
    hide Shape, Holds, Touches, Does, Sound, LeadsDown, Sfn, DirOf;
    assert Does(g, trace[i], ops[i], trace[i + 1], results[i]);
    RootThere(g, trace[i]);
    PathStays(g, trace[i], ops[i], trace[i + 1], results[i], RootId(g), path, trace[i].d, []);
    WriteHolds(g, trace[i], ops[i], trace[i + 1]);
    PathReads(g, trace, ops, results, i + 1, j, path, trace[i].d, ops[i].name, ops[i].data);
  }

  /** The new directory to which a name leads once it was made. */
  lemma MadeLeads(g: Geo, a: Moment, op: Op, b: Moment) returns (c: nat)
    requires Sound(g, a) && Shape(g, b.m) && Does(g, a, op, b, true) && op.MakeDir? && op.name != []
    requires op.name[0] != DELETED
    ensures c !in a.t.dirs && Leads(g, b, a.d, op.name, c)
  {
    hide Full, FullCluster, WellFormed, DirOf, Unaffected, Conserves, Rooted, Sfn, Names, ClusterNamed, FindFrom,
         FreshDirectory, RoomForDirectory, RoomMade, FirstTaken, HasRoom;
    c :| c !in a.t.dirs && Made(g, a, b, op.name, c);
  }

  /** Over any run, the path under which a directory was made leads to it until it is removed by its name. */
  lemma MadeStays(g: Geo, trace: seq<Moment>, ops: seq<Op>, results: seq<bool>, i: nat, j: nat, path: seq<seq<Byte>>)
    returns (c: nat)
    requires IsRun(g, trace, ops, results) && i < j < |trace| && ops[i].MakeDir? && results[i]
    requires ops[i].name != [] && ops[i].name[0] != DELETED && LeadsDown(g, trace[i], RootId(g), path, trace[i].d)
    requires forall k :: i < k < j ==> !Drops(trace[k], ops[k], results[k], trace[i].d, ops[i].name)
    ensures LeadsDown(g, trace[j], RootId(g), path, trace[i].d) && Leads(g, trace[j], trace[i].d, ops[i].name, c)
    ensures c !in trace[i].t.dirs
  {
    hide Shape, Drops, Does, Sound, LeadsDown, Leads, Sfn, DirOf;
    assert Does(g, trace[i], ops[i], trace[i + 1], results[i]);
    RootThere(g, trace[i]);
    PathStays(g, trace[i], ops[i], trace[i + 1], results[i], RootId(g), path, trace[i].d, []);
    c := MadeLeads(g, trace[i], ops[i], trace[i + 1]);
    DirectoryStays(g, trace, ops, results, i + 1, j, path, trace[i].d, ops[i].name, c);
  }

  // ----- plain names -----

  /** An operation that writes or removes, in a directory, a file under a name that is the same up to case. */
  predicate TouchesNamed(s: Moment, op: Op, d: nat, name: seq<Byte>) {
    (op.Write? || op.Remove?) && s.d == d && SameName(op.name, name)
  }

  /** The names of files that are written and removed are plain. */
  ghost predicate PlainFiles(ops: seq<Op>) {
    forall k :: 0 <= k < |ops| && (ops[k].Write? || ops[k].Remove?) ==> IsPlain(ops[k].name)
  }

  lemma TouchesPlain(s: Moment, op: Op, d: nat, name: seq<Byte>)
    requires IsPlain(name) && (op.Write? || op.Remove? ==> IsPlain(op.name))
    ensures Touches(s, op, d, name) <==> TouchesNamed(s, op, d, name)
  {
    hide IsPlain, SameName, Sfn;
    if op.Write? || op.Remove? { PlainNames(op.name, name); }
  }

  /** Over any run on plain names, what was last written under a path and a name is what is read under that path and
      that name, in upper or lower case, whatever was done meanwhile under names that differ in more than case. */
  lemma LastWriteByName(g: Geo, trace: seq<Moment>, ops: seq<Op>, results: seq<bool>, i: nat, j: nat,
                        path: seq<seq<Byte>>, name: seq<Byte>)
    requires IsRun(g, trace, ops, results) && i < j < |trace| && ops[i].Write? && results[i] && PlainFiles(ops)
    requires ops[i].name != [] && ops[i].name[0] != DELETED && LeadsDown(g, trace[i], RootId(g), path, trace[i].d)
    requires IsPlain(name) && SameName(name, ops[i].name)
    requires forall k :: i < k < j ==> !TouchesNamed(trace[k], ops[k], trace[i].d, name)
    ensures LeadsDown(g, trace[j], RootId(g), path, trace[i].d)
    ensures Holds(g, trace[j], trace[i].d, name, ops[i].data)
  {
    hide Shape, Holds, Touches, TouchesNamed, Does, Sound, LeadsDown, Sfn, DirOf, IsPlain, SameName;
    PlainNames(name, ops[i].name);
    forall k | i < k < j ensures !Touches(trace[k], ops[k], trace[i].d, ops[i].name) {
      TouchesPlain(trace[k], ops[k], trace[i].d, name);
      SameTouches(trace[k], ops[k], trace[i].d, name, ops[i].name);
    }
    LastWriteAtPath(g, trace, ops, results, i, j, path);
    SameHolds(g, trace[j], trace[i].d, name, ops[i].name, ops[i].data);
  }

  lemma SameTouches(s: Moment, op: Op, d: nat, a: seq<Byte>, b: seq<Byte>)
    requires Sfn(a) == Sfn(b)
    ensures Touches(s, op, d, a) <==> Touches(s, op, d, b)
  {
    hide Sfn;
  }

  lemma SameHolds(g: Geo, s: Moment, d: nat, a: seq<Byte>, b: seq<Byte>, data: seq<Byte>)
    requires g.spc > 0 && Shape(g, s.m) && Sfn(a) == Sfn(b)
    ensures Holds(g, s, d, a, data) <==> Holds(g, s, d, b, data)
  {
    hide Shape, Sfn, DirOf, ReadsAs;
  }
}
