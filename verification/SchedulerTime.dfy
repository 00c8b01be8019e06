/** Time in the scheduler: what a tick does, the quantum of the running process, sleep, and what is left of a
    process that exited. */
module SchedulerTime {
  import opened Options
  import opened Scheduler
  import opened SchedulerProofs

  // ----- what a tick does -----

  /** A process that has to give way at a tick: it cannot go on, or its quantum ends with this tick. */
  predicate Due(st: PState, remaining: nat) {
    st == Terminated || st == Blocked || st == Sleeping || remaining <= 1
  }

  predicate OtherReady(procs: seq<Proc>, c: nat) {
    exists j :: 0 <= j < |procs| && j != c && procs[j].state == Ready
  }

  /** How many places past slot c slot j is, going round. */
  function Ahead(c: nat, j: nat, n: nat): nat
    requires c < n && j < n
  {
    if j > c then j - c else j + n - c
  }

  /** Slot n is the first ready one after c, going round. */
  predicate FirstReady(procs: seq<Proc>, c: nat, n: nat)
    requires c < |procs| && n < |procs|
  {
    && n != c && procs[n].state == Ready
    && forall j :: 0 <= j < |procs| && j != c && procs[j].state == Ready ==>
         Ahead(c, n, |procs|) <= Ahead(c, j, |procs|)
  }

  /** What is left of the quantum of a process that is not switched out. */
  function Left(s: State, st: PState): nat {
    if !s.enabled || st == Terminated || st == Blocked || st == Sleeping then s.remaining
    else if s.remaining <= 1 then s.quantum
    else s.remaining - 1
  }

  /** The processes after a tick at which slot n has the processor: whoever loses it is ready again if it was running,
      with the stack pointer saved, whoever gets it is running, and nobody else changes. */
  function Ticked(s: State, rsp: nat, woken: seq<Proc>, n: nat): seq<Proc>
    requires s.current < |woken| && n < |woken|
  {
    var c := s.current;
    var p := woken[c];
    if n != c then
      var saved := woken[c := p.(rsp := rsp, state := if p.state == Running then Ready else p.state)];
      saved[n := woken[n].(state := Running)]
    else if !s.enabled || !Due(p.state, s.remaining) then woken
    else woken[c := p.(rsp := rsp, state := if p.state == Ready then Running else p.state)]
  }

  lemma AheadAround(c: nat, j: nat, n: nat)
    requires c < n && j < n
    ensures 1 <= Ahead(c, j, n) <= n && Around(c, Ahead(c, j, n), n) == j && (Ahead(c, j, n) == n <==> j == c)
  {
  }

  lemma AroundAhead(c: nat, d: nat, n: nat)
    requires c < n && 1 <= d <= n
    ensures Ahead(c, Around(c, d, n), n) == d
  {
  }

  /** What the search finds: the first ready slot other than c if there is one, and else c itself if it is ready. */
  lemma SearchFinds(procs: seq<Proc>, c: nat)
    requires c < |procs|
    ensures var d := NextReady(procs, c, 1);
      && (OtherReady(procs, c) ==> 0 < d < |procs| && FirstReady(procs, c, Around(c, d, |procs|)))
      && (!OtherReady(procs, c) ==> d == if procs[c].state == Ready then |procs| else 0)
  {
    var n, d := |procs|, NextReady(procs, c, 1);
    forall j | 0 <= j < n && procs[j].state == Ready ensures 0 < d <= Ahead(c, j, n) {
      AheadAround(c, j, n);
    }
    if d != 0 {
      AroundAhead(c, d, n);
      AheadAround(c, Around(c, d, n), n);
    }
    if OtherReady(procs, c) {
      var j :| 0 <= j < n && j != c && procs[j].state == Ready;
      AheadAround(c, j, n);
    }
  }

  /** A tick switches exactly when scheduling is on, the running process is due and another one is ready, counting
      those that wake up. It then resumes the first ready process after the running one, with a full quantum, where
      that one was left. Otherwise the running process goes on where it was. */
  lemma TickSwitches(s: State, rsp: nat)
    requires Shaped(s)
    ensures var woken, (s', to, ev) := Wake(s.procs, NextTick(s.now)), OnTick(s, rsp);
      && |s'.procs| == |s.procs| && s'.current < |s.procs|
      && (s'.current != s.current <==>
            s.enabled && Due(woken[s.current].state, s.remaining) && OtherReady(woken, s.current))
      && (s'.current != s.current ==>
            && FirstReady(woken, s.current, s'.current) && to == woken[s'.current].rsp && s'.remaining == s.quantum
            && ev == [SwitchedOut(s.current, rsp), Dispatched(s'.current, to)])
      && (s'.current == s.current ==> to == rsp && s'.remaining == Left(s, woken[s.current].state))
      && s'.now == NextTick(s.now) && s'.quantum == s.quantum && s'.enabled == s.enabled
      && s'.procs == Ticked(s, rsp, woken, s'.current)
  {
    hide NextReady, Wake, FirstReady, OtherReady;
    var now := NextTick(s.now);
    var s1 := s.(now := now, procs := Wake(s.procs, now));
    var (s2, give) := AfterQuantum(s1);
    if s1.enabled && give {
      var p := s2.Cur();
      var s3 := s2.(procs := s2.procs[s2.current := p.(rsp := rsp, state := Requeue(p.state))]);
      SearchFinds(s3.procs, s3.current);
      SameOthers(s1.procs, s3.procs, s.current);
    }
  }

  /** Which other slots are ready does not depend on the running one. */
  lemma SameOthers(a: seq<Proc>, b: seq<Proc>, c: nat)
    requires |a| == |b| && c < |a| && forall j :: 0 <= j < |a| && j != c ==> a[j] == b[j]
    ensures OtherReady(a, c) <==> OtherReady(b, c)
    ensures forall n :: 0 <= n < |a| ==> (FirstReady(a, c, n) <==> FirstReady(b, c, n))
  {
  }

  // ----- the quantum -----

  /** Scheduling is on, and the running process can go on. */
  predicate GoesOn(s: State) {
    Shaped(s) && s.enabled && (s.Cur().state == Ready || s.Cur().state == Running)
  }

  /** The running process exits, kills itself, or starts to sleep or to wait. */
  predicate GivesUp(s: State, op: Op)
    requires s.current < |s.procs|
  {
    match op
    case Exit(_) => s.Cur().pid != 0
    case Sleep(ticks) => s.Cur().pid != 0 && ticks != 0
    case Terminate(pid) => pid != 0 && Find(s.procs, pid) == s.current
    case WaitBlock(pid) => pid != 0 && Find(s.procs, pid) < |s.procs|
    case WaitAtomic(pid) =>
      pid != 0 && Find(s.procs, pid) < |s.procs| && s.procs[Find(s.procs, pid)].state != Terminated
    case _ => false
  }

  predicate NoSwitch(events: seq<Event>) {
    forall k :: 0 <= k < |events| ==> events[k].Created?
  }

  /** The processor, its quantum and its process are as before. */
  predicate SameTurn(s: State, s': State)
    requires s.current < |s.procs|
  {
    && |s'.procs| == |s.procs| && s'.stacks == s.stacks && s'.current == s.current && s'.remaining == s.remaining
    && s'.quantum == s.quantum && s'.enabled
  }

  lemma {:induction false} ReapTurn(s: State, i: nat)
    requires GoesOn(s) && i <= |s.procs|
    ensures SameTurn(s, OnReap(s, i)) && OnReap(s, i).procs[s.current] == s.Cur()
    decreases |s.procs| - i
  {
    if i < |s.procs| { ReapTurn(ReapOne(s, i), i + 1); }
  }

  lemma WaitTurn(s: State)
    requires Shaped(s) && s.enabled && s.Cur().state != Unused && s.Cur().state != Terminated
    ensures var s' := OnWaitCheck(s);
      SameTurn(s, s') && (s'.Cur().state == s.Cur().state || s'.Cur().state == Running) && s'.Cur().pid == s.Cur().pid
    ensures TargetGone(s) ==> OnWaitCheck(s).Cur().state == Running
    ensures !TargetGone(s) ==> OnWaitCheck(s) == s
  {
  }

  lemma PlainTurn(s: State, op: Op)
    requires GoesOn(s) && CanAct(s) && (InPlace(op) || op.WaitNoHang? || op.Create?)
    ensures var (s', ev) := Step(s, op);
      SameTurn(s, s') && NoSwitch(ev) && (GoesOn(s') <==> !GivesUp(s, op)) && s'.Cur().pid == s.Cur().pid
  {
    hide FreeSlot;
  }

  /** Between two ticks the running process stays, and can go on exactly unless it gives up. */
  lemma OpTurn(s: State, op: Op)
    requires GoesOn(s) && Enabled(s, op) && !op.Tick?
    ensures var (s', ev) := Step(s, op);
      SameTurn(s, s') && NoSwitch(ev) && (GoesOn(s') <==> !GivesUp(s, op)) && s'.Cur().pid == s.Cur().pid
  {
    hide OnReap, OnExit, OnTerminate, OnActivate, OnDetach, OnSleep, OnWaitCheck, OnWaitNoHang, OnCreate, Find,
         FreeSlot, TargetGone;
    match op
    case Reap => ReapTurn(s, 1);
    case WaitCheck => WaitTurn(s);
    case WaitAtomic(pid) => AtomicTurn(s, pid);
    case _ => PlainTurn(s, op);
  }

  lemma AtomicTurn(s: State, pid: nat)
    requires GoesOn(s) && CanAct(s)
    ensures var s' := OnWaitCheck(OnWaitBlock(s, pid));
      SameTurn(s, s') && (GoesOn(s') <==> !GivesUp(s, WaitAtomic(pid))) && s'.Cur().pid == s.Cur().pid
  {
    hide OnWaitCheck, Find;
    WaitTurn(OnWaitBlock(s, pid));
  }

  predicate NeverGivesUp(s: State, ops: seq<Op>)
    requires IsRun(s, ops)
    decreases |ops|
  {
    ops == [] || (s.current < |s.procs| && !GivesUp(s, ops[0]) && NeverGivesUp(Step(s, ops[0]).0, ops[1..]))
  }

  lemma NoSwitchMore(a: seq<Event>, b: seq<Event>)
    requires NoSwitch(a) && NoSwitch(b)
    ensures NoSwitch(a + b)
  {
  }

  lemma TickInside(s: State, rsp: nat)
    requires GoesOn(s) && s.remaining > 1
    ensures var (s', to, ev) := OnTick(s, rsp);
      && GoesOn(s') && s'.current == s.current && to == rsp && ev == [] && s'.remaining == s.remaining - 1
      && s'.quantum == s.quantum && s'.Cur().pid == s.Cur().pid
  {
  }

  /** A process keeps the processor for what is left of its quantum, over any run in which it does not give up. */
  lemma {:induction false} QuantumKept(s: State, ops: seq<Op>)
    requires GoesOn(s) && IsRun(s, ops) && NeverGivesUp(s, ops) && Ticks(ops) < s.remaining
    ensures var (s', ev) := Run(s, ops);
      && NoSwitch(ev) && GoesOn(s') && s'.current == s.current && s'.Cur().pid == s.Cur().pid
      && s'.remaining == s.remaining - Ticks(ops) && s'.quantum == s.quantum
    decreases |ops|
  {
    hide OnTick, Find, Enabled;
    if ops != [] {
      var (s1, ev) := Step(s, ops[0]);
      if ops[0].Tick? {
        TickInside(s, ops[0].rsp);
      } else {
        OpTurn(s, ops[0]);
      }
      QuantumKept(s1, ops[1..]);
      NoSwitchMore(ev, Run(s1, ops[1..]).1);
    }
  }

  /** The tick that ends a quantum after such a run switches exactly if another process is ready by then, and either
      way the quantum is full again. */
  lemma QuantumEnds(s: State, ops: seq<Op>, rsp: nat)
    requires GoesOn(s) && IsRun(s, ops) && NeverGivesUp(s, ops) && Ticks(ops) + 1 == s.remaining
    ensures var s1 := Run(s, ops).0;
      && NoSwitch(Run(s, ops).1) && s1.current == s.current < |s1.procs|
      && var woken, s' := Wake(s1.procs, NextTick(s1.now)), OnTick(s1, rsp).0;
         (s'.current != s.current <==> OtherReady(woken, s.current)) && s'.remaining == s.quantum
  {
    hide OnTick, IsRun, Run, NeverGivesUp, Ticks, OtherReady, FirstReady;
    QuantumKept(s, ops);
    TickSwitches(Run(s, ops).0, rsp);
  }

  // ----- sleep -----

  /** Slot i sleeps until tick w. */
  predicate Asleep(s: State, i: nat, pid: nat, w: nat) {
    && Shaped(s) && 0 < i < |s.procs| && s.procs[i].state == Sleeping && s.procs[i].pid == pid
    && s.procs[i].wakeTick == w && s.procs[i].target == None
  }

  lemma SleepStarts(s: State, ticks: nat)
    requires Inv(s) && CanAct(s) && s.Cur().pid != 0 && ticks > 0
    ensures Asleep(OnSleep(s, ticks), s.current, s.Cur().pid, s.now + ticks) && OnSleep(s, ticks).now == s.now
  {
    assert SlotOk(s, 0);
  }

  lemma {:induction false} ReapSpares(s: State, k: nat, i: nat)
    requires k <= |s.procs| && i < |s.procs| && s.procs[i].state == Sleeping
    ensures OnReap(s, k).procs[i] == s.procs[i] && OnReap(s, k).now == s.now
    ensures OnReap(s, k).current == s.current && OnReap(s, k).stacks == s.stacks
    decreases |s.procs| - k
  {
    if k < |s.procs| { ReapSpares(ReapOne(s, k), k + 1, i); }
  }

  lemma WaitSpares(s: State, i: nat, pid: nat, w: nat)
    requires Asleep(s, i, pid, w)
    ensures Asleep(OnWaitCheck(s), i, pid, w) && OnWaitCheck(s).now == s.now
  {
  }

  lemma PlainSpares(s: State, op: Op, i: nat, pid: nat, w: nat)
    requires Asleep(s, i, pid, w) && CanAct(s) && op != Terminate(pid)
    requires InPlace(op) || op.WaitNoHang? || op.Create?
    ensures Asleep(Step(s, op).0, i, pid, w) && Step(s, op).0.now == s.now
  {
    hide Find, FreeSlot;
  }

  lemma OpSpares(s: State, op: Op, i: nat, pid: nat, w: nat)
    requires Asleep(s, i, pid, w) && Enabled(s, op) && !op.Tick? && op != Terminate(pid)
    ensures Asleep(Step(s, op).0, i, pid, w) && Step(s, op).0.now == s.now
  {
    hide Asleep, OnReap, OnExit, OnTerminate, OnActivate, OnDetach, OnSleep, OnWaitCheck, OnWaitNoHang, OnCreate,
         OnWaitBlock;
    match op
    case Reap => ReapAsleep(s, i, pid, w);
    case WaitCheck => WaitSpares(s, i, pid, w);
    case WaitAtomic(q) =>
      PlainSpares(s, WaitBlock(q), i, pid, w);
      WaitSpares(OnWaitBlock(s, q), i, pid, w);
    case _ => PlainSpares(s, op, i, pid, w);
  }

  lemma ReapAsleep(s: State, i: nat, pid: nat, w: nat)
    requires Asleep(s, i, pid, w)
    ensures Asleep(OnReap(s, 1), i, pid, w) && OnReap(s, 1).now == s.now
  {
    ReapSpares(s, 1, i);
  }

  lemma TickSpares(s: State, rsp: nat, i: nat, pid: nat, w: nat)
    requires Asleep(s, i, pid, w) && NextTick(s.now) < w
    ensures Asleep(OnTick(s, rsp).0, i, pid, w)
  {
    hide NextReady;
  }

  /** A process that sleeps does so until its time has come, over any run in which it is not killed. */
  lemma {:induction false} SleepsOn(s: State, ops: seq<Op>, i: nat, pid: nat, w: nat)
    requires Asleep(s, i, pid, w) && IsRun(s, ops) && Terminate(pid) !in ops && s.now + Ticks(ops) < w <= TICK_WRAP
    ensures Asleep(Run(s, ops).0, i, pid, w) && Run(s, ops).0.now == s.now + Ticks(ops)
    decreases |ops|
  {
    hide OnTick, Find, Enabled, Asleep;
    if ops != [] {
      if ops[0].Tick? {
        TickClock(s, ops[0].rsp);
        TickSpares(s, ops[0].rsp, i, pid, w);
      } else {
        OpSpares(s, ops[0], i, pid, w);
      }
      SleepsOn(Step(s, ops[0]).0, ops[1..], i, pid, w);
    }
  }

  lemma TickClock(s: State, rsp: nat)
    requires s.current < |s.procs|
    ensures OnTick(s, rsp).0.now == NextTick(s.now)
    ensures s.now + 1 < TICK_WRAP ==> NextTick(s.now) == s.now + 1
  {
  }

  /** A process that sleeps n ticks, none of which makes the counter wrap, is asleep after fewer than n ticks, and
      at the n-th it is ready or runs: over any run in which it is not killed. */
  lemma SleepsExactly(s: State, n: nat, ops: seq<Op>, rsp: nat)
    requires Inv(s) && CanAct(s) && s.Cur().pid != 0 && 0 < n && s.now + n < TICK_WRAP
    requires IsRun(OnSleep(s, n), ops) && Terminate(s.Cur().pid) !in ops && Ticks(ops) + 1 == n
    ensures var s1 := Run(OnSleep(s, n), ops).0;
      && s1.current < |s1.procs| && s.current < |s1.procs| && s1.procs[s.current].state == Sleeping
      && var p, s2 := OnTick(s1, rsp).0.procs[s.current], OnTick(s1, rsp).0;
         p.pid == s.Cur().pid && (p.state == Ready || (p.state == Running && s2.current == s.current))
  {
    SleepStarts(s, n);
    hide Inv, OnSleep, IsRun, Run, Ticks;
    SleepsOn(OnSleep(s, n), ops, s.current, s.Cur().pid, s.now + n);
    WakesUp(Run(OnSleep(s, n), ops).0, rsp, s.current, s.Cur().pid);
  }

  lemma WakesUp(s: State, rsp: nat, i: nat, pid: nat)
    requires Asleep(s, i, pid, s.now + 1) && s.now + 1 < TICK_WRAP
    ensures var s' := OnTick(s, rsp).0;
      && |s'.procs| == |s.procs| && s'.procs[i].pid == pid
      && (s'.procs[i].state == Ready || (s'.procs[i].state == Running && s'.current == i))
  {
    hide NextReady;
    TickClock(s, rsp);
  }

  // ----- waiting -----

  /** Slot i waits for the process with this pid, which is alive in slot j. */
  predicate WaitingFor(s: State, i: nat, pid: nat, j: nat) {
    && Shaped(s) && i < |s.procs| && j < |s.procs| && i != j && pid != 0
    && s.procs[i].state == Blocked && s.procs[i].waitTarget == pid && s.procs[i].target == Some(j)
    && s.procs[j].pid == pid && s.procs[j].state != Unused && s.procs[j].state != Terminated
  }

  lemma WaitStarts(s: State, pid: nat, j: nat)
    requires Inv(s) && CanAct(s) && pid != 0 && j < |s.procs| && j != s.current && s.procs[j].pid == pid
    requires s.procs[j].state != Unused && s.procs[j].state != Terminated
    ensures WaitingFor(OnWaitBlock(s, pid), s.current, pid, j)
  {
    var i := Find(s.procs, pid);
    assert i < |s.procs|;
    assert Apart(s, i, j);
  }

  lemma {:induction false} ReapWaits(s: State, k: nat, i: nat, pid: nat, j: nat)
    requires WaitingFor(s, i, pid, j) && k <= |s.procs|
    ensures WaitingFor(OnReap(s, k), i, pid, j)
    decreases |s.procs| - k
  {
    if k < |s.procs| { ReapWaits(ReapOne(s, k), k + 1, i, pid, j); }
  }

  lemma CheckWaits(s: State, i: nat, pid: nat, j: nat)
    requires WaitingFor(s, i, pid, j)
    ensures WaitingFor(OnWaitCheck(s), i, pid, j)
  {
  }

  lemma PlainWaits(s: State, op: Op, i: nat, pid: nat, j: nat)
    requires WaitingFor(s, i, pid, j) && CanAct(s) && !op.Terminate? && (op.Exit? ==> s.Cur().pid != pid)
    requires InPlace(op) || op.WaitNoHang? || op.Create?
    ensures WaitingFor(Step(s, op).0, i, pid, j)
  {
    hide Find, FreeSlot;
  }

  lemma OpWaits(s: State, op: Op, i: nat, pid: nat, j: nat)
    requires WaitingFor(s, i, pid, j) && Enabled(s, op) && !op.Tick? && !op.Terminate?
    requires op.Exit? ==> s.Cur().pid != pid
    ensures WaitingFor(Step(s, op).0, i, pid, j)
  {
    hide WaitingFor, OnReap, OnExit, OnTerminate, OnActivate, OnDetach, OnSleep, OnWaitCheck, OnWaitNoHang, OnCreate,
         OnWaitBlock;
    match op
    case Reap => ReapWaits(s, 1, i, pid, j);
    case WaitCheck => CheckWaits(s, i, pid, j);
    case WaitAtomic(q) =>
      PlainWaits(s, WaitBlock(q), i, pid, j);
      CheckWaits(OnWaitBlock(s, q), i, pid, j);
    case _ => PlainWaits(s, op, i, pid, j);
  }

  lemma TickWaits(s: State, rsp: nat, i: nat, pid: nat, j: nat)
    requires WaitingFor(s, i, pid, j)
    ensures WaitingFor(OnTick(s, rsp).0, i, pid, j)
  {
    TickStacks(s, rsp);
    hide OnTick, OtherReady, Ticked;
    TickSwitches(s, rsp);
    var woken, s' := Wake(s.procs, NextTick(s.now)), OnTick(s, rsp).0;
    TickedWaits(s, rsp, woken, s'.current, i, pid, j);
  }

  lemma TickedWaits(s: State, rsp: nat, woken: seq<Proc>, n: nat, i: nat, pid: nat, j: nat)
    requires WaitingFor(s, i, pid, j) && |woken| == |s.procs| && n < |woken|
    requires n != s.current ==> woken[n].state == Ready
    requires woken[i] == s.procs[i]
    requires woken[j].pid == pid && woken[j].state != Unused && woken[j].state != Terminated
    ensures var procs := Ticked(s, rsp, woken, n);
      && |procs| == |s.procs| && procs[i].state == Blocked && procs[i].waitTarget == pid && procs[i].target == Some(j)
      && procs[j].pid == pid && procs[j].state != Unused && procs[j].state != Terminated
  {
  }

  lemma TickStacks(s: State, rsp: nat)
    requires s.current < |s.procs|
    ensures OnTick(s, rsp).0.stacks == s.stacks
  {
    hide NextReady;
  }

  /** The process with this pid does not exit in a run, and nobody is killed. */
  predicate NobodyEnds(s: State, ops: seq<Op>, pid: nat)
    requires IsRun(s, ops)
    decreases |ops|
  {
    ops == [] ||
    (!ops[0].Terminate? && (ops[0].Exit? ==> s.current < |s.procs| && s.Cur().pid != pid) &&
     NobodyEnds(Step(s, ops[0]).0, ops[1..], pid))
  }

  /** A process that waits does so over any run in which the one that it waits for does not exit and nobody is killed;
      the exit makes it ready. */
  lemma {:induction false} WaitsOn(s: State, ops: seq<Op>, i: nat, pid: nat, j: nat)
    requires WaitingFor(s, i, pid, j) && IsRun(s, ops) && NobodyEnds(s, ops, pid)
    ensures WaitingFor(Run(s, ops).0, i, pid, j)
    ensures var s' := Run(s, ops).0;
      forall code :: s'.current == j ==> OnExit(s', code).procs[i].state == Ready
    decreases |ops|
  {
    hide OnTick, Find, Enabled;
    if ops != [] {
      if ops[0].Tick? { TickWaits(s, ops[0].rsp, i, pid, j); } else { OpWaits(s, ops[0], i, pid, j); }
      WaitsOn(Step(s, ops[0]).0, ops[1..], i, pid, j);
    }
  }

  // ----- exit codes -----

  /** Whoever still has this pid is dead and exited with this code. */
  predicate Sealed(s: State, pid: nat, code: int) {
    && Shaped(s) && 0 < pid < s.nextPid
    && forall j :: 0 <= j < |s.procs| && s.procs[j].state != Unused && s.procs[j].pid == pid ==>
         s.procs[j].state == Terminated && s.procs[j].exitCode == code
  }

  /** The process with this pid does nothing, as one that exited: it is in a loop that waits for the next tick. */
  predicate DoesNothing(s: State, ops: seq<Op>, pid: nat)
    requires IsRun(s, ops)
    decreases |ops|
  {
    ops == [] ||
    ((s.current < |s.procs| && s.Cur().pid == pid ==> ops[0].Tick?) && DoesNothing(Step(s, ops[0]).0, ops[1..], pid))
  }

  lemma ExitSeals(s: State, code: int)
    requires Inv(s) && CanAct(s) && s.Cur().pid != 0
    ensures Sealed(OnExit(s, code), s.Cur().pid, code)
  {
    assert SlotOk(s, s.current);
    forall j: nat | j < |s.procs| && s.procs[j].state != Unused && s.procs[j].pid == s.Cur().pid
      ensures j == s.current
    {
      assert Apart(s, j, s.current);
    }
  }

  lemma TickSealed(s: State, rsp: nat, pid: nat, code: int)
    requires Sealed(s, pid, code)
    ensures Sealed(OnTick(s, rsp).0, pid, code)
  {
    hide NextReady;
  }

  lemma {:induction false} ReapSealed(s: State, k: nat, pid: nat, code: int)
    requires Sealed(s, pid, code) && k <= |s.procs|
    ensures Sealed(OnReap(s, k), pid, code)
    decreases |s.procs| - k
  {
    if k < |s.procs| { ReapSealed(ReapOne(s, k), k + 1, pid, code); }
  }

  lemma WaitSealed(s: State, pid: nat, code: int)
    requires Sealed(s, pid, code) && s.Cur().pid != pid
    ensures Sealed(OnWaitCheck(s), pid, code)
  {
  }

  lemma PlainSealed(s: State, op: Op, pid: nat, code: int)
    requires Sealed(s, pid, code) && CanAct(s) && s.Cur().pid != pid && !op.Terminate?
    requires InPlace(op) || op.WaitNoHang? || op.Create?
    ensures Sealed(Step(s, op).0, pid, code)
  {
    hide Find, FreeSlot;
  }

  lemma OpSealed(s: State, op: Op, pid: nat, code: int)
    requires Sealed(s, pid, code) && Enabled(s, op) && !op.Tick? && s.Cur().pid != pid
    ensures Sealed(Step(s, op).0, pid, code)
  {
    hide Sealed, OnReap, OnExit, OnTerminate, OnActivate, OnDetach, OnSleep, OnWaitCheck, OnWaitNoHang, OnCreate,
         Find;
    match op
    case Reap => ReapSealed(s, 1, pid, code);
    case WaitCheck => WaitSealed(s, pid, code);
    case WaitAtomic(q) =>
      PlainSealed(s, WaitBlock(q), pid, code);
      WaitSealed(OnWaitBlock(s, q), pid, code);
    case Terminate(q) => KillSealed(s, q, pid, code);
    case _ => PlainSealed(s, op, pid, code);
  }

  lemma KillSealed(s: State, q: nat, pid: nat, code: int)
    requires Sealed(s, pid, code)
    ensures Sealed(OnTerminate(s, q), pid, code)
  {
    hide Find;
  }

  /** Over any run after an exit, whoever still has the pid of the process that exited has its code. */
  lemma {:induction false} StaysSealed(s: State, ops: seq<Op>, pid: nat, code: int)
    requires Sealed(s, pid, code) && IsRun(s, ops) && DoesNothing(s, ops, pid)
    ensures Sealed(Run(s, ops).0, pid, code)
    decreases |ops|
  {
    hide Sealed, OnTick, Enabled;
    if ops != [] {
      if ops[0].Tick? { TickSealed(s, ops[0].rsp, pid, code); } else { OpSealed(s, ops[0], pid, code); }
      StaysSealed(Step(s, ops[0]).0, ops[1..], pid, code);
    }
  }

  /** The running process waits for the process with this pid, and that is still in the table. */
  predicate Watches(s: State, pid: nat)
    requires s.current < |s.procs|
  {
    match s.Cur().target
    case None => false
    case Some(i) => i < |s.procs| && s.procs[i].state != Unused && s.procs[i].pid == pid
  }

  /** A wait that ends on a process that exited gives the code that it exited with, whatever happened in between. */
  lemma WaitGetsCode(s: State, code: int, ops: seq<Op>)
    requires Inv(s) && CanAct(s) && s.Cur().pid != 0
    requires IsRun(OnExit(s, code), ops) && DoesNothing(OnExit(s, code), ops, s.Cur().pid)
    ensures var s', pid := Run(OnExit(s, code), ops).0, s.Cur().pid;
      Find(s'.procs, pid) < |s'.procs| ==> WaitCode(s', WaitNoHang(pid)) == Some(code)
    ensures var s', pid := Run(OnExit(s, code), ops).0, s.Cur().pid;
      s'.current < |s'.procs| && Watches(s', pid) ==> WaitCode(s', WaitCheck) == Some(code)
  {
    ExitSeals(s, code);
    hide Inv, OnExit, IsRun, Run, DoesNothing;
    StaysSealed(OnExit(s, code), ops, s.Cur().pid, code);
  }
}
