/** The life of a process: which operation brings it from one state to another. */
module SchedulerStates {
  import opened Options
  import opened Scheduler

  /** Some process has this pid. */
  predicate Exists(s: State, pid: nat) {
    exists j :: 0 <= j < |s.procs| && s.procs[j].state != Unused && s.procs[j].pid == pid
  }

  /** Some dead process other than the running one has this pid. */
  predicate DeadOther(s: State, pid: nat) {
    exists j :: 0 <= j < |s.procs| && j != s.current && s.procs[j].state == Terminated && s.procs[j].pid == pid
  }

  /** Slot i, other than that of the kernel, is the first one that is not in use. */
  predicate FirstUnused(s: State, i: nat) {
    1 <= i < |s.procs| && s.procs[i].state == Unused && forall j :: 1 <= j < i ==> s.procs[j].state != Unused
  }

  /** A process is made: it has page tables and, if it is a user's, its first pages. */
  predicate Succeeds(s: State, op: Op) {
    op.Create? && if op.isUser then op.root != 0 && op.mapped else s.cr3 != 0
  }

  /** The process with this pid is killed; the kernel's own cannot be. */
  predicate Kills(s: State, op: Op, pid: nat) {
    op.Terminate? && op.pid == pid && pid != 0
  }

  /** Somebody waits for the process in slot i, which is dead, or reaps it. */
  predicate Buries(s: State, op: Op, i: nat)
    requires i < |s.procs| && s.current < |s.procs|
  {
    match op
    case WaitNoHang(pid) => pid == s.procs[i].pid != 0
    case WaitAtomic(pid) => pid == s.procs[i].pid != 0 && i != s.current
    case WaitCheck => s.Cur().target == Some(i)
    case Reap => i >= 1 && s.procs[i].detached
    case _ => false
  }

  /** The state of the running process, which is in state st, after an operation of its own. */
  function OwnNext(s: State, op: Op, st: PState): PState
    requires s.current < |s.procs|
  {
    var pid := s.Cur().pid;
    match op
    case Exit(_) => if pid != 0 then Terminated else st
    case Terminate(q) => if q == pid != 0 then Terminated else st
    case Sleep(n) => if pid != 0 && n > 0 then Sleeping else st
    case WaitBlock(q) => if q != 0 && Exists(s, q) then Blocked else st
    case WaitAtomic(q) => if q != 0 && DeadOther(s, q) then Running else if q != 0 && Exists(s, q) then Blocked else st
    case WaitCheck => if TargetGone(s) then Running else st
    case WaitNoHang(q) => if st == Terminated && q == pid != 0 then Unused else st
    case Reap => if st == Terminated && s.current >= 1 && s.Cur().detached then Unused else st
    case _ => st
  }

  /** The state of any other process after an operation of the running one. */
  function OtherNext(s: State, op: Op, i: nat): PState
    requires i < |s.procs| && s.current < |s.procs|
  {
    var p := s.procs[i];
    match p.state
    case Unused => if FirstUnused(s, i) && Succeeds(s, op) then (if op.isUser then Loading else Ready) else Unused
    case Loading =>
      if Kills(s, op, p.pid) then Terminated else if op.Activate? && op.pid == p.pid then Ready else Loading
    case Blocked =>
      if Kills(s, op, p.pid) then Terminated
      else if op.Terminate? && op.pid != 0 && Exists(s, op.pid) then Ready
      else if op.Exit? && s.Cur().pid != 0 && (p.waitTarget == 0 || p.waitTarget == s.Cur().pid) then Ready
      else Blocked
    case Terminated => if Buries(s, op, i) then Unused else Terminated
    case _ => if Kills(s, op, p.pid) then Terminated else p.state
  }

  lemma FindIsOne(s: State, pid: nat, i: nat)
    requires Inv(s) && i < |s.procs| && s.procs[i].state != Unused
    ensures Find(s.procs, pid) == i <==> s.procs[i].pid == pid
  {
    var j := Find(s.procs, pid);
    if s.procs[i].pid == pid { assert Apart(s, i, j); }
  }

  lemma FindExists(s: State, pid: nat)
    ensures Find(s.procs, pid) < |s.procs| <==> Exists(s, pid)
  {
  }

  lemma {:induction false} FreeIsFirst(s: State, k: nat, i: nat)
    requires 1 <= k <= |s.procs| && forall j :: 1 <= j < k ==> s.procs[j].state != Unused
    ensures i < |s.procs| ==> (FreeSlot(s.procs, k) == i <==> FirstUnused(s, i))
    decreases |s.procs| - k
  {
    if k < |s.procs| && s.procs[k].state != Unused { FreeIsFirst(s, k + 1, i); }
  }

  lemma {:induction false} ReapState(s: State, k: nat, i: nat)
    requires k <= |s.procs| && i < |s.procs|
    ensures |OnReap(s, k).procs| == |s.procs|
    ensures OnReap(s, k).procs[i].state ==
      if s.procs[i].state == Terminated && s.procs[i].detached && i >= k then Unused else s.procs[i].state
    decreases |s.procs| - k
  {
    if k < |s.procs| { ReapState(ReapOne(s, k), k + 1, i); }
  }

  lemma WaitState(s: State, i: nat)
    requires Shaped(s) && i < |s.procs| && s.Cur().state != Terminated && s.Cur().state != Unused
    ensures |OnWaitCheck(s).procs| == |s.procs|
    ensures i == s.current ==> OnWaitCheck(s).procs[i].state == if TargetGone(s) then Running else s.Cur().state
    ensures i != s.current ==>
      OnWaitCheck(s).procs[i].state ==
        if s.procs[i].state == Terminated && s.Cur().target == Some(i) then Unused else s.procs[i].state
  {
  }

  lemma AtomicState(s: State, q: nat, i: nat)
    requires Inv(s) && CanAct(s) && i < |s.procs|
    ensures |OnWaitCheck(OnWaitBlock(s, q)).procs| == |s.procs|
    ensures OnWaitCheck(OnWaitBlock(s, q)).procs[i].state ==
      if i == s.current then OwnNext(s, WaitAtomic(q), s.Cur().state) else OtherNext(s, WaitAtomic(q), i)
  {
    assert Shaped(s) && s.Cur().state != Unused;
    FindExists(s, q);
    var t := Find(s.procs, q);
    if t < |s.procs| && q != 0 {
      forall j | 0 <= j < |s.procs| && s.procs[j].state == Terminated && s.procs[j].pid == q ensures j == t {
        FindIsOne(s, q, j);
      }
      hide Inv, OnWaitCheck, Find, FirstUnused;
      WaitState(OnWaitBlock(s, q), i);
    } else {
      hide Inv, Find, FirstUnused;
      assert OnWaitCheck(s) == s;
    }
  }

  /** Looking up a pid finds slot i exactly if that is the pid of slot i, and somebody exactly if there is one. */
  ghost predicate Known(s: State, i: nat)
    requires i < |s.procs|
  {
    forall q: nat ::
      && (Find(s.procs, q) < |s.procs| <==> Exists(s, q))
      && (s.procs[i].state != Unused ==> (Find(s.procs, q) == i <==> s.procs[i].pid == q))
  }

  lemma ExitState(s: State, code: int, i: nat)
    requires Shaped(s) && CanAct(s) && i < |s.procs|
    ensures |OnExit(s, code).procs| == |s.procs|
    ensures OnExit(s, code).procs[i].state ==
      if i == s.current then OwnNext(s, Exit(code), s.Cur().state) else OtherNext(s, Exit(code), i)
  {
    hide FirstUnused, Exists, DeadOther;
  }

  lemma KillState(s: State, pid: nat, i: nat)
    requires Shaped(s) && CanAct(s) && i < |s.procs| && Known(s, i) && s.Cur().state != Unused
    ensures |OnTerminate(s, pid).procs| == |s.procs|
    ensures OnTerminate(s, pid).procs[i].state ==
      if i == s.current then OwnNext(s, Terminate(pid), s.Cur().state) else OtherNext(s, Terminate(pid), i)
  {
    hide Find, FirstUnused, Exists, DeadOther;
  }

  lemma PlainState(s: State, op: Op, i: nat)
    requires Shaped(s) && CanAct(s) && i < |s.procs| && Known(s, i)
    requires op.Start? || op.Activate? || op.Detach? || op.Sleep?
    ensures |Step(s, op).0.procs| == |s.procs|
    ensures Step(s, op).0.procs[i].state ==
      if i == s.current then OwnNext(s, op, s.Cur().state) else OtherNext(s, op, i)
  {
    hide Find, FirstUnused, Exists, DeadOther;
  }

  lemma WaitStates(s: State, op: Op, i: nat)
    requires Shaped(s) && CanAct(s) && i < |s.procs| && Known(s, i) && (op.WaitBlock? || op.WaitNoHang?)
    ensures |Step(s, op).0.procs| == |s.procs|
    ensures Step(s, op).0.procs[i].state ==
      if i == s.current then OwnNext(s, op, s.Cur().state) else OtherNext(s, op, i)
  {
    hide Find, FirstUnused, Exists, DeadOther;
  }

  lemma CreateState(s: State, op: Op, i: nat)
    requires Shaped(s) && CanAct(s) && i < |s.procs| && op.Create? && SlotOk(s, 0)
    ensures |Step(s, op).0.procs| == |s.procs|
    ensures Step(s, op).0.procs[i].state ==
      if i == s.current then OwnNext(s, op, s.Cur().state) else OtherNext(s, op, i)
  {
    hide FirstUnused, Exists, DeadOther, FreeSlot;
    FreeIsFirst(s, 1, i);
    if i == 0 { assert !FirstUnused(s, i) by { NotFirst(s); } }
  }

  lemma NotFirst(s: State)
    ensures !FirstUnused(s, 0)
  {
  }

  /** Every operation brings every process into exactly the state that its life allows: a new one is loaded and then
      activated, one that waits goes on when that which it waits for exits or anybody is killed, one that exits or is
      killed is dead until somebody waits for it or reaps it, and no other process changes state between two ticks. */
  lemma NextState(s: State, op: Op, i: nat)
    requires Inv(s) && Enabled(s, op) && !op.Tick? && i < |s.procs|
    ensures |Step(s, op).0.procs| == |s.procs|
    ensures Step(s, op).0.procs[i].state ==
      if i == s.current then OwnNext(s, op, s.Cur().state) else OtherNext(s, op, i)
  {
    assert Shaped(s) && s.Cur().state != Unused && SlotOk(s, 0);
    assert Known(s, i) by {
      forall q: nat
        ensures Find(s.procs, q) < |s.procs| <==> Exists(s, q)
        ensures s.procs[i].state != Unused ==> (Find(s.procs, q) == i <==> s.procs[i].pid == q)
      {
        FindExists(s, q);
        if s.procs[i].state != Unused { FindIsOne(s, q, i); }
      }
    }
    hide Inv, Find, FirstUnused, Exists, DeadOther, OnReap, OnExit, OnTerminate, OnActivate, OnDetach, OnSleep,
         OnWaitCheck, OnWaitNoHang, OnCreate, OnWaitBlock;
    match op {
      case Reap => ReapState(s, 1, i);
      case WaitCheck => WaitState(s, i);
      case WaitAtomic(q) => AtomicState(s, q, i);
      case Create(_, _, _) => CreateState(s, op, i);
      case Exit(code) => ExitState(s, code, i);
      case Terminate(pid) => KillState(s, pid, i);
      case WaitBlock(_) => WaitStates(s, op, i);
      case WaitNoHang(_) => WaitStates(s, op, i);
      case _ => PlainState(s, op, i);
    }
  }

  /** A new process is in the first slot that was not in use, under a pid that nobody has; it starts below the top of
      the kernel stack of its slot, with twenty saved registers, in an address space of its own, or in the one that is
      loaded. No other slot changes. */
  lemma NewProcess(s: State, op: Op, i: nat)
    requires Inv(s) && Enabled(s, op) && Succeeds(s, op) && FirstUnused(s, i) && s.stacks[i] >= 20 * 8
    ensures var s', top := Step(s, op).0, s.stacks[i];
      && s'.procs == s.procs[i := s'.procs[i]]
      && s'.procs[i].pid == s.nextPid && s'.procs[i].rsp == top - 20 * 8 && s'.procs[i].stackTop == top
      && s'.procs[i].cr3 == (if op.isUser then op.root else s.cr3) && !s'.procs[i].detached
      && Step(s, op).1 == [Created(i, top - 20 * 8)] && s'.nextPid == s.nextPid + 1 && !Exists(s, s.nextPid)
  {
    FreeIsFirst(s, 1, i);
    forall j: nat | j < |s.procs| && s.procs[j].state != Unused ensures s.procs[j].pid != s.nextPid {
      assert SlotOk(s, j);
    }
  }


  lemma {:induction false} ReapMark(s: State, k: nat, i: nat)
    requires k <= |s.procs| && i < |s.procs|
    ensures |OnReap(s, k).procs| == |s.procs|
    ensures OnReap(s, k).procs[i].state != Unused ==> OnReap(s, k).procs[i] == s.procs[i]
    decreases |s.procs| - k
  {
    if k < |s.procs| { ReapMark(ReapOne(s, k), k + 1, i); }
  }

  /** A process is a background one, which the reaper takes once it is dead, exactly from the moment somebody makes it
      one. */
  lemma Detached(s: State, op: Op, i: nat)
    requires Inv(s) && Enabled(s, op) && !op.Tick? && i < |s.procs| && s.procs[i].state != Unused
    ensures var s' := Step(s, op).0;
      && |s'.procs| == |s.procs|
      && (s'.procs[i].state != Unused ==>
            (s'.procs[i].detached <==> s.procs[i].detached || (op.Detach? && op.pid == s.procs[i].pid != 0)))
  {
    if op.Reap? {
      ReapMark(s, 1, i);
    } else {
      if op.Detach? { FindIsOne(s, op.pid, i); }
      hide Inv, Find;
      MarkKept(s, op, i);
    }
  }

  lemma MarkKept(s: State, op: Op, i: nat)
    requires Shaped(s) && Enabled(s, op) && !op.Tick? && !op.Reap? && i < |s.procs| && s.procs[i].state != Unused
    ensures var s' := Step(s, op).0;
      && |s'.procs| == |s.procs|
      && s'.procs[i].detached == (s.procs[i].detached || (op.Detach? && op.pid != 0 && Find(s.procs, op.pid) == i))
  {
    hide Find, OnExit, OnTerminate, OnActivate, OnDetach, OnSleep, OnWaitCheck, OnWaitNoHang, OnCreate;
    match op {
      case WaitCheck => CheckMark(s, i);
      case WaitAtomic(q) => CheckMark(OnWaitBlock(s, q), i);
      case _ => PlainMark(s, op, i);
    }
  }

  lemma CheckMark(s: State, i: nat)
    requires s.current < |s.procs| && i < |s.procs|
    ensures |OnWaitCheck(s).procs| == |s.procs| && OnWaitCheck(s).procs[i].detached == s.procs[i].detached
  {
  }

  lemma PlainMark(s: State, op: Op, i: nat)
    requires Shaped(s) && CanAct(s) && i < |s.procs| && s.procs[i].state != Unused
    requires InPlace(op) || op.WaitNoHang? || op.Create?
    ensures var s' := Step(s, op).0;
      && |s'.procs| == |s.procs|
      && s'.procs[i].detached == (s.procs[i].detached || (op.Detach? && op.pid != 0 && Find(s.procs, op.pid) == i))
  {
    hide Find, FreeSlot;
  }
}
