/** Waiting in the scheduler: waiters are never left behind, and a ready process is dispatched soon. */
module SchedulerProofs {
  import opened Options
  import opened Scheduler

  // ----- the loaded address space -----

  /** On every orderly run the loaded page tables exist: they are the kernel's or a live address space. */
  lemma LoadedSpaceExists(s: State, ops: seq<Op>)
    requires Inv(s) && IsRun(s, ops) && Orderly(s, ops)
    ensures var s' := Run(s, ops).0; s'.cr3 == s'.kernelCr3 || s'.cr3 in s'.spaces
  {
    RunKeepsInv(s, ops);
    var s' := Run(s, ops).0;
    assert SlotOk(s', s'.current);
  }

  /** On every orderly run the address spaces that exist are exactly the own ones of the processes in the table. */
  lemma SpacesInUse(s: State, ops: seq<Op>)
    requires Inv(s) && IsRun(s, ops) && Orderly(s, ops)
    ensures var s' := Run(s, ops).0;
      forall x :: x in s'.spaces <==>
        x != s'.kernelCr3 && exists i: nat :: i < |s'.procs| && s'.procs[i].state != Unused && s'.procs[i].cr3 == x
  {
    RunKeepsInv(s, ops);
    var s' := Run(s, ops).0;
    forall x, i: nat | i < |s'.procs| && s'.procs[i].state != Unused && s'.procs[i].cr3 == x && x != s'.kernelCr3
      ensures x in s'.spaces
    {
      assert SlotOk(s', i);
    }
  }

  /** Cleaning up a dead process takes the loaded address space away exactly when that process is the
      one still executing on it. */
  lemma CleanupHitsLoadedSpace(s: State, i: nat)
    requires Inv(s) && i < |s.procs| && s.procs[i].state == Terminated
    ensures (s.cr3 != s.kernelCr3 && s.cr3 !in CleanSlot(s, i).spaces) <==> (i == s.current && s.cr3 != s.kernelCr3)
  {
    assert SlotOk(s, s.current) && SlotOk(s, i) && Apart(s, i, s.current);
  }

  /** Making a kernel process keeps the table in order exactly when the kernel's page tables are loaded;
      otherwise the new process shares those of a user process. */
  lemma KernelProcessNeedsKernelTables(s: State, root: nat, mapped: bool)
    requires Inv(s) && CanAct(s) && FreeSlot(s.procs, 1) < |s.procs|
    ensures Inv(OnCreate(s, false, root, mapped).0) <==> s.cr3 == s.kernelCr3
  {
    CreateKeepsInv(s, false, root, mapped);
  }

  // ----- waiters -----

  predicate Live(s: State, j: nat, pid: nat) {
    j < |s.procs| && s.procs[j].pid == pid && s.procs[j].state != Unused && s.procs[j].state != Terminated
  }

  ghost predicate WaiterOk(s: State, i: nat)
    requires i < |s.procs|
  {
    s.procs[i].state == Blocked ==> exists j: nat :: Live(s, j, s.procs[i].waitTarget)
  }

  /** Every blocked process waits for a process that is still alive. */
  ghost predicate NoStranded(s: State) {
    forall i: nat :: i < |s.procs| ==> WaiterOk(s, i)
  }

  /** Nobody alive died or lost its pid, and nobody became blocked or changed what it waits for. */
  predicate LivesOn(s: State, s': State, i: nat) {
    && |s'.procs| == |s.procs|
    && (i < |s.procs| && s.procs[i].state != Unused && s.procs[i].state != Terminated ==>
          s'.procs[i].pid == s.procs[i].pid && s'.procs[i].state != Unused && s'.procs[i].state != Terminated)
    && (i < |s.procs| && s'.procs[i].state == Blocked ==>
          s.procs[i].state == Blocked && s'.procs[i].waitTarget == s.procs[i].waitTarget)
  }

  lemma LivesOnKeeps(s: State, s': State)
    requires NoStranded(s) && |s'.procs| == |s.procs| && forall i: nat :: i < |s.procs| ==> LivesOn(s, s', i)
    ensures NoStranded(s')
  {
    forall i: nat | i < |s'.procs| ensures WaiterOk(s', i) {
      assert LivesOn(s, s', i) && WaiterOk(s, i);
      if s'.procs[i].state == Blocked {
        var j: nat :| Live(s, j, s.procs[i].waitTarget);
        assert LivesOn(s, s', j);
        assert Live(s', j, s'.procs[i].waitTarget);
      }
    }
  }

  lemma SwitchKeepsWaiters(s: State, rsp: nat)
    requires Shaped(s) && NoStranded(s)
    ensures NoStranded(Switch(s, rsp, NextReady(s.procs, s.current, 1)).0)
  {
    hide NoStranded;
    var s' := Switch(s, rsp, NextReady(s.procs, s.current, 1)).0;
    forall i: nat | i < |s.procs| ensures LivesOn(s, s', i) {
    }
    LivesOnKeeps(s, s');
  }

  lemma TickKeepsWaiters(s: State, rsp: nat)
    requires Shaped(s) && NoStranded(s)
    ensures NoStranded(OnTick(s, rsp).0)
  {
    hide NoStranded, Switch, NextReady;
    var now := NextTick(s.now);
    var s1 := s.(now := now, procs := Wake(s.procs, now));
    var (s2, give) := AfterQuantum(s1);
    forall i: nat | i < |s.procs| ensures LivesOn(s, s2, i) && LivesOn(s, s1, i) {
    }
    LivesOnKeeps(s, s1);
    LivesOnKeeps(s, s2);
    if s1.enabled && give {
      var p := s2.Cur();
      var s3 := s2.(procs := s2.procs[s2.current := p.(rsp := rsp, state := Requeue(p.state))]);
      forall i: nat | i < |s.procs| ensures LivesOn(s2, s3, i) {
      }
      LivesOnKeeps(s2, s3);
      SwitchKeepsWaiters(s3, rsp);
    }
  }

  lemma CleanKeepsWaiters(s: State, i: nat)
    requires NoStranded(s) && i < |s.procs| && s.procs[i].state == Terminated
    ensures NoStranded(CleanSlot(s, i))
  {
    var s' := CleanSlot(s, i);
    forall j: nat | j < |s.procs| ensures LivesOn(s, s', j) {
    }
    LivesOnKeeps(s, s');
  }

  lemma {:induction false} ReapKeepsWaiters(s: State, i: nat)
    requires NoStranded(s) && i <= |s.procs|
    ensures NoStranded(OnReap(s, i))
    decreases |s.procs| - i
  {
    if i < |s.procs| {
      if s.procs[i].state == Terminated && s.procs[i].detached {
        var s1 := CleanSlot(s, i);
        CleanKeepsWaiters(s, i);
        var s2 := s1.(procs := s1.procs[i := s1.procs[i].(detached := false)]);
        forall j: nat | j < |s1.procs| ensures LivesOn(s1, s2, j) {
        }
        LivesOnKeeps(s1, s2);
        ReapKeepsWaiters(s2, i + 1);
      } else {
        ReapKeepsWaiters(s, i + 1);
      }
    }
  }

  lemma ExitKeepsWaiters(s: State, code: int)
    requires Inv(s) && NoStranded(s) && CanAct(s)
    ensures NoStranded(OnExit(s, code))
  {
    var s' := OnExit(s, code);
    forall i: nat | i < |s'.procs| ensures WaiterOk(s', i) {
      assert WaiterOk(s, i);
      if s'.procs[i].state == Blocked {
        var j: nat :| Live(s, j, s.procs[i].waitTarget);
        assert Live(s', j, s'.procs[i].waitTarget);
      }
    }
  }

  lemma TerminateKeepsWaiters(s: State, pid: nat)
    requires NoStranded(s)
    ensures NoStranded(OnTerminate(s, pid))
  {
  }

  lemma SleepKeepsWaiters(s: State, ticks: nat)
    requires NoStranded(s) && CanAct(s)
    ensures NoStranded(OnSleep(s, ticks))
  {
    var s' := OnSleep(s, ticks);
    forall i: nat | i < |s.procs| ensures LivesOn(s, s', i) {
    }
    LivesOnKeeps(s, s');
  }

  /** The process to be waited for is another one, and dead already. */
  predicate BlocksOnDead(s: State, op: Op) {
    op.WaitBlock? && op.pid != 0 && Find(s.procs, op.pid) < |s.procs| &&
    s.procs[Find(s.procs, op.pid)].state == Terminated && Find(s.procs, op.pid) != s.current
  }

  /** The two-step waitpid strands its caller exactly when the target is already dead at the first step. */
  lemma BlockStrandsIffDead(s: State, pid: nat)
    requires Inv(s) && NoStranded(s) && CanAct(s)
    ensures NoStranded(OnWaitBlock(s, pid)) <==> !BlocksOnDead(s, WaitBlock(pid))
  {
    if pid != 0 && Find(s.procs, pid) < |s.procs| { BlockStrands(s, pid); }
  }

  lemma BlockStrands(s: State, pid: nat)
    requires Inv(s) && NoStranded(s) && CanAct(s) && pid != 0 && Find(s.procs, pid) < |s.procs|
    ensures NoStranded(OnWaitBlock(s, pid)) <==> !BlocksOnDead(s, WaitBlock(pid))
  {
    var s' := OnWaitBlock(s, pid);
    var t := Find(s.procs, pid);
    var c := s.current;
    if s.procs[t].state != Terminated || t == c {
      forall i: nat | i < |s'.procs| ensures WaiterOk(s', i) {
        if i == c {
          assert Live(s', t, pid);
        } else {
          assert WaiterOk(s, i);
          if s'.procs[i].state == Blocked {
            var j: nat :| Live(s, j, s.procs[i].waitTarget);
            assert Live(s', j, s'.procs[i].waitTarget);
          }
        }
      }
    } else {
      forall j: nat ensures !Live(s', j, pid) {
        if j < |s.procs| {
          assert Apart(s, j, t);
        }
      }
      assert !WaiterOk(s', c);
    }
  }

  /** The waiting loop ends: the caller runs on and a dead target is cleaned up. Whatever the caller
      was waiting for, nobody else is stranded by it. */
  lemma WaitCheckKeepsOthers(s: State)
    requires Enabled(s, WaitCheck) && s.Cur().state != Unused
    requires forall i: nat :: i < |s.procs| && i != s.current ==> WaiterOk(s, i)
    requires NoStranded(s) || TargetGone(s)
    ensures NoStranded(OnWaitCheck(s))
  {
    if TargetGone(s) {
      var i, s' := s.Cur().target.value, OnWaitCheck(s);
      forall k: nat | k < |s'.procs| ensures WaiterOk(s', k) {
        if k != s.current && s'.procs[k].state == Blocked {
          assert WaiterOk(s, k);
          var j: nat :| Live(s, j, s.procs[k].waitTarget);
          assert Live(s', j, s'.procs[k].waitTarget);
        }
      }
    }
  }

  /** With the test and the blocking in one step, waitpid strands nobody. */
  lemma AtomicWaitKeepsWaiters(s: State, pid: nat)
    requires Inv(s) && NoStranded(s) && CanAct(s)
    ensures NoStranded(OnWaitCheck(OnWaitBlock(s, pid)))
  {
    var t := Find(s.procs, pid);
    if t < |s.procs| && pid != 0 {
      BlockStrandsIffDead(s, pid);
      var s1 := OnWaitBlock(s, pid);
      forall i: nat | i < |s1.procs| && i != s1.current ensures WaiterOk(s1, i) {
        assert WaiterOk(s, i);
        if s1.procs[i].state == Blocked {
          var j: nat :| Live(s, j, s.procs[i].waitTarget);
          assert Live(s1, j, s1.procs[i].waitTarget);
        }
      }
      WaitCheckKeepsOthers(s1);
    }
  }

  lemma OtherOpKeepsWaiters(s: State, op: Op)
    requires Inv(s) && NoStranded(s) && Enabled(s, op)
    requires op.Create? || op.Activate? || op.Detach? || op.Start?
    ensures NoStranded(Step(s, op).0)
  {
    var s' := Step(s, op).0;
    forall i: nat | i < |s.procs| ensures LivesOn(s, s', i) {
    }
    LivesOnKeeps(s, s');
  }

  /** Every operation and every tick leaves nobody stranded, except exactly a wait for a dead process whose
      test and block are two steps. */
  lemma StepKeepsWaiters(s: State, op: Op)
    requires Inv(s) && NoStranded(s) && Enabled(s, op)
    ensures NoStranded(Step(s, op).0) <==> !BlocksOnDead(s, op)
  {
    match op
    case WaitBlock(pid) => BlockStrandsIffDead(s, pid);
    case Tick(rsp) => TickKeepsWaiters(s, rsp);
    case Exit(code) => ExitKeepsWaiters(s, code);
    case Terminate(pid) => TerminateKeepsWaiters(s, pid);
    case Sleep(ticks) => SleepKeepsWaiters(s, ticks);
    case WaitCheck => WaitCheckKeepsOthers(s);
    case WaitAtomic(pid) => AtomicWaitKeepsWaiters(s, pid);
    case WaitNoHang(pid) =>
      var i := Find(s.procs, pid);
      if i < |s.procs| && s.procs[i].state == Terminated { CleanKeepsWaiters(s, i); }
    case Reap => ReapKeepsWaiters(s, 1);
    case _ => OtherOpKeepsWaiters(s, op);
  }

  /** No process blocks on a dead one in a run. */
  predicate NeverBlocksOnDead(s: State, ops: seq<Op>)
    requires IsRun(s, ops)
    decreases |ops|
  {
    ops == [] || (!BlocksOnDead(s, ops[0]) && NeverBlocksOnDead(Step(s, ops[0]).0, ops[1..]))
  }

  /** On every orderly run in which no process blocks on a dead one, as none does when its test and block are one
      step, no process is blocked on one that is dead or gone, across exits, kills, reaping and the reuse
      of slots. */
  lemma {:induction false} RunStrandsNobody(s: State, ops: seq<Op>)
    requires Inv(s) && NoStranded(s) && IsRun(s, ops) && Orderly(s, ops) && NeverBlocksOnDead(s, ops)
    ensures NoStranded(Run(s, ops).0)
    decreases |ops|
  {
    if ops != [] {
      StepKeepsInv(s, ops[0]);
      StepKeepsWaiters(s, ops[0]);
      RunStrandsNobody(Step(s, ops[0]).0, ops[1..]);
    }
  }

  /** A process that is not running waits for one that is dead for good. */
  ghost predicate Stranded(s: State, i: nat, pid: nat) {
    && s.current < |s.procs| && i < |s.procs| && i != s.current && s.procs[i].state == Blocked
    && s.procs[i].waitTarget == pid
    && 0 < pid < s.nextPid && s.Cur().pid != pid
    && forall j: nat :: !Live(s, j, pid)
  }

  /** A dead slot stays dead and a blocked one blocked, under the same pid. */
  predicate Rests(s: State, s': State, j: nat) {
    && |s'.procs| == |s.procs|
    && (j < |s.procs| && s.procs[j].state in {Unused, Terminated, Blocked} ==>
          s'.procs[j].state == s.procs[j].state && s'.procs[j].waitTarget == s.procs[j].waitTarget)
    && (j < |s.procs| ==> s'.procs[j].pid == s.procs[j].pid)
  }

  lemma SwitchRests(s: State, rsp: nat, j: nat)
    requires Shaped(s)
    ensures var s' := Switch(s, rsp, NextReady(s.procs, s.current, 1)).0;
      && Rests(s, s', j) && s'.nextPid == s.nextPid
      && (s'.current == s.current || Live(s', s'.current, s'.procs[s'.current].pid))
  {
    hide NextReady;
  }

  lemma TickRests(s: State, rsp: nat, j: nat)
    requires Shaped(s)
    ensures var s' := OnTick(s, rsp).0;
      Rests(s, s', j) && s'.nextPid == s.nextPid && s'.current < |s'.procs| &&
      (s'.current == s.current || Live(s', s'.current, s'.procs[s'.current].pid))
  {
    hide Switch, NextReady;
    var now := NextTick(s.now);
    var s1 := s.(now := now, procs := Wake(s.procs, now));
    var (s2, give) := AfterQuantum(s1);
    if s1.enabled && give {
      var p := s2.Cur();
      var s3 := s2.(procs := s2.procs[s2.current := p.(rsp := rsp, state := Requeue(p.state))]);
      assert Rests(s, s3, j);
      SwitchRests(s3, rsp, j);
    }
  }

  lemma TickLeavesStranded(s: State, rsp: nat, i: nat, pid: nat)
    requires Inv(s) && Stranded(s, i, pid)
    ensures Stranded(OnTick(s, rsp).0, i, pid)
  {
    assert Shaped(s);
    hide Inv, OnTick;
    var s' := OnTick(s, rsp).0;
    forall j: nat ensures Rests(s, s', j) { TickRests(s, rsp, j); }
    TickRests(s, rsp, i);
    forall j: nat ensures !Live(s', j, pid) { assert Rests(s, s', j) && !Live(s, j, pid); }
    assert Rests(s, s', s.current) && Rests(s, s', i);
  }

  lemma {:induction false} ReapLeavesStranded(s: State, k: nat, i: nat, pid: nat)
    requires k <= |s.procs| && Stranded(s, i, pid) && !(s.Cur().state == Terminated && s.Cur().detached)
    ensures Stranded(OnReap(s, k), i, pid)
    decreases |s.procs| - k
  {
    if k < |s.procs| {
      if s.procs[k].state == Terminated && s.procs[k].detached {
        var s1 := CleanSlot(s, k);
        var s2 := s1.(procs := s1.procs[k := s1.procs[k].(detached := false)]);
        assert forall j: nat :: Live(s2, j, pid) ==> Live(s, j, pid);
        ReapLeavesStranded(s2, k + 1, i, pid);
      } else {
        ReapLeavesStranded(s, k + 1, i, pid);
      }
    }
  }

  lemma StepLeavesStranded(s: State, op: Op, i: nat, pid: nat)
    requires Inv(s) && Enabled(s, op) && !CleansSelf(s, op) && !op.Terminate? && Stranded(s, i, pid)
    ensures Stranded(Step(s, op).0, i, pid)
  {
    if op.Tick? {
      TickLeavesStranded(s, op.rsp, i, pid);
    } else if op.Reap? {
      assert SlotOk(s, 0);
      ReapLeavesStranded(s, 1, i, pid);
    } else {
      OpLeavesStranded(s, op, i, pid);
    }
  }

  /** Slot j holds no live process with this pid, and the stranded and the running one are as they were. */
  predicate LeavesSlot(s: State, s': State, i: nat, pid: nat, j: nat)
    requires s.current < |s.procs|
  {
    && |s'.procs| == |s.procs| && !Live(s', j, pid) && s'.nextPid >= s.nextPid && s'.current == s.current
    && i < |s.procs|
    && s'.procs[i].state == Blocked && s'.procs[i].waitTarget == pid && s'.Cur().pid == s.Cur().pid
  }

  lemma WaitLeavesSlot(s: State, op: Op, i: nat, pid: nat, j: nat)
    requires Shaped(s) && s.Cur().state != Unused && Enabled(s, op) && !CleansSelf(s, op) && Stranded(s, i, pid)
    requires op.WaitCheck? || op.WaitNoHang?
    ensures LeavesSlot(s, Step(s, op).0, i, pid, j)
  {
    hide Find;
    assert !Live(s, j, pid);
  }

  lemma BlockLeavesSlot(s: State, q: nat, i: nat, pid: nat, j: nat)
    requires Shaped(s) && s.Cur().state != Unused && CanAct(s) && Stranded(s, i, pid)
    ensures LeavesSlot(s, OnWaitBlock(s, q), i, pid, j)
  {
    hide Find;
    assert !Live(s, j, pid);
  }

  lemma NoTargetNoChange(s: State)
    requires s.current < |s.procs| && s.Cur().target == None
    ensures OnWaitCheck(s) == s
  {
  }

  lemma AtomicLeavesSlot(s: State, q: nat, i: nat, pid: nat, j: nat)
    requires Shaped(s) && s.Cur().state != Unused && CanAct(s) && Stranded(s, i, pid)
    ensures LeavesSlot(s, OnWaitCheck(OnWaitBlock(s, q)), i, pid, j)
  {
    hide Find, OnWaitCheck;
    var s1 := OnWaitBlock(s, q);
    if s1 == s {
      NoTargetNoChange(s);
      assert !Live(s, j, pid);
    } else {
      forall k: nat ensures !Live(s1, k, pid) { BlockLeavesSlot(s, q, i, pid, k); }
      WaitLeavesSlot(s1, WaitCheck, i, pid, j);
    }
  }

  lemma OtherLeavesSlot(s: State, op: Op, i: nat, pid: nat, j: nat)
    requires Shaped(s) && s.Cur().state != Unused && Enabled(s, op) && Stranded(s, i, pid)
    requires op.Start? || op.Activate? || op.Exit? || op.Detach? || op.Sleep?
    ensures LeavesSlot(s, Step(s, op).0, i, pid, j)
  {
    hide Find;
    assert !Live(s, j, pid);
  }

  lemma CreateLeavesSlot(s: State, op: Op, i: nat, pid: nat, j: nat)
    requires Shaped(s) && s.Cur().state != Unused && Enabled(s, op) && Stranded(s, i, pid) && op.Create?
    ensures LeavesSlot(s, Step(s, op).0, i, pid, j)
  {
    hide FreeSlot;
    assert !Live(s, j, pid);
  }

  lemma OpLeavesSlot(s: State, op: Op, i: nat, pid: nat, j: nat)
    requires Shaped(s) && s.Cur().state != Unused && Enabled(s, op) && !CleansSelf(s, op) && Stranded(s, i, pid)
    requires !op.Terminate? && !op.Tick? && !op.Reap?
    ensures LeavesSlot(s, Step(s, op).0, i, pid, j)
  {
    hide OnWaitBlock, OnWaitCheck, OnWaitNoHang, OnCreate, OnActivate, OnExit, OnDetach, OnSleep, CleansSelf, Stranded,
         LeavesSlot;
    match op
    case WaitBlock(q) => BlockLeavesSlot(s, q, i, pid, j);
    case WaitAtomic(q) => AtomicLeavesSlot(s, q, i, pid, j);
    case WaitCheck => WaitLeavesSlot(s, op, i, pid, j);
    case WaitNoHang(q) => WaitLeavesSlot(s, op, i, pid, j);
    case Create(_, _, _) => CreateLeavesSlot(s, op, i, pid, j);
    case _ => OtherLeavesSlot(s, op, i, pid, j);
  }

  lemma OpLeavesStranded(s: State, op: Op, i: nat, pid: nat)
    requires Inv(s) && Enabled(s, op) && !CleansSelf(s, op) && !op.Terminate? && !op.Tick? && !op.Reap?
    requires Stranded(s, i, pid)
    ensures Stranded(Step(s, op).0, i, pid)
  {
    assert Shaped(s) && s.Cur().state != Unused;
    hide Inv, Step, CleansSelf;
    OpLeavesSlot(s, op, i, pid, i);
    forall j: nat ensures !Live(Step(s, op).0, j, pid) { OpLeavesSlot(s, op, i, pid, j); }
  }

  /** Only a kill releases a process that is stranded: on every orderly run without one it stays blocked. */
  lemma {:induction false} StrandedForGood(s: State, ops: seq<Op>, i: nat, pid: nat)
    requires Inv(s) && IsRun(s, ops) && Orderly(s, ops) && Stranded(s, i, pid)
    requires forall op :: op in ops ==> !op.Terminate?
    ensures Stranded(Run(s, ops).0, i, pid)
    decreases |ops|
  {
    if ops != [] {
      StepKeepsInv(s, ops[0]);
      StepLeavesStranded(s, ops[0], i, pid);
      StrandedForGood(Step(s, ops[0]).0, ops[1..], i, pid);
    }
  }

  // ----- bounded waiting -----

  /** How many places past the running slot p is, going round. */
  function Distance(s: State, p: nat): (d: nat)
    requires s.current < |s.procs| && p < |s.procs|
    ensures 1 <= d <= |s.procs| && Around(s.current, d, |s.procs|) == p
  {
    if p > s.current then p - s.current else p + |s.procs| - s.current
  }

  /** The most ticks p can still have to wait: full quanta for the slots in between, and what is left
      of the running one. */
  function Patience(s: State, p: nat): nat
    requires s.current < |s.procs| && p < |s.procs|
  {
    Queue(s, p) + s.remaining
  }

  /** Full quanta for the slots between the running one and p. */
  function Queue(s: State, p: nat): nat
    requires s.current < |s.procs| && p < |s.procs|
  {
    (Distance(s, p) - 1) * s.quantum
  }

  /** What is left of the quantum is part of it. */
  predicate Paced(s: State) {
    Shaped(s) && 1 <= s.remaining <= s.quantum
  }

  predicate IsWaiting(s: State, p: nat) {
    Paced(s) && s.enabled && p < |s.procs| && p != s.current && s.procs[p].state == Ready
  }

  predicate Contains(events: seq<Event>, p: nat) {
    exists k :: 0 <= k < |events| && events[k].Dispatched? && events[k].slot == p
  }

  lemma QuantaLess(a: nat, b: nat, q: nat)
    requires a <= b
    ensures a * q <= b * q
  {
  }

  lemma AroundAgain(c: nat, d: nat, e: nat, n: nat)
    requires c < n && d < e <= n
    ensures Around(Around(c, d, n), e - d, n) == Around(c, e, n)
  {
  }

  lemma SwitchProgress(s: State, rsp: nat, d: nat, p: nat)
    requires IsWaiting(s, p) && d == NextReady(s.procs, s.current, 1)
    ensures var (s', _, ev) := Switch(s, rsp, d);
      || Contains(ev, p)
      || (IsWaiting(s', p) && s'.procs[p] == s.procs[p] && Patience(s', p) <= Queue(s, p))
  {
    var n, e := |s.procs|, Distance(s, p);
    assert Around(s.current, e, n) == p;
    assert 1 <= d <= e;
    var (s', _, ev) := Switch(s, rsp, d);
    var next := Around(s.current, d, n);
    if d == e {
      assert ev[1] == Dispatched(p, s.procs[p].rsp);
    } else {
      AroundAgain(s.current, d, e, n);
      assert Around(next, e - d, n) == p;
      assert Distance(s', p) == e - d;
      QuantaLess(e - d, e - 1, s.quantum);
      assert Patience(s', p) == (e - d) * s.quantum by { Unfold(e - d, s.quantum); }
    }
  }

  lemma Unfold(k: nat, q: nat)
    requires k >= 1
    ensures (k - 1) * q + q == k * q
  {
  }

  lemma ComparePatience(s: State, s': State, p: nat)
    requires Shaped(s) && s.current == s'.current && |s'.procs| == |s.procs| && p < |s.procs| && s'.quantum == s.quantum
    ensures s.remaining > s'.remaining ==> Patience(s, p) > Patience(s', p)
    ensures s.remaining >= 1 ==> Patience(s, p) > Queue(s', p)
  {
  }

  /** A tick dispatches a waiting process or shortens its wait. */
  lemma TickProgress(s: State, rsp: nat, p: nat)
    requires IsWaiting(s, p)
    ensures var (s', _, ev) := OnTick(s, rsp);
      || Contains(ev, p)
      || (IsWaiting(s', p) && s'.procs[p].pid == s.procs[p].pid && Patience(s', p) < Patience(s, p))
  {
    hide NextReady, Switch, Patience, Distance, Queue;
    var now := NextTick(s.now);
    var s1 := s.(now := now, procs := Wake(s.procs, now));
    assert s1.procs[p] == s.procs[p];
    var (s2, give) := AfterQuantum(s1);
    if give {
      var q := s2.Cur();
      var s3 := s2.(procs := s2.procs[s2.current := q.(rsp := rsp, state := Requeue(q.state))]);
      assert s3.procs[p] == s.procs[p];
      ComparePatience(s, s3, p);
      SwitchProgress(s3, rsp, NextReady(s3.procs, s3.current, 1), p);
    } else {
      assert OnTick(s, rsp).0 == s2 && s2.procs[p] == s.procs[p];
      ComparePatience(s, s2, p);
    }
  }

  lemma {:induction false} ReapSparesReady(s: State, i: nat, p: nat)
    requires i <= |s.procs| && p < |s.procs| && s.procs[p].state == Ready
    ensures OnReap(s, i).procs[p] == s.procs[p]
    ensures OnReap(s, i) == s.(procs := OnReap(s, i).procs, spaces := OnReap(s, i).spaces)
    decreases |s.procs| - i
  {
    if i < |s.procs| {
      if s.procs[i].state == Terminated && s.procs[i].detached {
        var s1 := CleanSlot(s, i);
        ReapSparesReady(s1.(procs := s1.procs[i := s1.procs[i].(detached := false)]), i + 1, p);
      } else {
        ReapSparesReady(s, i + 1, p);
      }
    }
  }

  /** No other operation of the running process, short of killing it, makes a waiting process wait longer. */
  lemma OpSparesWaiting(s: State, op: Op, p: nat)
    requires IsWaiting(s, p) && Enabled(s, op) && !op.Tick? && op != Terminate(s.procs[p].pid)
    ensures var s' := Step(s, op).0;
      IsWaiting(s', p) && s'.procs[p].pid == s.procs[p].pid && Patience(s', p) == Patience(s, p)
  {
    OpSparesSlot(s, op, p);
    SamePatience(s, Step(s, op).0, p);
  }

  lemma OpSparesSlot(s: State, op: Op, p: nat)
    requires IsWaiting(s, p) && Enabled(s, op) && !op.Tick? && op != Terminate(s.procs[p].pid)
    ensures var s' := Step(s, op).0;
      && |s'.procs| == |s.procs| && s'.stacks == s.stacks && s'.procs[p].state == Ready
      && s'.procs[p].pid == s.procs[p].pid
      && s'.current == s.current && s'.remaining == s.remaining && s'.quantum == s.quantum && s'.enabled
  {
    hide Find, FreeSlot;
    match op
    case Reap => ReapSparesReady(s, 1, p);
    case _ =>
  }

  lemma SamePatience(s: State, s': State, p: nat)
    requires Shaped(s) && s.current == s'.current && |s'.procs| == |s.procs| && p < |s.procs|
    requires s'.remaining == s.remaining && s'.quantum == s.quantum
    ensures Patience(s', p) == Patience(s, p)
  {
  }

  function Ticks(ops: seq<Op>): nat {
    if ops == [] then 0 else (if ops[0].Tick? then 1 else 0) + Ticks(ops[1..])
  }

  lemma {:induction false} WaitEnds(s: State, ops: seq<Op>, p: nat)
    requires IsWaiting(s, p) && IsRun(s, ops)
    requires Terminate(s.procs[p].pid) !in ops && Ticks(ops) >= Patience(s, p)
    ensures Contains(Run(s, ops).1, p)
    decreases |ops|
  {
    assert Patience(s, p) >= 1;
    var (s1, ev) := Step(s, ops[0]);
    var evs := Run(s1, ops[1..]).1;
    if ops[0].Tick? {
      TickProgress(s, ops[0].rsp, p);
    } else {
      OpSparesWaiting(s, ops[0], p);
    }
    if Contains(ev, p) {
      var k :| 0 <= k < |ev| && ev[k].Dispatched? && ev[k].slot == p;
      assert (ev + evs)[k] == ev[k];
    } else {
      WaitEnds(s1, ops[1..], p);
      var k :| 0 <= k < |evs| && evs[k].Dispatched? && evs[k].slot == p;
      assert (ev + evs)[|ev| + k] == evs[k];
    }
  }

  /** A ready process that is not running is dispatched within a quantum per other slot, whatever else
      happens in between, orderly or not, unless it is killed. */
  lemma BoundedWaiting(s: State, ops: seq<Op>, p: nat)
    requires IsWaiting(s, p) && IsRun(s, ops)
    requires Terminate(s.procs[p].pid) !in ops && Ticks(ops) >= (|s.procs| - 1) * s.quantum
    ensures Contains(Run(s, ops).1, p)
  {
    PatienceBounded(s, p);
    hide IsWaiting, IsRun, Run, Ticks, Patience, Contains;
    WaitEnds(s, ops, p);
  }

  lemma PatienceBounded(s: State, p: nat)
    requires IsWaiting(s, p)
    ensures Patience(s, p) <= (|s.procs| - 1) * s.quantum
  {
    var d := Distance(s, p);
    QuantaLess(d, |s.procs| - 1, s.quantum);
    Unfold(d, s.quantum);
  }
}
