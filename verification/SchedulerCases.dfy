/** Runs from boot on which the exceptions to the scheduler's promises come about. */
module SchedulerCases {
  import opened Options
  import opened Scheduler
  import opened SchedulerProofs

  /** A run leads from one state to another. */
  ghost predicate Leads(s: State, ops: seq<Op>, s': State) {
    IsRun(s, ops) && Run(s, ops).0 == s'
  }

  lemma {:induction false} OneMore(s: State, ops: seq<Op>, s1: State, op: Op)
    requires Leads(s, ops, s1) && Shaped(s1) && Enabled(s1, op)
    ensures Leads(s, ops + [op], Step(s1, op).0)
    decreases |ops|
  {
    hide Step, Enabled;
    if ops == [] {
      assert (ops + [op])[0] == op && (ops + [op])[1..] == [];
      assert IsRun(Step(s1, op).0, []) && Run(Step(s1, op).0, []).0 == Step(s1, op).0;
    } else {
      OneMore(Step(s, ops[0]).0, ops[1..], s1, op);
      assert (ops + [op])[1..] == ops[1..] + [op];
    }
  }

  lemma FindIs(procs: seq<Proc>, pid: nat, i: nat)
    requires i < |procs| && procs[i].state != Unused && procs[i].pid == pid
    requires forall j :: 0 <= j < i ==> procs[j].pid != pid
    ensures Find(procs, pid) == i
  {
  }

  /** A user process in a slot. */
  function User(pid: nat, state: PState, top: nat, cr3: nat): Proc {
    Proc(pid, state, if top < CONTEXT_SIZE then 0 else top - CONTEXT_SIZE, top, cr3, 0, false, 0, 0, None)
  }

  function Kernel(top: nat): Proc {
    Proc(0, Running, 0, top, 7, 0, false, 0, 0, None)
  }

  /** Boot, and then one user process in slot 1 of three, loaded and made ready. */
  function OneReady(st: seq<nat>, quantum: nat): State
    requires |st| == 3
  {
    State([Kernel(st[0]), User(1, Ready, st[1], 9), EMPTY_SLOT], 0, quantum, 2, true, 0, 7, st[0], 7, quantum, st, {9})
  }

  const MAKE_READY := [Start, Create(true, 9, true), Activate(1)]

  function OneLoading(st: seq<nat>, quantum: nat): State
    requires |st| == 3
  {
    OneReady(st, quantum).(procs := [Kernel(st[0]), User(1, Loading, st[1], 9), EMPTY_SLOT])
  }

  lemma LoadingReached(st: seq<nat>, quantum: nat)
    requires |st| == 3 && quantum >= 1
    ensures Leads(Boot(3, quantum, 7, st), [Start, Create(true, 9, true)], OneLoading(st, quantum))
    ensures Inv(OneLoading(st, quantum))
  {
    var b := Boot(3, quantum, 7, st);
    BootOk(3, quantum, 7, st);
    assert b.procs == [Kernel(st[0]), EMPTY_SLOT, EMPTY_SLOT];
    assert Leads(b, [], b);
    hide Inv, Leads;
    OneMore(b, [], b, Start);
    var s1 := b.(enabled := true);
    StepKeepsInv(b, Start);
    OneMore(b, [Start], s1, Create(true, 9, true));
    assert FreeSlot(s1.procs, 1) == 1;
    assert Step(s1, Create(true, 9, true)).0 == OneLoading(st, quantum);
    StepKeepsInv(s1, Create(true, 9, true));
    assert [Start] + [Create(true, 9, true)] == [Start, Create(true, 9, true)];
  }

  lemma ReadyReached(st: seq<nat>, quantum: nat)
    requires |st| == 3 && quantum >= 1
    ensures Leads(Boot(3, quantum, 7, st), MAKE_READY, OneReady(st, quantum)) && Inv(OneReady(st, quantum))
  {
    hide Inv, Leads;
    var b, s2 := Boot(3, quantum, 7, st), OneLoading(st, quantum);
    LoadingReached(st, quantum);
    FindIs(s2.procs, 1, 1);
    OneMore(b, [Start, Create(true, 9, true)], s2, Activate(1));
    assert Step(s2, Activate(1)).0 == OneReady(st, quantum);
    assert [Start, Create(true, 9, true)] + [Activate(1)] == MAKE_READY;
    StepKeepsInv(s2, Activate(1));
  }

  /** A user process killed before it ran. */
  function OneKilled(st: seq<nat>): State
    requires |st| == 3
  {
    OneReady(st, 5).(procs := [Kernel(st[0]), User(1, Terminated, st[1], 9), EMPTY_SLOT])
  }

  lemma KilledReached(st: seq<nat>)
    requires |st| == 3
    ensures Leads(Boot(3, 5, 7, st), MAKE_READY + [Terminate(1)], OneKilled(st)) && Inv(OneKilled(st))
  {
    hide Inv, Leads;
    var s := OneReady(st, 5);
    ReadyReached(st, 5);
    FindIs(s.procs, 1, 1);
    OneMore(Boot(3, 5, 7, st), MAKE_READY, s, Terminate(1));
    assert Step(s, Terminate(1)).0 == OneKilled(st);
    StepKeepsInv(s, Terminate(1));
  }

  /** What the ELF loader does with a bad segment: it kills the process that it has made and waits for it.
      Its wait leaves it blocked on a dead process. */
  lemma LoaderBlocksOnDead(st: seq<nat>)
    requires |st| == 3
    ensures exists ops, s :: Leads(Boot(3, 5, 7, st), ops, s) && Inv(s) && NoStranded(s) &&
                        Enabled(s, WaitBlock(1)) && !NoStranded(Step(s, WaitBlock(1)).0)
  {
    hide Leads, Inv;
    var s := OneKilled(st);
    KilledReached(st);
    FindIs(s.procs, 1, 1);
    assert NoStranded(s) && CanAct(s) && BlocksOnDead(s, WaitBlock(1));
    BlockStrandsIffDead(s, 1);
  }

  /** A user process ready, and another one that was killed. */
  function SecondKilled(st: seq<nat>): State
    requires |st| == 3
  {
    OneReady(st, 5).(procs := [Kernel(st[0]), User(1, Ready, st[1], 9), User(2, Terminated, st[2], 10)], nextPid := 3,
                     spaces := {9, 10})
  }

  const KILL_SECOND := MAKE_READY + [Create(true, 10, true)] + [Terminate(2)]

  lemma SecondKilledReached(st: seq<nat>)
    requires |st| == 3
    ensures Leads(Boot(3, 5, 7, st), KILL_SECOND, SecondKilled(st)) && Inv(SecondKilled(st))
  {
    hide Leads;
    var b, s := Boot(3, 5, 7, st), OneReady(st, 5);
    ReadyReached(st, 5);
    OneMore(b, MAKE_READY, s, Create(true, 10, true));
    StepKeepsInv(s, Create(true, 10, true));
    hide Inv;
    var s1 := SecondKilled(st).(procs := [Kernel(st[0]), User(1, Ready, st[1], 9), User(2, Loading, st[2], 10)]);
    assert Step(s, Create(true, 10, true)).0 == s1 by {
      assert FreeSlot(s.procs, 1) == 2 && {9} + {10} == {9, 10};
    }
    FindIs(s1.procs, 2, 2);
    OneMore(b, MAKE_READY + [Create(true, 10, true)], s1, Terminate(2));
    StepKeepsInv(s1, Terminate(2));
    assert Step(s1, Terminate(2)).0 == SecondKilled(st);
  }

  /** The kernel blocked on the one that it has killed. */
  function KernelBlocked(st: seq<nat>): State
    requires |st| == 3
  {
    var s := SecondKilled(st);
    s.(procs := s.procs[0 := Kernel(st[0]).(waitTarget := 2, state := Blocked, target := Some(2))])
  }

  lemma BlockedReached(st: seq<nat>)
    requires |st| == 3
    ensures Leads(Boot(3, 5, 7, st), KILL_SECOND + [WaitBlock(2)], KernelBlocked(st)) && Inv(KernelBlocked(st))
  {
    hide Leads, Inv;
    var s := SecondKilled(st);
    SecondKilledReached(st);
    FindIs(s.procs, 2, 2);
    OneMore(Boot(3, 5, 7, st), KILL_SECOND, s, WaitBlock(2));
    StepKeepsInv(s, WaitBlock(2));
    assert Step(s, WaitBlock(2)).0 == KernelBlocked(st);
  }

  /** With another process ready, that wait never ends unless some process is killed. */
  lemma LoaderStranded(st: seq<nat>)
    requires |st| == 3
    ensures exists ops, s :: Leads(Boot(3, 5, 7, st), ops, s) && Inv(s) && Stranded(s, 0, 2)
  {
    hide Leads, Inv, OnTick;
    var s := KernelBlocked(st);
    BlockedReached(st);
    OneMore(Boot(3, 5, 7, st), KILL_SECOND + [WaitBlock(2)], s, Tick(100));
    TickKeepsInv(s, 100);
    SwitchesToOne(s);
  }

  /** A tick takes a blocked kernel process off the processor when slot 1 is ready. */
  lemma SwitchesToOne(s: State)
    requires |s.procs| == |s.stacks| == 3 && s.current == 0 && s.enabled && s.procs[0].state == Blocked
    requires s.procs[1].state == Ready
    requires s.procs[2].state == Terminated && s.procs[2].pid == 2 && s.procs[0].pid == 0 && s.procs[1].pid == 1
    requires s.procs[0].waitTarget == 2 && s.nextPid == 3
    ensures Stranded(Step(s, Tick(100)).0, 0, 2)
  {
    var s1 := s.(now := NextTick(s.now), procs := Wake(s.procs, NextTick(s.now)));
    var s3 := s1.(procs := s1.procs[0 := s1.Cur().(rsp := 100)]);
    assert s3.procs[Around(0, 1, 3)].state == Ready;
    assert NextReady(s3.procs, 0, 1) == 1;
  }

  /** The user process running, with its own page tables loaded. */
  function OneRunning(st: seq<nat>): State
    requires |st| == 3
  {
    var p := User(1, Running, st[1], 9);
    State([Kernel(st[0]).(rsp := 50, state := Ready), p, EMPTY_SLOT], 1, 1, 2, true, 1, 9, st[1], 7, 1, st, {9})
  }

  lemma RunningReached(st: seq<nat>)
    requires |st| == 3
    ensures Leads(Boot(3, 1, 7, st), MAKE_READY + [Tick(50)], OneRunning(st)) && Inv(OneRunning(st))
  {
    hide Inv, Leads;
    var s := OneReady(st, 1);
    ReadyReached(st, 1);
    OneMore(Boot(3, 1, 7, st), MAKE_READY, s, Tick(50));
    var s1 := s.(now := 1, procs := Wake(s.procs, 1));
    assert s1.procs == s.procs;
    var s3 := s1.(procs := s1.procs[0 := s1.Cur().(rsp := 50, state := Ready)]);
    assert s3.procs[Around(0, 1, 3)].state == Ready;
    assert NextReady(s3.procs, 0, 1) == 1;
    assert Step(s, Tick(50)).0 == OneRunning(st);
    TickKeepsInv(s, 50);
  }

  /** A kernel process made while a user process runs shares the page tables of that process. */
  lemma KernelProcessOnUserTables(st: seq<nat>)
    requires |st| == 3
    ensures exists ops, s ::
      && Leads(Boot(3, 1, 7, st), ops, s) && Inv(s) && Enabled(s, Create(false, 0, true))
      && SharesTables(s, Create(false, 0, true)) && !Inv(OnCreate(s, false, 0, true).0)
  {
    var s := OneRunning(st);
    RunningReached(st);
    assert FreeSlot(s.procs, 1) == 2;
    KernelProcessNeedsKernelTables(s, 0, true);
  }

  /** A process that kills itself and then waits for itself without blocking destroys the page tables that
      are loaded. */
  lemma SelfCleanup(st: seq<nat>)
    requires |st| == 3
    ensures exists ops, s ::
      && Leads(Boot(3, 1, 7, st), ops, s) && Inv(s) && Enabled(s, WaitNoHang(1)) && CleansSelf(s, WaitNoHang(1))
      && s.cr3 != s.kernelCr3 && s.cr3 !in Step(s, WaitNoHang(1)).0.spaces
  {
    var s := OneRunning(st);
    RunningReached(st);
    FindIs(s.procs, 1, 1);
    OneMore(Boot(3, 1, 7, st), MAKE_READY + [Tick(50)], s, Terminate(1));
    var s1 := Step(s, Terminate(1)).0;
    StepKeepsInv(s, Terminate(1));
    FindIs(s1.procs, 1, 1);
    CleanupHitsLoadedSpace(s1, 1);
  }
}
