/** Processes and the round-robin scheduler as a step system: the operations of the running process,
    interleaved with timer ticks. */
module Scheduler {
  import opened Options

  datatype PState = Unused | Loading | Ready | Running | Blocked | Sleeping | Terminated

  /** One slot of the process table. `target` is the slot a process inside waitpid is looking at. */
  datatype Proc = Proc(pid: nat, state: PState, rsp: nat, stackTop: nat, cr3: nat, exitCode: int, detached: bool,
                       waitTarget: nat, wakeTick: nat, target: Option<nat>)

  /** The scheduler's variables, the registers it loads, and the address spaces that exist. */
  datatype State = State(procs: seq<Proc>, current: nat, remaining: nat, nextPid: nat, enabled: bool, now: nat,
                         cr3: nat, rsp0: nat, kernelCr3: nat, quantum: nat, stacks: seq<nat>, spaces: set<nat>)
  {
    function Cur(): Proc
      requires current < |procs|
    {
      procs[current]
    }
  }

  const TICK_WRAP: nat := 0x1_0000_0000
  const CONTEXT_SIZE: nat := 160

  /** What an observer of the context switches sees. */
  datatype Event = SwitchedOut(slot: nat, rsp: nat) | Created(slot: nat, rsp: nat) | Dispatched(slot: nat, rsp: nat)

  datatype Op =
    | Tick(rsp: nat)
    | Start
    | Create(isUser: bool, root: nat, mapped: bool)
    | Activate(pid: nat)
    | Exit(code: int)
    | Terminate(pid: nat)
    | WaitBlock(pid: nat)
    | WaitCheck
    | WaitAtomic(pid: nat)
    | WaitNoHang(pid: nat)
    | Detach(pid: nat)
    | Reap
    | Sleep(ticks: nat)

  // ----- the table -----

  /** The first slot with this pid that is in use, |procs| if there is none. */
  function Find(procs: seq<Proc>, pid: nat): (i: nat)
    ensures i <= |procs|
    ensures i < |procs| ==> procs[i].state != Unused && procs[i].pid == pid
    ensures forall j :: 0 <= j < i ==> procs[j].state == Unused || procs[j].pid != pid
  {
    FindFrom(procs, pid, 0)
  }

  function FindFrom(procs: seq<Proc>, pid: nat, k: nat): (i: nat)
    requires k <= |procs|
    ensures k <= i <= |procs|
    ensures i < |procs| ==> procs[i].state != Unused && procs[i].pid == pid
    ensures forall j :: k <= j < i ==> procs[j].state == Unused || procs[j].pid != pid
    decreases |procs| - k
  {
    if k == |procs| then k
    else if procs[k].state != Unused && procs[k].pid == pid then k
    else FindFrom(procs, pid, k + 1)
  }

  /** The first unused slot from k on, |procs| if there is none. */
  function FreeSlot(procs: seq<Proc>, k: nat): (i: nat)
    requires k <= |procs|
    ensures k <= i <= |procs|
    ensures i < |procs| ==> procs[i].state == Unused
    decreases |procs| - k
  {
    if k == |procs| then k else if procs[k].state == Unused then k else FreeSlot(procs, k + 1)
  }

  function SetState(procs: seq<Proc>, i: nat, st: PState): seq<Proc>
    requires i < |procs|
  {
    procs[i := procs[i].(state := st)]
  }

  // ----- the timer tick -----

  function Woken(p: Proc, now: nat): Proc {
    if p.state == Sleeping && p.wakeTick <= now then p.(wakeTick := 0, state := Ready) else p
  }

  /** Every sleeper but slot 0 whose time has come is ready. */
  function Wake(procs: seq<Proc>, now: nat): (r: seq<Proc>)
    ensures |r| == |procs|
    ensures forall i :: 0 <= i < |procs| ==> r[i] == if i == 0 then procs[i] else Woken(procs[i], now)
  {
    seq(|procs|, i requires 0 <= i < |procs| => if i == 0 then procs[i] else Woken(procs[i], now))
  }

  /** The slot d places past `start`, wrapping around: (start + d) % n. */
  function Around(start: nat, d: nat, n: nat): (i: nat)
    requires start < n && d <= n
    ensures i < n
  {
    if start + d < n then start + d else start + d - n
  }

  lemma AroundIsModulo(start: nat, d: nat, n: nat)
    requires start < n && d <= n
    ensures Around(start, d, n) == (start + d) % n
  {
    if start + d < n { SmallModulo(start + d, n); } else { OverModulo(start + d, n); }
  }

  lemma SmallModulo(x: nat, n: nat)
    requires x < n
    ensures x % n == x
  {
  }

  lemma OverModulo(x: nat, n: nat)
    requires n <= x < 2 * n
    ensures x % n == x - n
  {
    var q := x / n;
    Division(x, n, q);
    if q >= 2 { Larger(2, q, n); }
  }

  lemma Division(x: nat, n: nat, q: nat)
    requires n > 0 && q == x / n
    ensures x == q * n + x % n
  {
  }

  lemma Larger(a: nat, b: nat, n: nat)
    requires a <= b
    ensures a * n <= b * n
  {
  }

  /** How far past `start` the next ready slot is, looking at distances from d on; 0 if there is none. */
  function NextReady(procs: seq<Proc>, start: nat, d: nat): (r: nat)
    requires start < |procs| && 1 <= d <= |procs| + 1
    ensures r == 0 || d <= r <= |procs|
    ensures r != 0 ==> procs[Around(start, r, |procs|)].state == Ready
    ensures forall k: nat :: d <= k <= |procs| && (r == 0 || k < r) ==> procs[Around(start, k, |procs|)].state != Ready
    decreases |procs| + 1 - d
  {
    if d == |procs| + 1 then 0
    else if procs[Around(start, d, |procs|)].state == Ready then d
    else NextReady(procs, start, d + 1)
  }

  /** The current process gives way when it cannot run or its quantum ends. */
  function AfterQuantum(s: State): (r: (State, bool))
    requires s.current < |s.procs|
  {
    var st := s.Cur().state;
    if st == Terminated || st == Blocked || st == Sleeping then (s, true)
    else
      var left := if s.remaining > 0 then s.remaining - 1 else 0;
      if left == 0 then (s.(remaining := s.quantum), true) else (s.(remaining := left), false)
  }

  function Requeue(st: PState): PState {
    if st == Running then Ready else st
  }

  /** Switches away from the current process; d is the distance to the next ready slot, 0 for none. */
  function Switch(s: State, rsp: nat, d: nat): (r: (State, nat, seq<Event>))
    requires s.current < |s.procs| && d <= |s.procs|
  {
    if d == 0 then
      var procs := if s.Cur().state == Ready then SetState(s.procs, s.current, Running) else s.procs;
      (s.(procs := procs), rsp, [])
    else
      var next := Around(s.current, d, |s.procs|);
      var p := s.procs[next];
      (s.(procs := SetState(s.procs, next, Running), current := next, rsp0 := p.stackTop, cr3 := p.cr3,
          remaining := s.quantum),
       p.rsp, [SwitchedOut(s.current, rsp), Dispatched(next, p.rsp)])
  }

  /** The 32-bit tick counter. */
  function NextTick(now: nat): nat {
    (now + 1) % TICK_WRAP
  }

  /** The timer interrupt: the stack pointer to resume on, and the switches that happened. */
  function OnTick(s: State, rsp: nat): (r: (State, nat, seq<Event>))
    requires s.current < |s.procs|
  {
    var now := NextTick(s.now);
    var s1 := s.(now := now, procs := Wake(s.procs, now));
    if !s1.enabled then (s1, rsp, [])
    else
      var (s2, give) := AfterQuantum(s1);
      if !give then (s2, rsp, [])
      else
        var p := s2.Cur();
        var s3 := s2.(procs := s2.procs[s2.current := p.(rsp := rsp, state := Requeue(p.state))]);
        Switch(s3, rsp, NextReady(s3.procs, s3.current, 1))
  }

  // ----- the operations of the running process -----

  /** A process executes operations while it is neither asleep nor inside waitpid. One that killed itself
      goes on until the next tick. */
  predicate CanAct(s: State) {
    && s.current < |s.procs| && s.Cur().target == None
    && (s.Cur().state == Running || s.Cur().state == Ready || s.Cur().state == Terminated)
  }

  /** The process that executes the operation is dead and would clean itself up. */
  predicate CleansSelf(s: State, op: Op) {
    s.current < |s.procs| && s.Cur().state == Terminated &&
    match op
    case WaitNoHang(pid) => pid != 0 && Find(s.procs, pid) == s.current
    case Reap => s.current >= 1 && s.Cur().detached
    case _ => false
  }

  /** A kernel process is made while the page tables of a user process are loaded. */
  predicate SharesTables(s: State, op: Op) {
    op.Create? && !op.isUser && s.cr3 != s.kernelCr3 && |s.procs| >= 1 && FreeSlot(s.procs, 1) < |s.procs|
  }

  /** The operations that leave the table out of order. */
  predicate Breaks(s: State, op: Op) {
    CleansSelf(s, op) || SharesTables(s, op)
  }

  /** Frees the memory of slot i and the slot itself. */
  function CleanSlot(s: State, i: nat): State
    requires i < |s.procs|
  {
    var p := s.procs[i];
    s.(procs := s.procs[i := p.(state := Unused, pid := 0, cr3 := 0)],
       spaces := if p.cr3 == s.kernelCr3 then s.spaces else s.spaces - {p.cr3})
  }

  function OnCreate(s: State, isUser: bool, root: nat, mapped: bool): (r: (State, seq<Event>))
    requires |s.procs| >= 1 && |s.stacks| == |s.procs|
  {
    var i := FreeSlot(s.procs, 1);
    if i == |s.procs| then (s, [])
    else
      var cr3 := if isUser then root else s.cr3;
      var top := s.stacks[i];
      if cr3 == 0 then
        (s.(procs := s.procs[i := s.procs[i].(pid := s.nextPid, cr3 := 0)], nextPid := s.nextPid + 1), [])
      else if isUser && !mapped then
        var q := Proc(s.nextPid, Unused, s.procs[i].rsp, top, 0, 0, false, 0, 0, None);
        (s.(procs := s.procs[i := q], nextPid := s.nextPid + 1), [])
      else
        var rsp := if top < CONTEXT_SIZE then 0 else top - CONTEXT_SIZE;
        var q := Proc(s.nextPid, if isUser then Loading else Ready, rsp, top, cr3, 0, false, 0, 0, None);
        (s.(procs := s.procs[i := q], nextPid := s.nextPid + 1,
            spaces := if isUser then s.spaces + {root} else s.spaces),
         [Created(i, rsp)])
  }

  function OnActivate(s: State, pid: nat): State {
    var i := Find(s.procs, pid);
    if i < |s.procs| && s.procs[i].state == Loading then s.(procs := SetState(s.procs, i, Ready)) else s
  }

  /** A process blocked on `pid`, or on nothing in particular, becomes ready. */
  function Unblock(p: Proc, pid: nat): Proc {
    if p.state == Blocked && (p.waitTarget == 0 || p.waitTarget == pid) then p.(state := Ready, waitTarget := 0) else p
  }

  function UnblockWaiters(procs: seq<Proc>, pid: nat): (r: seq<Proc>)
    ensures |r| == |procs| && forall i :: 0 <= i < |procs| ==> r[i] == Unblock(procs[i], pid)
  {
    seq(|procs|, i requires 0 <= i < |procs| => Unblock(procs[i], pid))
  }

  function Release(p: Proc): Proc {
    if p.state == Blocked then p.(state := Ready) else p
  }

  function ReleaseAll(procs: seq<Proc>): (r: seq<Proc>)
    ensures |r| == |procs| && forall i :: 0 <= i < |procs| ==> r[i] == Release(procs[i])
  {
    seq(|procs|, i requires 0 <= i < |procs| => Release(procs[i]))
  }

  function OnExit(s: State, code: int): State
    requires s.current < |s.procs|
  {
    if s.Cur().pid == 0 then s
    else s.(procs := UnblockWaiters(s.procs[s.current := s.Cur().(state := Terminated, exitCode := code)], s.Cur().pid))
  }

  function OnTerminate(s: State, pid: nat): State {
    var i := Find(s.procs, pid);
    if i == |s.procs| || pid == 0 then s else s.(procs := ReleaseAll(SetState(s.procs, i, Terminated)))
  }

  /** The first step of a blocking waitpid: the caller is marked blocked before the target is looked at. */
  function OnWaitBlock(s: State, pid: nat): State
    requires s.current < |s.procs|
  {
    var i := Find(s.procs, pid);
    if i == |s.procs| || pid == 0 then s
    else s.(procs := s.procs[s.current := s.Cur().(waitTarget := pid, state := Blocked, target := Some(i))])
  }

  /** The test of the waiting loop, and what follows once it ends. */
  function OnWaitCheck(s: State): State
    requires s.current < |s.procs|
  {
    match s.Cur().target
    case None => s
    case Some(i) =>
      if i >= |s.procs| || (s.procs[i].state != Terminated && s.procs[i].state != Unused) then s
      else
        var dead := s.procs[i].state == Terminated;
        var s1 := s.(procs := s.procs[s.current := s.Cur().(state := Running, waitTarget := 0, target := None)]);
        if dead then CleanSlot(s1, i) else s1
  }

  /** The process that the caller is waiting for is dead or gone. */
  predicate TargetGone(s: State)
    requires s.current < |s.procs|
  {
    s.Cur().target.Some? && s.Cur().target.value < |s.procs| &&
    (s.procs[s.Cur().target.value].state == Terminated || s.procs[s.Cur().target.value].state == Unused)
  }

  function OnWaitNoHang(s: State, pid: nat): State {
    var i := Find(s.procs, pid);
    if i == |s.procs| || pid == 0 || s.procs[i].state != Terminated then s else CleanSlot(s, i)
  }

  /** What a wait returns: -1 if there is no such process any more, the exit code of a dead one; without blocking 0
      if it is not dead yet, and otherwise nothing as long as it waits. */
  function WaitCode(s: State, op: Op): Option<int> {
    match op
    case WaitNoHang(pid) =>
      var i := Find(s.procs, pid);
      if i == |s.procs| || pid == 0 then Some(-1)
      else if s.procs[i].state != Terminated then Some(0)
      else Some(s.procs[i].exitCode)
    case WaitCheck =>
      if s.current < |s.procs| && TargetGone(s) then
        var p := s.procs[s.Cur().target.value];
        Some(if p.state == Terminated then p.exitCode else -1)
      else None
    case _ => None
  }

  function OnDetach(s: State, pid: nat): State {
    var i := Find(s.procs, pid);
    if i == |s.procs| || pid == 0 then s else s.(procs := s.procs[i := s.procs[i].(detached := true)])
  }

  /** Slot i after the reaper came by. */
  function ReapOne(s: State, i: nat): State
    requires i < |s.procs|
  {
    if s.procs[i].state == Terminated && s.procs[i].detached then
      var s1 := CleanSlot(s, i);
      s1.(procs := s1.procs[i := s1.procs[i].(detached := false)])
    else s
  }

  /** Cleans every dead background process from slot i on. */
  function OnReap(s: State, i: nat): (r: State)
    requires i <= |s.procs|
    ensures |r.procs| == |s.procs|
    decreases |s.procs| - i
  {
    if i == |s.procs| then s else OnReap(ReapOne(s, i), i + 1)
  }

  lemma ReapNext(s: State, i: nat)
    requires i < |s.procs|
    ensures |ReapOne(s, i).procs| == |s.procs| && OnReap(s, i) == OnReap(ReapOne(s, i), i + 1)
  {
  }

  function OnSleep(s: State, ticks: nat): State
    requires s.current < |s.procs|
  {
    if s.Cur().pid == 0 || ticks == 0 then s
    else s.(procs := s.procs[s.current := s.Cur().(wakeTick := s.now + ticks, state := Sleeping)])
  }

  // ----- runs -----

  /** Which operations can happen. A new root table is a frame that is no live address space. */
  predicate Enabled(s: State, op: Op) {
    match op
    case Tick(_) => true
    case WaitCheck => s.current < |s.procs| && s.Cur().state != Terminated && s.Cur().target != None
    case Create(isUser, root, _) =>
      CanAct(s) && (isUser ==> root !in s.spaces && root != s.kernelCr3)
    case _ => CanAct(s)
  }

  predicate Shaped(s: State) {
    s.current < |s.procs| && |s.procs| >= 1 && |s.stacks| == |s.procs|
  }

  function Step(s: State, op: Op): (r: (State, seq<Event>))
    requires Shaped(s)
  {
    match op
    case Tick(rsp) => var (s', _, ev) := OnTick(s, rsp); (s', ev)
    case Start => (s.(enabled := true), [])
    case Create(isUser, root, mapped) => OnCreate(s, isUser, root, mapped)
    case Activate(pid) => (OnActivate(s, pid), [])
    case Exit(code) => (OnExit(s, code), [])
    case Terminate(pid) => (OnTerminate(s, pid), [])
    case WaitBlock(pid) => (OnWaitBlock(s, pid), [])
    case WaitCheck => (OnWaitCheck(s), [])
    case WaitAtomic(pid) => (OnWaitCheck(OnWaitBlock(s, pid)), [])
    case WaitNoHang(pid) => (OnWaitNoHang(s, pid), [])
    case Detach(pid) => (OnDetach(s, pid), [])
    case Reap => (OnReap(s, 1), [])
    case Sleep(ticks) => (OnSleep(s, ticks), [])
  }

  // ----- what every step keeps -----

  predicate SlotOk(s: State, i: nat)
    requires i < |s.procs|
  {
    var p := s.procs[i];
    if i == 0 then p.pid == 0 && p.cr3 == s.kernelCr3 && (p.state == Ready || p.state == Running || p.state == Blocked)
    else p.state != Unused ==> 1 <= p.pid < s.nextPid && (p.cr3 == s.kernelCr3 || p.cr3 in s.spaces)
  }

  /** Two processes in use differ in pid, and share an address space only if it is the kernel's. */
  predicate Apart(s: State, i: nat, j: nat)
    requires i < |s.procs| && j < |s.procs|
  {
    var p, q := s.procs[i], s.procs[j];
    i != j && p.state != Unused && q.state != Unused ==> p.pid != q.pid && (p.cr3 == q.cr3 ==> p.cr3 == s.kernelCr3)
  }

  /** An address space belongs to a process. */
  ghost predicate Held(s: State, x: nat) {
    exists i: nat :: i < |s.procs| && s.procs[i].state != Unused && s.procs[i].cr3 == x
  }

  ghost predicate Inv(s: State) {
    && Shaped(s)
    && 1 <= s.nextPid && 1 <= s.remaining <= s.quantum && s.kernelCr3 != 0
    && s.kernelCr3 !in s.spaces && 0 !in s.spaces && (forall x :: x in s.spaces ==> Held(s, x))
    && (forall i: nat :: i < |s.procs| ==> SlotOk(s, i))
    && (forall i: nat, j: nat :: i < |s.procs| && j < |s.procs| ==> Apart(s, i, j))
    && s.Cur().state != Unused
    && (forall i :: 0 <= i < |s.procs| && s.procs[i].state == Running ==> i == s.current)
    && s.cr3 == s.Cur().cr3 && s.rsp0 == s.Cur().stackTop
  }

  /** Slot i keeps its identity: only its state, saved stack pointer and waiting fields may differ. */
  predicate SlotKept(s: State, s': State, i: nat)
    requires i < |s.procs| && i < |s'.procs|
  {
    var p, q := s.procs[i], s'.procs[i];
    && q.pid == p.pid && q.cr3 == p.cr3 && q.stackTop == p.stackTop && (p.state == Unused <==> q.state == Unused)
    && (i == 0 ==> q.state == Ready || q.state == Running || q.state == Blocked)
  }

  ghost predicate TableKept(s: State, s': State) {
    && |s'.procs| == |s.procs| && s'.stacks == s.stacks && s'.nextPid == s.nextPid && s'.kernelCr3 == s.kernelCr3
    && s'.spaces == s.spaces && s'.quantum == s.quantum
    && forall i: nat :: i < |s.procs| ==> SlotKept(s, s', i)
  }

  lemma TableKeepsInv(s: State, s': State)
    requires Inv(s) && TableKept(s, s') && Shaped(s') && 1 <= s'.remaining <= s'.quantum
    requires s'.Cur().state != Unused && s'.cr3 == s'.Cur().cr3 && s'.rsp0 == s'.Cur().stackTop
    requires forall i :: 0 <= i < |s'.procs| && s'.procs[i].state == Running ==> i == s'.current
    ensures Inv(s')
  {
    forall i: nat | i < |s.procs| ensures SlotOk(s', i) {
      assert SlotOk(s, i) && SlotKept(s, s', i);
    }
    forall i: nat, j: nat | i < |s.procs| && j < |s.procs| ensures Apart(s', i, j) {
      assert Apart(s, i, j) && SlotKept(s, s', i) && SlotKept(s, s', j);
    }
    forall x | x in s'.spaces ensures Held(s', x) {
      var i: nat :| i < |s.procs| && s.procs[i].state != Unused && s.procs[i].cr3 == x;
      assert SlotKept(s, s', i);
    }
  }

  /** An operation that only changes slots in place, while the same process runs on, keeps the invariant. */
  lemma InPlaceKeepsInv(s: State, s': State)
    requires Inv(s) && TableKept(s, s') && s' == s.(procs := s'.procs, now := s'.now, enabled := s'.enabled)
    requires forall i :: 0 <= i < |s'.procs| && s'.procs[i].state == Running ==> i == s.current
    ensures Inv(s')
  {
    assert SlotKept(s, s', s.current);
    TableKeepsInv(s, s');
  }

  lemma SwitchKeepsInv(s: State, rsp: nat, d: nat)
    requires Inv(s) && d == NextReady(s.procs, s.current, 1) && s.Cur().state != Running
    ensures Inv(Switch(s, rsp, d).0)
  {
    var s' := Switch(s, rsp, d).0;
    forall i: nat | i < |s.procs| ensures SlotKept(s, s', i) {
      assert SlotOk(s, i);
    }
    TableKeepsInv(s, s');
  }

  lemma WakeKeepsInv(s: State, now: nat)
    requires Inv(s)
    ensures Inv(s.(now := now, procs := Wake(s.procs, now)))
  {
    var s' := s.(now := now, procs := Wake(s.procs, now));
    forall i: nat | i < |s.procs| ensures SlotKept(s, s', i) {
      assert SlotOk(s, i);
    }
    InPlaceKeepsInv(s, s');
  }

  lemma GiveWayKeepsInv(s: State, rsp: nat)
    requires Inv(s)
    ensures Inv(s.(procs := s.procs[s.current := s.Cur().(rsp := rsp, state := Requeue(s.Cur().state))]))
  {
    var s' := s.(procs := s.procs[s.current := s.Cur().(rsp := rsp, state := Requeue(s.Cur().state))]);
    forall i: nat | i < |s.procs| ensures SlotKept(s, s', i) {
      assert SlotOk(s, i);
    }
    InPlaceKeepsInv(s, s');
  }

  lemma QuantumKeepsInv(s: State)
    requires Inv(s)
    ensures Inv(AfterQuantum(s).0)
  {
    var s' := AfterQuantum(s).0;
    forall i: nat | i < |s.procs| ensures SlotKept(s, s', i) {
      assert SlotOk(s, i);
    }
    TableKeepsInv(s, s');
  }

  lemma TickKeepsInv(s: State, rsp: nat)
    requires Inv(s)
    ensures Inv(OnTick(s, rsp).0)
  {
    assert Shaped(s);
    hide Inv;
    var now := NextTick(s.now);
    WakeKeepsInv(s, now);
    var s1 := s.(now := now, procs := Wake(s.procs, now));
    QuantumKeepsInv(s1);
    var (s2, give) := AfterQuantum(s1);
    if s1.enabled && give {
      GiveWayKeepsInv(s2, rsp);
      var p := s2.Cur();
      var s3 := s2.(procs := s2.procs[s2.current := p.(rsp := rsp, state := Requeue(p.state))]);
      SwitchKeepsInv(s3, rsp, NextReady(s3.procs, s3.current, 1));
    }
  }

  lemma CleanKeepsInv(s: State, i: nat)
    requires Inv(s) && i < |s.procs| && s.procs[i].state == Terminated && i != s.current
    ensures Inv(CleanSlot(s, i))
    ensures s.cr3 in s.spaces ==> s.cr3 in CleanSlot(s, i).spaces
  {
    var s' := CleanSlot(s, i);
    assert SlotOk(s, i) && SlotOk(s, s.current) && Apart(s, i, s.current);
    forall j: nat | j < |s.procs| ensures SlotOk(s', j) {
      assert SlotOk(s, j) && Apart(s, i, j);
    }
    forall j: nat, k: nat | j < |s.procs| && k < |s.procs| ensures Apart(s', j, k) {
      assert Apart(s, j, k);
    }
    forall x | x in s'.spaces ensures Held(s', x) {
      var j: nat :| j < |s.procs| && s.procs[j].state != Unused && s.procs[j].cr3 == x;
      assert s'.procs[j] == s.procs[j];
    }
  }

  /** Clearing the background mark of a slot that is not in use keeps the invariant. */
  lemma UnmarkKeepsInv(s: State, i: nat)
    requires Inv(s) && i < |s.procs| && s.procs[i].state == Unused
    ensures Inv(s.(procs := s.procs[i := s.procs[i].(detached := false)]))
  {
    var s' := s.(procs := s.procs[i := s.procs[i].(detached := false)]);
    forall j: nat | j < |s.procs| ensures SlotKept(s, s', j) {
      assert SlotOk(s, j);
    }
    InPlaceKeepsInv(s, s');
  }

  lemma {:induction false} ReapKeepsInv(s: State, i: nat)
    requires Inv(s) && i <= |s.procs| && s.current < |s.procs| && !(s.Cur().state == Terminated && s.Cur().detached)
    ensures Inv(OnReap(s, i))
    ensures OnReap(s, i).current == s.current && OnReap(s, i).procs[s.current] == s.Cur() && OnReap(s, i).cr3 == s.cr3
    ensures s.cr3 in s.spaces ==> s.cr3 in OnReap(s, i).spaces
    decreases |s.procs| - i
  {
    hide Inv;
    if i < |s.procs| {
      if s.procs[i].state == Terminated && s.procs[i].detached {
        CleanKeepsInv(s, i);
        UnmarkKeepsInv(CleanSlot(s, i), i);
        var s1 := CleanSlot(s, i);
        ReapKeepsInv(s1.(procs := s1.procs[i := s1.procs[i].(detached := false)]), i + 1);
      } else {
        ReapKeepsInv(s, i + 1);
      }
    }
  }

  lemma {:induction false} ReapCleans(s: State, i: nat, k: nat)
    requires i <= k < |s.procs| && s.procs[k].state == Terminated && s.procs[k].detached
    ensures OnReap(s, i).procs[k].state == Unused && OnReap(s, i).current == s.current
    decreases |s.procs| - i
  {
    if i < k {
      ReapCleans(ReapOne(s, i), i + 1, k);
    } else {
      ReapLeavesEarlier(ReapOne(s, k), k + 1, k);
    }
  }

  lemma {:induction false} ReapLeavesEarlier(s: State, i: nat, k: nat)
    requires k < i <= |s.procs|
    ensures OnReap(s, i).procs[k] == s.procs[k] && OnReap(s, i).current == s.current
    decreases |s.procs| - i
  {
    if i < |s.procs| {
      ReapLeavesEarlier(ReapOne(s, i), i + 1, k);
    }
  }

  /** A new or failed process in unused slot i, under a pid never used before. */
  lemma FillKeepsInv(s: State, i: nat, p: Proc, spaces: set<nat>)
    requires Inv(s) && 1 <= i < |s.procs| && s.procs[i].state == Unused
    requires p.pid == s.nextPid && (p.state == Unused || p.state == Loading || p.state == Ready)
    requires s.spaces <= spaces && s.kernelCr3 !in spaces && 0 !in spaces
    requires p.state != Unused ==> p.cr3 == s.kernelCr3 || (p.cr3 in spaces && p.cr3 !in s.spaces)
    requires forall x :: x in spaces && x !in s.spaces ==> p.state != Unused && p.cr3 == x
    ensures Inv(s.(procs := s.procs[i := p], nextPid := s.nextPid + 1, spaces := spaces))
  {
    var s' := s.(procs := s.procs[i := p], nextPid := s.nextPid + 1, spaces := spaces);
    forall j: nat | j < |s.procs| ensures SlotOk(s', j) {
      assert SlotOk(s, j);
    }
    forall j: nat, k: nat | j < |s.procs| && k < |s.procs| ensures Apart(s', j, k) {
      assert Apart(s, j, k) && SlotOk(s, j) && SlotOk(s, k);
    }
    forall x | x in spaces ensures Held(s', x) {
      if x in s.spaces {
        var j: nat :| j < |s.procs| && s.procs[j].state != Unused && s.procs[j].cr3 == x;
        assert s'.procs[j] == s.procs[j];
      } else {
        assert s'.procs[i] == p;
      }
    }
  }

  lemma CreateKeepsInv(s: State, isUser: bool, root: nat, mapped: bool)
    requires Inv(s) && Enabled(s, Create(isUser, root, mapped))
    ensures Inv(OnCreate(s, isUser, root, mapped).0) <==> !SharesTables(s, Create(isUser, root, mapped))
  {
    var i := FreeSlot(s.procs, 1);
    if i < |s.procs| {
      var s' := OnCreate(s, isUser, root, mapped).0;
      assert SlotOk(s, s.current);
      if SharesTables(s, Create(isUser, root, mapped)) {
        assert !Apart(s', i, s.current);
      } else {
        FillKeepsInv(s, i, s'.procs[i], s'.spaces);
      }
    }
  }

  lemma WaitCheckKeepsInv(s: State)
    requires Inv(s) && Enabled(s, WaitCheck)
    ensures Inv(OnWaitCheck(s))
  {
    var i := s.Cur().target.value;
    if i < |s.procs| && (s.procs[i].state == Terminated || s.procs[i].state == Unused) {
      var s1 := s.(procs := s.procs[s.current := s.Cur().(state := Running, waitTarget := 0, target := None)]);
      forall j: nat | j < |s.procs| ensures SlotKept(s, s1, j) {
        assert SlotOk(s, j);
      }
      InPlaceKeepsInv(s, s1);
      if s.procs[i].state == Terminated {
        CleanKeepsInv(s1, i);
      }
    }
  }

  /** The operations that only change slots in place. */
  predicate InPlace(op: Op) {
    op.Start? || op.Activate? || op.Exit? || op.Terminate? || op.WaitBlock? || op.Detach? || op.Sleep?
  }

  /** Slot i is kept, and running only if it is the current one. */
  predicate SlotStays(s: State, s': State, i: nat)
    requires i < |s.procs|
  {
    |s'.procs| == |s.procs| && SlotKept(s, s', i) && (s'.procs[i].state == Running ==> i == s.current)
  }

  lemma ExitSlots(s: State, code: int, i: nat)
    requires Shaped(s) && CanAct(s) && i < |s.procs| && SlotOk(s, i) && (s.procs[i].state == Running ==> i == s.current)
    ensures SlotStays(s, OnExit(s, code), i)
  {
    hide UnblockWaiters;
  }

  lemma TerminateSlots(s: State, pid: nat, i: nat)
    requires Shaped(s) && CanAct(s) && i < |s.procs| && SlotOk(s, i) && (s.procs[i].state == Running ==> i == s.current)
    ensures SlotStays(s, OnTerminate(s, pid), i)
  {
    hide Find, ReleaseAll;
  }

  lemma InPlaceSlots(s: State, op: Op, i: nat)
    requires Shaped(s) && Enabled(s, op) && InPlace(op) && i < |s.procs| && SlotOk(s, i)
    requires s.procs[i].state == Running ==> i == s.current
    ensures SlotStays(s, Step(s, op).0, i)
  {
    hide Find, OnExit, OnTerminate;
    match op
    case Exit(code) => ExitSlots(s, code, i);
    case Terminate(pid) => TerminateSlots(s, pid, i);
    case _ =>
  }

  lemma InPlaceRest(s: State, op: Op)
    requires Shaped(s) && Enabled(s, op) && InPlace(op)
    ensures var s' := Step(s, op).0;
      |s'.procs| == |s.procs| && s' == s.(procs := s'.procs, enabled := s'.enabled)
  {
    hide Find;
  }

  lemma InPlaceOpKeepsInv(s: State, op: Op)
    requires Inv(s) && Enabled(s, op) && InPlace(op)
    ensures Inv(Step(s, op).0)
  {
    hide Step, Enabled;
    var s' := Step(s, op).0;
    InPlaceRest(s, op);
    forall i: nat | i < |s.procs| ensures SlotKept(s, s', i) && (s'.procs[i].state == Running ==> i == s.current) {
      assert SlotOk(s, i);
      InPlaceSlots(s, op, i);
    }
    InPlaceKeepsInv(s, s');
  }

  /** Every operation of the running process, and every tick, keeps the scheduler's invariant, except
      exactly when a process that killed itself cleans itself up, or a kernel process is made on the page
      tables of a user process. */
  lemma StepKeepsInv(s: State, op: Op)
    requires Inv(s) && Enabled(s, op)
    ensures Inv(Step(s, op).0) <==> !Breaks(s, op)
  {
    if SharesTables(s, op) {
      CreateKeepsInv(s, op.isUser, op.root, op.mapped);
    } else if CleansSelf(s, op) {
      if op.Reap? { ReapCleans(s, 1, s.current); }
    } else {
      OpKeepsInv(s, op);
    }
  }

  lemma OpKeepsInv(s: State, op: Op)
    requires Inv(s) && Enabled(s, op) && !Breaks(s, op)
    ensures Inv(Step(s, op).0)
  {
    match op
    case Tick(rsp) => TickKeepsInv(s, rsp);
    case Create(isUser, root, mapped) => CreateKeepsInv(s, isUser, root, mapped);
    case WaitCheck => WaitCheckKeepsInv(s);
    case WaitAtomic(pid) =>
      InPlaceOpKeepsInv(s, WaitBlock(pid));
      if OnWaitBlock(s, pid) != s {
        WaitCheckKeepsInv(OnWaitBlock(s, pid));
      }
    case WaitNoHang(pid) =>
      var i := Find(s.procs, pid);
      if i < |s.procs| && pid != 0 && s.procs[i].state == Terminated { CleanKeepsInv(s, i); }
    case Reap =>
      assert SlotOk(s, 0);
      ReapKeepsInv(s, 1);
    case _ => InPlaceOpKeepsInv(s, op);
  }

  // ----- runs -----

  /** Each operation of a run can happen where it happens. */
  predicate IsRun(s: State, ops: seq<Op>)
    decreases |ops|
  {
    ops == [] || (Shaped(s) && Enabled(s, ops[0]) && IsRun(Step(s, ops[0]).0, ops[1..]))
  }

  /** No process cleans itself up in a run, nor is a kernel process made on a user's page tables. */
  predicate Orderly(s: State, ops: seq<Op>)
    requires IsRun(s, ops)
    decreases |ops|
  {
    ops == [] || (!Breaks(s, ops[0]) && Orderly(Step(s, ops[0]).0, ops[1..]))
  }

  function Run(s: State, ops: seq<Op>): (r: (State, seq<Event>))
    requires IsRun(s, ops)
    decreases |ops|
  {
    if ops == [] then (s, [])
    else
      var (s1, ev) := Step(s, ops[0]);
      var (s2, evs) := Run(s1, ops[1..]);
      (s2, ev + evs)
  }

  /** On every orderly run only the current process is running, and the loaded page tables and interrupt stack
      are its own. */
  lemma {:induction false} RunKeepsInv(s: State, ops: seq<Op>)
    requires Inv(s) && IsRun(s, ops) && Orderly(s, ops)
    ensures Inv(Run(s, ops).0)
    decreases |ops|
  {
    if ops != [] {
      StepKeepsInv(s, ops[0]);
      RunKeepsInv(Step(s, ops[0]).0, ops[1..]);
    }
  }

  // ----- a dispatched process resumes where it left off -----

  /** The stack pointer of the last time slot i was created or switched out. */
  function LastSaved(events: seq<Event>, i: nat): Option<nat>
  {
    if events == [] then None
    else
      var e := events[|events| - 1];
      if !e.Dispatched? && e.slot == i then Some(e.rsp) else LastSaved(events[..|events| - 1], i)
  }

  /** Every dispatch in the log is to the stack pointer last saved for that slot. */
  predicate ResumesSaved(events: seq<Event>) {
    forall k :: 0 <= k < |events| && events[k].Dispatched? ==>
      LastSaved(events[..k], events[k].slot) == Some(events[k].rsp)
  }

  /** The log agrees with the stack pointers stored for the processes that are not running. */
  ghost predicate LogAgrees(s: State, events: seq<Event>) {
    && ResumesSaved(events)
    && forall i: nat :: i < |s.procs| && i != s.current && s.procs[i].state != Unused ==>
         LastSaved(events, i) == Some(s.procs[i].rsp)
  }

  lemma LogOne(events: seq<Event>, e: Event, i: nat)
    ensures LastSaved(events + [e], i) == if !e.Dispatched? && e.slot == i then Some(e.rsp) else LastSaved(events, i)
  {
    assert (events + [e])[..|events|] == events;
  }

  lemma ResumesOne(events: seq<Event>, e: Event)
    requires ResumesSaved(events) && (e.Dispatched? ==> LastSaved(events, e.slot) == Some(e.rsp))
    ensures ResumesSaved(events + [e])
  {
    var evs := events + [e];
    forall k | 0 <= k < |evs| && evs[k].Dispatched? ensures LastSaved(evs[..k], evs[k].slot) == Some(evs[k].rsp) {
      assert k < |events| ==> evs[..k] == events[..k];
      assert k == |events| ==> evs[..k] == events;
    }
  }

  /** The stored stack pointers and the running process are as before, and no slot came into use. */
  predicate Quiet(s: State, s': State) {
    && |s'.procs| == |s.procs| && s'.current == s.current
    && forall i: nat :: i < |s.procs| && s'.procs[i].state != Unused ==>
         s.procs[i].state != Unused && s'.procs[i].rsp == s.procs[i].rsp
  }

  lemma {:induction false} ReapIsQuiet(s: State, i: nat)
    requires Shaped(s) && i <= |s.procs|
    ensures Quiet(s, OnReap(s, i))
    decreases |s.procs| - i
  {
    if i < |s.procs| {
      if s.procs[i].state == Terminated && s.procs[i].detached {
        var s1 := CleanSlot(s, i);
        ReapIsQuiet(s1.(procs := s1.procs[i := s1.procs[i].(detached := false)]), i + 1);
      } else {
        ReapIsQuiet(s, i + 1);
      }
    }
  }

  lemma WaitCheckQuiet(s: State)
    requires Shaped(s) && s.Cur().state != Unused
    ensures Quiet(s, OnWaitCheck(s))
  {
  }

  lemma OtherStepsQuiet(s: State, op: Op)
    requires Shaped(s) && s.Cur().state != Unused && Enabled(s, op) && !op.Tick? && !op.Create?
    ensures Quiet(s, Step(s, op).0) && Step(s, op).1 == []
  {
    hide Find, Quiet, OnWaitBlock, OnWaitCheck, OnReap, OnExit, OnTerminate, OnActivate, OnWaitNoHang, OnDetach,
         OnSleep;
    match op
    case Reap => ReapIsQuiet(s, 1);
    case WaitCheck => WaitCheckQuiet(s);
    case WaitAtomic(pid) => AtomicQuiet(s, pid);
    case _ => PlainStepsQuiet(s, op);
  }

  lemma AtomicQuiet(s: State, pid: nat)
    requires Shaped(s) && s.Cur().state != Unused
    ensures Quiet(s, OnWaitCheck(OnWaitBlock(s, pid)))
  {
    hide Find, OnWaitCheck;
    WaitCheckQuiet(OnWaitBlock(s, pid));
    assert Quiet(s, OnWaitBlock(s, pid));
  }

  lemma PlainStepsQuiet(s: State, op: Op)
    requires Shaped(s) && s.Cur().state != Unused && Enabled(s, op) && (InPlace(op) || op.WaitNoHang?)
    ensures Quiet(s, Step(s, op).0)
  {
    hide Find, CanAct;
  }

  lemma SwitchAgrees(s: State, rsp: nat, d: nat, events: seq<Event>)
    requires Shaped(s) && LogAgrees(s, events) && d == NextReady(s.procs, s.current, 1) && s.Cur().rsp == rsp
    ensures LogAgrees(Switch(s, rsp, d).0, events + Switch(s, rsp, d).2)
  {
    if d == 0 {
      assert events + [] == events;
    } else {
      var next := Around(s.current, d, |s.procs|);
      var e1, e2 := SwitchedOut(s.current, rsp), Dispatched(next, s.procs[next].rsp);
      var ev1 := events + [e1];
      forall i: nat ensures LastSaved(ev1 + [e2], i) == if i == s.current then Some(rsp) else LastSaved(events, i) {
        LogOne(events, e1, i);
        LogOne(ev1, e2, i);
      }
      LogOne(events, e1, next);
      ResumesOne(events, e1);
      ResumesOne(ev1, e2);
      assert events + [e1, e2] == ev1 + [e2];
    }
  }

  lemma TickAgrees(s: State, rsp: nat, events: seq<Event>)
    requires Shaped(s) && LogAgrees(s, events)
    ensures LogAgrees(OnTick(s, rsp).0, events + OnTick(s, rsp).2)
  {
    hide ResumesSaved;
    var now := NextTick(s.now);
    var s1 := s.(now := now, procs := Wake(s.procs, now));
    assert LogAgrees(s1, events);
    var (s2, give) := AfterQuantum(s1);
    assert LogAgrees(s2, events);
    assert events + [] == events;
    if s1.enabled && give {
      var p := s2.Cur();
      var s3 := s2.(procs := s2.procs[s2.current := p.(rsp := rsp, state := Requeue(p.state))]);
      SwitchAgrees(s3, rsp, NextReady(s3.procs, s3.current, 1), events);
    }
  }

  /** A process that cleaned itself up and runs on is not waiting for anything. */
  predicate Settled(s: State) {
    Shaped(s) && (s.Cur().state == Unused ==> s.Cur().target == None)
  }

  lemma TickSettles(s: State, rsp: nat)
    requires Settled(s)
    ensures Settled(OnTick(s, rsp).0)
  {
    hide NextReady;
  }

  lemma {:induction false} ReapSettles(s: State, i: nat)
    requires Shaped(s) && s.Cur().target == None && i <= |s.procs|
    ensures Shaped(OnReap(s, i)) && OnReap(s, i).Cur().target == None
    decreases |s.procs| - i
  {
    if i < |s.procs| { ReapSettles(ReapOne(s, i), i + 1); }
  }

  lemma StepSettles(s: State, op: Op)
    requires Settled(s) && Enabled(s, op)
    ensures Settled(Step(s, op).0)
  {
    hide OnTick, OnReap, OnExit, OnTerminate, OnActivate, OnDetach, OnSleep, OnWaitBlock, OnWaitCheck, OnWaitNoHang,
         OnCreate;
    match op
    case Tick(rsp) => TickSettles(s, rsp);
    case Reap => ReapSettles(s, 1);
    case WaitCheck => WaitSettles(s);
    case WaitAtomic(pid) =>
      PlainSettles(s, WaitBlock(pid));
      WaitSettles(OnWaitBlock(s, pid));
    case _ => PlainSettles(s, op);
  }

  lemma WaitSettles(s: State)
    requires Settled(s)
    ensures Settled(OnWaitCheck(s))
  {
  }

  lemma PlainSettles(s: State, op: Op)
    requires Settled(s) && CanAct(s) && (InPlace(op) || op.WaitNoHang? || op.Create?)
    ensures Settled(Step(s, op).0)
  {
    hide Find, FreeSlot;
  }

  lemma StepAgrees(s: State, op: Op, events: seq<Event>)
    requires Settled(s) && Enabled(s, op) && LogAgrees(s, events)
    ensures LogAgrees(Step(s, op).0, events + Step(s, op).1)
  {
    if op.Tick? {
      TickAgrees(s, op.rsp, events);
    } else if op.Create? {
      var (s', ev) := Step(s, op);
      if ev == [] {
        assert events + ev == events;
      } else {
        forall i: nat
          ensures LastSaved(events + [ev[0]], i) == if i == ev[0].slot then Some(ev[0].rsp) else LastSaved(events, i)
        {
          LogOne(events, ev[0], i);
        }
        ResumesOne(events, ev[0]);
        assert events + ev == events + [ev[0]];
      }
    } else {
      OtherStepsQuiet(s, op);
      assert events + [] == events;
    }
  }

  /** On every run, orderly or not, every dispatched process resumes at the stack pointer saved when it was
      last switched out, or set up when it was created. */
  lemma {:induction false} RunResumesSaved(s: State, ops: seq<Op>, events: seq<Event>)
    requires Settled(s) && IsRun(s, ops) && LogAgrees(s, events)
    ensures LogAgrees(Run(s, ops).0, events + Run(s, ops).1) && ResumesSaved(events + Run(s, ops).1)
    decreases |ops|
  {
    hide Settled, ResumesSaved, Step;
    if ops == [] {
      assert events + [] == events;
    } else {
      var (s1, ev) := Step(s, ops[0]);
      StepSettles(s, ops[0]);
      StepAgrees(s, ops[0], events);
      RunResumesSaved(s1, ops[1..], events + ev);
      assert events + (ev + Run(s1, ops[1..]).1) == (events + ev) + Run(s1, ops[1..]).1;
    }
  }

  // ----- boot -----

  const EMPTY_SLOT := Proc(0, Unused, 0, 0, 0, 0, false, 0, 0, None)

  /** The table as set up at boot: the kernel's process in slot 0, everything else unused. */
  function Boot(n: nat, quantum: nat, kernelCr3: nat, stacks: seq<nat>): State
    requires n >= 1 && |stacks| == n
  {
    State([Proc(0, Running, 0, stacks[0], kernelCr3, 0, false, 0, 0, None)] + seq(n - 1, _ => EMPTY_SLOT),
          0, quantum, 1, false, 0, kernelCr3, stacks[0], kernelCr3, quantum, stacks, {})
  }

  lemma BootOk(n: nat, quantum: nat, kernelCr3: nat, stacks: seq<nat>)
    requires n >= 1 && |stacks| == n && quantum >= 1 && kernelCr3 != 0
    ensures Inv(Boot(n, quantum, kernelCr3, stacks)) && Settled(Boot(n, quantum, kernelCr3, stacks))
    ensures LogAgrees(Boot(n, quantum, kernelCr3, stacks), [])
  {
  }
}
