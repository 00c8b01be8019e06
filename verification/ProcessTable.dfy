/** The process table and scheduler as the kernel keeps them: static variables updated in place by each
    operation and by the timer interrupt. */
module ProcessTable {
  import opened Options
  import opened Scheduler

  /** The dead background processes before slot n. */
  function DeadBackground(procs: seq<Proc>, n: nat): set<nat>
    requires n <= |procs|
  {
    set i: nat | 1 <= i < n && procs[i].state == Terminated && procs[i].detached
  }

  lemma ReapDone(s: State)
    ensures OnReap(s, |s.procs|) == s
  {
  }

  lemma DeadGrow(procs: seq<Proc>, i: nat)
    requires 1 <= i < |procs|
    ensures var dead := procs[i].state == Terminated && procs[i].detached;
      |DeadBackground(procs, i + 1)| == |DeadBackground(procs, i)| + if dead then 1 else 0
  {
    var dead := procs[i].state == Terminated && procs[i].detached;
    assert DeadBackground(procs, i + 1) == DeadBackground(procs, i) + if dead then {i} else {};
  }

  class Table {
    const procs: array<Proc>
    const stacks: seq<nat>
    const kernelCr3: nat
    const quantum: nat
    var current: nat
    var remaining: nat
    var nextPid: nat
    var enabled: bool
    var now: nat
    var cr3: nat
    var rsp0: nat
    var spaces: set<nat>

    ghost function View(): State
      reads this, procs
    {
      State(procs[..], current, remaining, nextPid, enabled, now, cr3, rsp0, kernelCr3, quantum, stacks, spaces)
    }

    ghost predicate Valid()
      reads this, procs
    {
      Inv(View())
    }

    constructor (n: nat, quantum: nat, kernelCr3: nat, stacks: seq<nat>)
      requires n >= 1 && |stacks| == n && quantum >= 1 && kernelCr3 != 0
      ensures Valid() && fresh(procs) && View() == Boot(n, quantum, kernelCr3, stacks)
    {
      var table := new Proc[n](_ => EMPTY_SLOT);
      table[0] := Proc(0, Running, 0, stacks[0], kernelCr3, 0, false, 0, 0, None);
      procs := table;
      this.stacks, this.kernelCr3, this.quantum := stacks, kernelCr3, quantum;
      current, remaining, nextPid, enabled, now := 0, quantum, 1, false, 0;
      cr3, rsp0, spaces := kernelCr3, stacks[0], {};
      new;
      BootOk(n, quantum, kernelCr3, stacks);
      assert procs[..] == Boot(n, quantum, kernelCr3, stacks).procs;
    }

    /** The slot of a pid in use, or the number of slots. */
    method Get(pid: nat) returns (i: nat)
      ensures i == Find(procs[..], pid)
    {
      i := 0;
      while i < procs.Length
        invariant i <= procs.Length
        invariant Find(procs[..], pid) == FindFrom(procs[..], pid, i)
      {
        if procs[i].state != Unused && procs[i].pid == pid { return; }
        i := i + 1;
      }
    }

    method WakeSleepers()
      modifies procs
      ensures procs[..] == Wake(old(procs[..]), now)
    {
      var i := 1;
      while i < procs.Length
        invariant 1 <= i
        invariant forall k :: 0 <= k < procs.Length ==>
          procs[k] == if 0 < k < i then Woken(old(procs[k]), now) else old(procs[k])
      {
        if procs[i].state == Sleeping && procs[i].wakeTick <= now {
          procs[i] := procs[i].(wakeTick := 0, state := Ready);
        }
        i := i + 1;
      }
    }

    /** Looks for the next ready slot after the current one. */
    method FindNext() returns (d: nat)
      requires current < procs.Length
      ensures d == NextReady(procs[..], current, 1)
    {
      d := 1;
      while d <= procs.Length
        invariant 1 <= d <= procs.Length + 1
        invariant NextReady(procs[..], current, 1) == NextReady(procs[..], current, d)
      {
        AroundIsModulo(current, d, procs.Length);
        var idx := (current + d) % procs.Length;
        if procs[idx].state == Ready { return; }
        d := d + 1;
      }
      d := 0;
    }

    /** The timer interrupt; returns the stack pointer to resume on. */
    method ScheduleTick(rsp: nat) returns (resume: nat)
      requires Valid()
      modifies this, procs
      ensures Valid() && (View(), resume) == (OnTick(old(View()), rsp).0, OnTick(old(View()), rsp).1)
    {
      TickKeepsInv(View(), rsp);
      assert Shaped(View());
      hide Inv, AfterQuantum, Switch, NextReady, Wake;
      now := NextTick(now);
      WakeSleepers();
      if !enabled { return rsp; }
      var give := CountDown();
      if !give { return rsp; }
      resume := GiveWay(rsp);
    }

    /** Counts down the quantum; true if the current process is to give way. */
    method CountDown() returns (give: bool)
      requires current < procs.Length
      modifies this`remaining
      ensures View() == AfterQuantum(old(View())).0 && give == AfterQuantum(old(View())).1
    {
      var st := procs[current].state;
      give := false;
      if st == Terminated || st == Blocked || st == Sleeping {
        give := true;
      } else {
        if remaining > 0 { remaining := remaining - 1; }
        if remaining == 0 {
          remaining := quantum;
          give := true;
        }
      }
    }

    method SaveCurrent(rsp: nat)
      requires current < procs.Length
      modifies procs
      ensures procs[..] ==
        old(procs[..])[current := old(procs[current]).(rsp := rsp, state := Requeue(old(procs[current]).state))]
    {
      procs[current] := procs[current].(rsp := rsp);
      if procs[current].state == Running {
        procs[current] := procs[current].(state := Ready);
      }
    }

    /** The context switch to the slot d places on; with no ready slot the current process continues. */
    method SwitchTo(d: nat, rsp: nat) returns (resume: nat)
      requires current < procs.Length && d <= procs.Length
      modifies this, procs
      ensures View() == Switch(old(View()), rsp, d).0 && resume == Switch(old(View()), rsp, d).1
    {
      if d == 0 {
        if procs[current].state == Ready {
          procs[current] := procs[current].(state := Running);
        }
        return rsp;
      }
      AroundIsModulo(current, d, procs.Length);
      var next := (current + d) % procs.Length;
      procs[next] := procs[next].(state := Running);
      current := next;
      rsp0 := procs[next].stackTop;
      if cr3 != procs[next].cr3 { cr3 := procs[next].cr3; }
      remaining := quantum;
      resume := procs[next].rsp;
    }

    /** Saves the current process and switches to the next ready one. */
    method GiveWay(rsp: nat) returns (resume: nat)
      requires current < procs.Length
      modifies this, procs
      ensures var s := old(View());
        var s1 := s.(procs := s.procs[s.current := s.Cur().(rsp := rsp, state := Requeue(s.Cur().state))]);
        var r := Switch(s1, rsp, NextReady(s1.procs, s1.current, 1));
        View() == r.0 && resume == r.1
    {
      hide Switch;
      SaveCurrent(rsp);
      var d := FindNext();
      resume := SwitchTo(d, rsp);
    }

    method Start()
      requires Valid() && CanAct(View())
      modifies this`enabled
      ensures Valid() && View() == old(View()).(enabled := true)
    {
      StepKeepsInv(View(), Op.Start);
      enabled := true;
    }

    /** Takes the first unused slot for a new process. `root` is the frame of its new address space, 0 if
        there was none, and `mapped` says whether its first pages could be mapped. */
    method CreateProcess(isUser: bool, root: nat, mapped: bool) returns (slot: nat)
      requires Valid() && Enabled(View(), Create(isUser, root, mapped))
      modifies this, procs
      ensures View() == OnCreate(old(View()), isUser, root, mapped).0
      ensures Valid() <==> !SharesTables(old(View()), Create(isUser, root, mapped))
      ensures slot < procs.Length <==> OnCreate(old(View()), isUser, root, mapped).1 != []
    {
      CreateKeepsInv(View(), isUser, root, mapped);
      assert Shaped(View());
      hide Inv;
      slot := 1;
      while slot < procs.Length && procs[slot].state != Unused
        invariant 1 <= slot <= procs.Length
        invariant FreeSlot(procs[..], 1) == FreeSlot(procs[..], slot)
      {
        slot := slot + 1;
      }
      if slot == procs.Length { return; }
      var pid := nextPid;
      nextPid := nextPid + 1;
      var space := if isUser then root else cr3;
      if space == 0 {
        procs[slot] := procs[slot].(pid := pid, cr3 := 0);
        slot := procs.Length;
      } else if isUser && !mapped {
        procs[slot] := Proc(pid, Unused, procs[slot].rsp, stacks[slot], 0, 0, false, 0, 0, None);
        slot := procs.Length;
      } else {
        var top := stacks[slot];
        var rsp := if top < CONTEXT_SIZE then 0 else top - CONTEXT_SIZE;
        procs[slot] := Proc(pid, if isUser then Loading else Ready, rsp, top, space, 0, false, 0, 0, None);
        if isUser { spaces := spaces + {root}; }
      }
    }
  
    method Activate(pid: nat)
      requires Valid() && CanAct(View())
      modifies procs
      ensures Valid() && View() == OnActivate(old(View()), pid)
    {
      StepKeepsInv(View(), Op.Activate(pid));
      hide Inv;
      var i := Get(pid);
      if i < procs.Length && procs[i].state == Loading {
        procs[i] := procs[i].(state := Ready);
      }
    }

    /** The running process ends and releases those waiting for it, in one step. */
    method Exit(code: int)
      requires Valid() && CanAct(View())
      modifies procs
      ensures Valid() && View() == OnExit(old(View()), code)
    {
      StepKeepsInv(View(), Op.Exit(code));
      hide Inv;
      if procs[current].pid == 0 { return; }
      var pid := procs[current].pid;
      procs[current] := procs[current].(state := Terminated, exitCode := code);
      UnblockFor(pid);
    }

    method UnblockFor(pid: nat)
      modifies procs
      ensures procs[..] == UnblockWaiters(old(procs[..]), pid)
    {
      var i := 0;
      while i < procs.Length
        invariant 0 <= i <= procs.Length
        invariant forall k :: 0 <= k < procs.Length ==>
          procs[k] == if k < i then Unblock(old(procs[k]), pid) else old(procs[k])
      {
        if procs[i].state == Blocked && (procs[i].waitTarget == 0 || procs[i].waitTarget == pid) {
          procs[i] := procs[i].(state := Ready, waitTarget := 0);
        }
        i := i + 1;
      }
    }

    /** Kills a process and releases every blocked one, in one step. */
    method Kill(pid: nat)
      requires Valid() && CanAct(View())
      modifies procs
      ensures Valid() && View() == OnTerminate(old(View()), pid)
    {
      StepKeepsInv(View(), Op.Terminate(pid));
      hide Inv;
      var i := Get(pid);
      if i == procs.Length || pid == 0 { return; }
      procs[i] := procs[i].(state := Terminated);
      UnblockAll();
    }

    method UnblockAll()
      modifies procs
      ensures procs[..] == ReleaseAll(old(procs[..]))
    {
      var i := 0;
      while i < procs.Length
        invariant 0 <= i <= procs.Length
        invariant forall k :: 0 <= k < procs.Length ==>
          procs[k] == if k < i then Release(old(procs[k])) else old(procs[k])
      {
        if procs[i].state == Blocked {
          procs[i] := procs[i].(state := Ready);
        }
        i := i + 1;
      }
    }

    /** The blocking part of waitpid: the caller is marked blocked on the target. */
    method BlockOn(pid: nat) returns (found: bool)
      requires Valid() && CanAct(View())
      modifies procs
      ensures Valid() && View() == OnWaitBlock(old(View()), pid)
      ensures found <==> pid != 0 && Find(old(procs[..]), pid) < procs.Length
    {
      StepKeepsInv(View(), Op.WaitBlock(pid));
      hide Inv;
      var i := Get(pid);
      found := i < procs.Length && pid != 0;
      if found {
        procs[current] := procs[current].(waitTarget := pid, state := Blocked, target := Some(i));
      }
    }

    method CleanUp(i: nat)
      requires i < procs.Length
      modifies this`spaces, procs
      ensures View() == CleanSlot(old(View()), i)
    {
      if procs[i].cr3 != kernelCr3 { spaces := spaces - {procs[i].cr3}; }
      procs[i] := procs[i].(state := Unused, pid := 0, cr3 := 0);
    }

    /** One turn of the waiting loop; `done` once the target is dead or gone. The result is then the exit
        code of the target, or -1 if it is gone. */
    method CheckTarget() returns (done: bool, code: int)
      requires Valid() && Enabled(View(), Op.WaitCheck)
      modifies this`spaces, procs
      ensures Valid() && View() == OnWaitCheck(old(View()))
      ensures done <==> TargetGone(old(View()))
      ensures done ==> Some(code) == WaitCode(old(View()), Op.WaitCheck)
    {
      StepKeepsInv(View(), Op.WaitCheck);
      hide Inv;
      var i := procs[current].target.value;
      done, code := i < procs.Length && (procs[i].state == Terminated || procs[i].state == Unused), -1;
      if !done { return; }
      var dead := procs[i].state == Terminated;
      procs[current] := procs[current].(state := Running, waitTarget := 0, target := None);
      if dead {
        code := procs[i].exitCode;
        CleanUp(i);
      }
    }

    /** waitpid without waiting: -1 if there is no such process, 0 if it is not dead yet, its exit code
        otherwise. */
    method WaitNoHang(pid: nat) returns (code: int)
      requires Valid() && CanAct(View())
      modifies this`spaces, procs
      ensures View() == OnWaitNoHang(old(View()), pid) && (Valid() <==> !CleansSelf(old(View()), Op.WaitNoHang(pid)))
      ensures Some(code) == WaitCode(old(View()), Op.WaitNoHang(pid))
    {
      StepKeepsInv(View(), Op.WaitNoHang(pid));
      hide Inv;
      var i := Get(pid);
      if i == procs.Length || pid == 0 { return -1; }
      if procs[i].state != Terminated { return 0; }
      code := procs[i].exitCode;
      CleanUp(i);
    }

    method Detach(pid: nat)
      requires Valid() && CanAct(View())
      modifies procs
      ensures Valid() && View() == OnDetach(old(View()), pid)
    {
      StepKeepsInv(View(), Op.Detach(pid));
      hide Inv;
      var i := Get(pid);
      if i < procs.Length && pid != 0 {
        procs[i] := procs[i].(detached := true);
      }
    }

    /** Cleans up every dead background process, and counts them. */
    method ReapTerminated() returns (reaped: nat)
      requires Valid() && CanAct(View())
      modifies this`spaces, procs
      ensures View() == OnReap(old(View()), 1) && (Valid() <==> !CleansSelf(old(View()), Op.Reap))
      ensures reaped == |DeadBackground(old(procs[..]), procs.Length)|
    {
      StepKeepsInv(View(), Op.Reap);
      hide Inv, OnReap, ReapOne, DeadBackground;
      reaped := 0;
      var i := 1;
      while i < procs.Length
        invariant 1 <= i <= procs.Length
        invariant OnReap(old(View()), 1) == OnReap(View(), i)
        invariant forall k :: i <= k < procs.Length ==> procs[k] == old(procs[k])
        invariant reaped == |DeadBackground(old(procs[..]), i)|
      {
        DeadGrow(old(procs[..]), i);
        ReapNext(View(), i);
        var dead := ReapSlot(i);
        if dead { reaped := reaped + 1; }
        i := i + 1;
      }
      ReapDone(View());
    }

    method ReapSlot(i: nat) returns (dead: bool)
      requires 1 <= i < procs.Length
      modifies this`spaces, procs
      ensures View() == ReapOne(old(View()), i) && (dead <==> old(procs[i].state == Terminated && procs[i].detached))
      ensures forall k :: 0 <= k < procs.Length && k != i ==> procs[k] == old(procs[k])
    {
      dead := procs[i].state == Terminated && procs[i].detached;
      if dead {
        CleanUp(i);
        procs[i] := procs[i].(detached := false);
      }
    }

    method SleepTicks(ticks: nat)
      requires Valid() && CanAct(View())
      modifies procs
      ensures Valid() && View() == OnSleep(old(View()), ticks)
    {
      StepKeepsInv(View(), Op.Sleep(ticks));
      hide Inv;
      if procs[current].pid == 0 || ticks == 0 { return; }
      procs[current] := procs[current].(wakeTick := now + ticks, state := Sleeping);
    }
  }
}
