/** The process table slot by slot: what each critical section of proc.c does to one process,
    and what that means for a sleeper over whole runs. */
module Lifecycle {
  import opened Processes

  // What a step does to slot i --------------------------------------------------------------------

  /** The first free slot is taken by a fork. */
  predicate Takes(s: State, t: Step, i: nat)
    requires i < |s.ps|
  {
    t.AllocProc? && s.ps[i].state.UNUSED? && forall k :: 0 <= k < i ==> !s.ps[k].state.UNUSED?
  }

  /** The first zombie child of the process that waits is freed. */
  predicate Reaps(s: State, t: Step, i: nat)
    requires i < |s.ps|
  {
    t.Wait? && ZombieChild(s.ps[i], t.p) && forall k :: 0 <= k < i ==> !ZombieChild(s.ps[k], t.p)
  }

  /** The fork of process t.p is filling slot i. */
  predicate Fills(s: State, t: Step, i: nat) {
    (t.InitNice? || t.FailFork? || t.SetParent? || t.Publish?) && t.p < |s.forks|
    && !s.forks[t.p].NotForking? && s.forks[t.p].np == i
  }

  /** Process i goes to sleep: in sleep, or in wait with children of which none is a zombie. */
  predicate Blocks(s: State, t: Step, i: nat)
    requires i < |s.ps|
  {
    || (t.Sleep? && t.p == i)
    || (t == Wait(i) && !s.ps[i].killed
        && (exists k :: 0 <= k < |s.ps| && s.ps[k].parent == i)
        && (forall k :: 0 <= k < |s.ps| ==> !ZombieChild(s.ps[k], i)))
  }

  /** The step is what the sleeper i waits for: a wakeup of its channel, the exit of a child of
      the process whose slot it sleeps on, children that are zombies already handed to that
      process, which then is init, or a kill. */
  predicate Rouses(s: State, t: Step, i: nat)
    requires i < |s.ps|
  {
    match t
    case Wakeup(addr) => s.ps[i].chan == OnOther(addr)
    case Kill(pid) => s.ps[i].pid == pid
    case Exit(p) => p < |s.ps| && s.ps[i].chan.OnProc? &&
      (s.ps[i].chan.slot == s.ps[p].parent
       || (s.ps[i].chan.slot == s.init && exists k :: 0 <= k < |s.ps| && ZombieChild(s.ps[k], p)))
    case _ => false
  }

  function StateAfter(s: State, t: Step, i: nat): ProcState
    requires i < |s.ps|
  {
    match s.ps[i].state
    case UNUSED => if Takes(s, t, i) then EMBRYO else UNUSED
    case EMBRYO => if Fills(s, t, i) && t.Publish? then RUNNABLE else if Fills(s, t, i) && t.FailFork? then UNUSED
      else EMBRYO
    case SLEEPING => if Rouses(s, t, i) then RUNNABLE else SLEEPING
    case RUNNABLE => if t == Schedule(i) then RUNNING else RUNNABLE
    case RUNNING => if Blocks(s, t, i) then SLEEPING else if t == Yield(i) then RUNNABLE
      else if t == Exit(i) then ZOMBIE else RUNNING
    case ZOMBIE => if Reaps(s, t, i) then UNUSED else ZOMBIE
  }

  /** kill finds the first slot that holds the pid. */
  predicate Marks(s: State, t: Step, i: nat)
    requires i < |s.ps|
  {
    t.Kill? && s.ps[i].pid == t.pid && forall k :: 0 <= k < i ==> s.ps[k].pid != t.pid
  }

  function ChanAfter(s: State, t: Step, i: nat): Chan
    requires i < |s.ps|
  {
    if Blocks(s, t, i) then if t.Sleep? then OnOther(t.addr) else OnProc(i)
    else if t == Schedule(i) then NoChan
    else s.ps[i].chan
  }

  function ParentAfter(s: State, t: Step, i: nat): int
    requires i < |s.ps|
  {
    if Fills(s, t, i) && t.SetParent? then t.p
    else if t.Exit? && s.ps[i].parent == t.p then s.init
    else if Reaps(s, t, i) then NOBODY
    else s.ps[i].parent
  }

  /** Tickets: 40 from allocproc, those of the process that forks from fork, and from renice those
      asked for, if they are 1 to 100. */
  function NiceAfter(s: State, t: Step, i: nat): nat
    requires i < |s.ps|
  {
    if Fills(s, t, i) && t.InitNice? then 40
    else if Fills(s, t, i) && t.Publish? && t.p < |s.ps| then s.ps[t.p].nice
    else if t.Renice? && 1 <= t.nice <= 100 && Live(s.ps[i]) && s.ps[i].pid == t.pid then t.nice
    else s.ps[i].nice
  }

  /** Everything in slot i after the step. */
  function SlotAfter(s: State, t: Step, i: nat): Proc
    requires i < |s.ps|
  {
    Proc(StateAfter(s, t, i),
         if Takes(s, t, i) then s.nextpid else if Reaps(s, t, i) then 0 else s.ps[i].pid,
         ParentAfter(s, t, i), ChanAfter(s, t, i),
         if Reaps(s, t, i) then false else s.ps[i].killed || Marks(s, t, i),
         NiceAfter(s, t, i))
  }

  lemma DeadChildIs(s: State, p: nat, i: nat)
    requires i < |s.ps|
    ensures Reaps(s, Wait(p), i) <==> i == DeadChild(s.ps, p, 0)
    ensures DeadChild(s.ps, p, 0) == |s.ps| <==> forall k :: 0 <= k < |s.ps| ==> !ZombieChild(s.ps[k], p)
  {
  }

  lemma FreeSlotIs(s: State, p: nat, i: nat)
    requires i < |s.ps|
    ensures Takes(s, AllocProc(p), i) <==> i == FreeSlot(s.ps, 0)
  {
  }

  lemma {:induction false} WithPidIs(ps: seq<Proc>, pid: nat, k: nat)
    requires k <= |ps|
    ensures forall j :: k <= j < WithPid(ps, pid, k) ==> ps[j].pid != pid
    decreases |ps| - k
  {
    if k == |ps| || ps[k].pid == pid {
    } else {
      WithPidIs(ps, pid, k + 1);
    }
  }

  lemma ForkSlot(s: State, t: Step, i: nat)
    requires Inv(s) && Enabled(s, t) && i < |s.ps|
    requires t.AllocProc? || t.InitNice? || t.FailFork? || t.SetParent? || t.Publish?
    ensures |Next(s, t).ps| == |s.ps| && Next(s, t).ps[i] == SlotAfter(s, t, i)
  {
    hide PidsOk, TreeOk, NoMissedExit, NiceOk, FreeSlot;
    if t.AllocProc? {
      FreeSlotIs(s, t.p, i);
    } else {
      assert ForkOk(s.ps, t.p, s.forks[t.p]);
    }
  }

  lemma ExitSlotIs(s: State, t: Step, i: nat)
    requires Inv(s) && Enabled(s, t) && i < |s.ps| && t.Exit?
    ensures |Next(s, t).ps| == |s.ps| && Next(s, t).ps[i] == SlotAfter(s, t, i)
  {
    hide PidsOk, TreeOk, ForksOk, NoMissedExit, NiceOk, DeadChild, Orphaned;
    var ps := s.ps;
    var ws := if ps[t.p].parent >= 0 then WakeAll(ps, OnProc(ps[t.p].parent)) else ps;
    assert forall k :: 0 <= k < |ps| ==> (ZombieChild(ws[k], t.p) <==> ZombieChild(ps[k], t.p));
  }

  lemma WaitSlot(s: State, t: Step, i: nat)
    requires Inv(s) && Enabled(s, t) && i < |s.ps| && t.Wait?
    ensures |Next(s, t).ps| == |s.ps| && Next(s, t).ps[i] == SlotAfter(s, t, i)
  {
    hide Inv, DeadChild;
    DeadChildIs(s, t.p, i);
  }

  lemma KillSlot(s: State, t: Step, i: nat)
    requires Inv(s) && Enabled(s, t) && i < |s.ps| && t.Kill?
    ensures |Next(s, t).ps| == |s.ps| && Next(s, t).ps[i] == SlotAfter(s, t, i)
  {
    hide TreeOk, ForksOk, NoMissedExit, NiceOk, WithPid;
    WithPidIs(s.ps, t.pid, 0);
  }

  /** What a step does to the table, slot by slot: a process passes from UNUSED, EMBRYO, RUNNABLE,
      RUNNING, SLEEPING and ZOMBIE to another of them for the reasons given, and its pid, parent,
      channel, flag and tickets change for theirs; for no other reason, and in no other slot. */
  lemma LifeCycle(s: State, t: Step, i: nat)
    requires Inv(s) && Enabled(s, t) && i < |s.ps|
    ensures |Next(s, t).ps| == |s.ps| && Next(s, t).ps[i] == SlotAfter(s, t, i)
    ensures Next(s, t).nextpid == s.nextpid + (if exists k: nat :: k < |s.ps| && Takes(s, t, k) then 1 else 0)
  {
    hide PidsOk, TreeOk, ForksOk, NoMissedExit, NiceOk;
    match t
    case AllocProc(p) =>
      ForkSlot(s, t, i);
      TakenSlot(s, t);
    case InitNice(p) => ForkSlot(s, t, i);
    case FailFork(p) => ForkSlot(s, t, i);
    case SetParent(p) => ForkSlot(s, t, i);
    case Publish(p) => ForkSlot(s, t, i);
    case Exit(p) => ExitSlotIs(s, t, i);
    case Wait(p) => WaitSlot(s, t, i);
    case Kill(pid) => KillSlot(s, t, i);
    case _ =>
  }

  lemma TakenSlot(s: State, t: Step)
    requires Enabled(s, t) && t.AllocProc?
    ensures Next(s, t).nextpid == s.nextpid + (if exists k: nat :: k < |s.ps| && Takes(s, t, k) then 1 else 0)
  {
    hide FreeSlot;
    var j := FreeSlot(s.ps, 0);
    if j < |s.ps| {
      FreeSlotIs(s, t.p, j);
      assert Takes(s, t, j);
    }
  }

  // Sleepers ----------------------------------------------------------------------------------------

  /** wakeup(addr): whoever slept on addr is runnable and otherwise as before, and so is everybody
      else in every respect; nobody sleeps on addr any more. */
  lemma WokenExactly(s: State, addr: nat, i: nat)
    requires Inv(s) && i < |s.ps|
    ensures var q, r := s.ps[i], Next(s, Wakeup(addr)).ps[i];
            && (q.state.SLEEPING? && q.chan == OnOther(addr) ==> r == q.(state := RUNNABLE))
            && (!(q.state.SLEEPING? && q.chan == OnOther(addr)) ==> r == q)
            && !(r.state.SLEEPING? && r.chan == OnOther(addr))
  {
    hide Inv, Next;
    LifeCycle(s, Wakeup(addr), i);
  }

  /** Does a step of the run rouse process i? */
  ghost predicate EverRoused(s: State, ts: seq<Step>, i: nat)
    requires Legal(s, ts)
    decreases ts
  {
    ts != [] && ((i < |s.ps| && Rouses(s, ts[0], i)) || EverRoused(Next(s, ts[0]), ts[1..], i))
  }

  /** A sleeper sleeps on until it is roused: over any run without that it is in the same slot,
      on the same channel, with the same pid. */
  lemma {:induction false} AsleepUntil(s: State, ts: seq<Step>, i: nat)
    requires Inv(s) && Legal(s, ts) && i < |s.ps| && s.ps[i].state.SLEEPING? && !EverRoused(s, ts, i)
    ensures i < |Run(s, ts).ps|
    ensures var q, r := s.ps[i], Run(s, ts).ps[i]; r.state.SLEEPING? && r.chan == q.chan && r.pid == q.pid
    decreases ts
  {
    hide Inv, Next;
    if ts == [] {
    } else {
      StepKeeps(s, ts[0]);
      LifeCycle(s, ts[0], i);
      AsleepUntil(Next(s, ts[0]), ts[1..], i);
    }
  }

  /** And the step that rouses it makes it runnable at once. */
  lemma RousedRuns(s: State, t: Step, i: nat)
    requires Inv(s) && Enabled(s, t) && i < |s.ps| && s.ps[i].state.SLEEPING?
    ensures |Next(s, t).ps| == |s.ps| && (Next(s, t).ps[i].state.RUNNABLE? <==> Rouses(s, t, i))
  {
    hide Inv, Next;
    LifeCycle(s, t, i);
  }

  /** Whoever sleeps in wait has a child that has not exited. */
  ghost predicate WaitsForSomebody(ps: seq<Proc>) {
    forall i :: 0 <= i < |ps| && ps[i].state.SLEEPING? && ps[i].chan == OnProc(i) ==>
      exists k :: 0 <= k < |ps| && ps[k].parent == i && !ps[k].state.ZOMBIE?
  }

  /** A child of somebody who sleeps on in wait, or goes to sleep there, is still its child. */
  lemma KidStays(s: State, t: Step, i: nat, k: nat)
    requires Inv(s) && Enabled(s, t) && i < |s.ps| && k < |s.ps| && s.ps[k].parent == i && !s.ps[k].state.ZOMBIE?
    requires StateAfter(s, t, i).SLEEPING? && ChanAfter(s, t, i) == OnProc(i)
    ensures ParentAfter(s, t, k) == i && !StateAfter(s, t, k).ZOMBIE?
  {
    hide PidsOk, TreeOk, NoMissedExit, NiceOk;
    if t.SetParent? {
      assert ForkOk(s.ps, t.p, s.forks[t.p]);
    }
  }

  lemma StepWaits(s: State, t: Step, i: nat)
    requires Inv(s) && Enabled(s, t) && i < |s.ps| && WaitsForSomebody(s.ps)
    requires |Next(s, t).ps| == |s.ps| && Next(s, t).ps[i].state.SLEEPING? && Next(s, t).ps[i].chan == OnProc(i)
    ensures exists k :: 0 <= k < |s.ps| && Next(s, t).ps[k].parent == i && !Next(s, t).ps[k].state.ZOMBIE?
  {
    hide Inv, Next, StateAfter, ParentAfter, ChanAfter, NiceAfter, Takes, Reaps, Marks;
    LifeCycle(s, t, i);
    var k := Kid(s, t, i);
    KidStays(s, t, i, k);
    LifeCycle(s, t, k);
    assert Next(s, t).ps[k].parent == i;
  }

  lemma Kid(s: State, t: Step, i: nat) returns (k: nat)
    requires Enabled(s, t) && i < |s.ps| && WaitsForSomebody(s.ps)
    requires StateAfter(s, t, i).SLEEPING? && ChanAfter(s, t, i) == OnProc(i)
    ensures k < |s.ps| && s.ps[k].parent == i && !s.ps[k].state.ZOMBIE?
  {
    if Blocks(s, t, i) {
      k :| 0 <= k < |s.ps| && s.ps[k].parent == i;
      assert !ZombieChild(s.ps[k], i);
    } else {
      k :| 0 <= k < |s.ps| && s.ps[k].parent == i && !s.ps[k].state.ZOMBIE?;
    }
  }

  lemma SameTable(s: State, t: Step)
    requires Inv(s) && Enabled(s, t)
    ensures |Next(s, t).ps| == |s.ps|
  {
    hide PidsOk, ForksOk, NoMissedExit, NiceOk, Next;
    LifeCycle(s, t, s.init);
  }

  /** In every run from boot nobody waits in vain: a process asleep in wait has a child that is
      yet to exit, and by AsleepUntil sleeps until one does. */
  lemma {:induction false} NobodyWaitsInVain(s: State, ts: seq<Step>)
    requires Inv(s) && WaitsForSomebody(s.ps) && Legal(s, ts)
    ensures WaitsForSomebody(Run(s, ts).ps)
    decreases ts
  {
    hide Inv, Next, Enabled;
    if ts == [] {
    } else {
      StepKeeps(s, ts[0]);
      SameTable(s, ts[0]);
      var ps := Next(s, ts[0]).ps;
      forall i | 0 <= i < |ps| && ps[i].state.SLEEPING? && ps[i].chan == OnProc(i)
        ensures exists k :: 0 <= k < |ps| && ps[k].parent == i && !ps[k].state.ZOMBIE?
      {
        StepWaits(s, ts[0], i);
      }
      NobodyWaitsInVain(Next(s, ts[0]), ts[1..]);
    }
  }
}
