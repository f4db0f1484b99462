/** Who is killed by kill, and what stays behind in a slot of the process table. */
module Kills {
  import opened Processes

  predicate HasPid(ps: seq<Proc>, pid: nat) { exists i :: 0 <= i < |ps| && ps[i].pid == pid }

  predicate LivePid(ps: seq<Proc>, pid: nat) { exists i :: 0 <= i < |ps| && Live(ps[i]) && ps[i].pid == pid }

  function Marked(q: Proc): Proc {
    q.(killed := true, state := if q.state.SLEEPING? then RUNNABLE else q.state)
  }

  lemma {:induction false} WithPidFinds(ps: seq<Proc>, pid: nat, k: nat, i: nat)
    requires k <= i < |ps| && ps[i].pid == pid
    ensures WithPid(ps, pid, k) <= i
    decreases i - k
  {
    if k == i || ps[k].pid == pid {
    } else {
      WithPidFinds(ps, pid, k + 1, i);
    }
  }

  /** kill(pid) marks the live process of that pid and no other. Without one, it marks a free
      slot that holds the pid, if there is one: any that has been reaped or never used, for pid
      0, and for other pids that of a fork that failed. */
  lemma KillMarks(s: State, pid: nat)
    requires Inv(s)
    ensures LivePid(s.ps, pid) ==>
              forall i :: 0 <= i < |s.ps| ==>
                Killed(s.ps, pid)[i] == if Live(s.ps[i]) && s.ps[i].pid == pid then Marked(s.ps[i]) else s.ps[i]
    ensures !LivePid(s.ps, pid) && HasPid(s.ps, pid) ==>
              exists j :: 0 <= j < |s.ps| && s.ps[j].state.UNUSED? && s.ps[j].pid == pid
                && Killed(s.ps, pid) == s.ps[j := s.ps[j].(killed := true)]
    ensures !HasPid(s.ps, pid) ==> Killed(s.ps, pid) == s.ps
  {
    hide TreeOk, ForksOk, NoMissedExit;
    var j := WithPid(s.ps, pid, 0);
    forall i | 0 <= i < |s.ps| && s.ps[i].pid == pid
      ensures j <= i
    {
      WithPidFinds(s.ps, pid, 0, i);
    }
  }

  // The flag in free slots ----------------------------------------------------------------------

  /** allocproc does not clear the flag, so a child is born killed unless free slots are clear. */
  ghost predicate Clean(ps: seq<Proc>) {
    forall i :: 0 <= i < |ps| && ps[i].state.UNUSED? ==> !ps[i].killed
  }

  /** A kill that finds no live process but a free slot, or a failing fork of a killed child. */
  ghost predicate Dirties(s: State, t: Step) {
    match t
    case Kill(pid) => !LivePid(s.ps, pid) && HasPid(s.ps, pid)
    case FailFork(p) => p < |s.forks| && s.forks[p].Allocated? && s.forks[p].np < |s.ps| && s.ps[s.forks[p].np].killed
    case _ => false
  }

  lemma KillDirties(s: State, pid: nat)
    requires Inv(s) && Clean(s.ps)
    ensures Clean(Killed(s.ps, pid)) <==> !Dirties(s, Kill(pid))
  {
    KillMarks(s, pid);
    hide Inv, Killed;
    if !LivePid(s.ps, pid) && HasPid(s.ps, pid) {
      var j :| 0 <= j < |s.ps| && s.ps[j].state.UNUSED? && s.ps[j].pid == pid
        && Killed(s.ps, pid) == s.ps[j := s.ps[j].(killed := true)];
      assert Killed(s.ps, pid)[j].killed;
    }
  }

  /** Exactly these steps leave the flag behind in a free slot. */
  lemma CleanIff(s: State, t: Step)
    requires Inv(s) && Enabled(s, t) && Clean(s.ps)
    ensures Clean(Next(s, t).ps) <==> !Dirties(s, t)
  {
    hide PidsOk, TreeOk, ForksOk, NoMissedExit, NiceOk, Killed;
    if t.Kill? {
      KillDirties(s, t.pid);
    } else if t.FailFork? {
      var j := s.forks[t.p].np;
      assert Next(s, t).ps[j].state.UNUSED?;
    }
  }

  ghost predicate Careful(s: State, ts: seq<Step>)
    requires Legal(s, ts)
    decreases ts
  {
    ts == [] || (!Dirties(s, ts[0]) && Careful(Next(s, ts[0]), ts[1..]))
  }

  lemma {:induction false} RunClean(s: State, ts: seq<Step>)
    requires Inv(s) && Clean(s.ps) && Legal(s, ts) && Careful(s, ts)
    ensures Clean(Run(s, ts).ps)
    decreases ts
  {
    hide Inv, Next, Enabled, Clean, Dirties;
    if ts == [] {
    } else {
      StepKeeps(s, ts[0]);
      CleanIff(s, ts[0]);
      RunClean(Next(s, ts[0]), ts[1..]);
    }
  }

  /** Nobody has pid 0, and yet kill(0) finds a slot: the next child is born killed. */
  lemma BornKilled(nproc: nat)
    requires nproc >= 2
    ensures var ts := [Schedule(0), Kill(0), AllocProc(0), SetParent(0), Publish(0)];
            && Legal(Booted(nproc), ts)
            && var q := Run(Booted(nproc), ts).ps[1];
               q.state.RUNNABLE? && q.pid == 2 && q.killed
  {
    var s0 := Booted(nproc);
    var s1 := Next(s0, Schedule(0));
    assert WithPid(s1.ps, 0, 0) == WithPid(s1.ps, 0, 1) == 1;
    var s2 := Next(s1, Kill(0));
    assert FreeSlot(s2.ps, 0) == FreeSlot(s2.ps, 1) == 1;
    var s3 := Next(s2, AllocProc(0));
    var s4 := Next(s3, SetParent(0));
    var s5 := Next(s4, Publish(0));
    assert Run(s4, [Publish(0)]) == s5;
    assert Run(s3, [SetParent(0), Publish(0)]) == s5;
    assert Run(s2, [AllocProc(0), SetParent(0), Publish(0)]) == s5;
    assert Run(s1, [Kill(0), AllocProc(0), SetParent(0), Publish(0)]) == s5;
  }

  // Channels ------------------------------------------------------------------------------------

  /** Only processes in sleep, asleep or woken and not yet running, have a channel. */
  ghost predicate ChansOk(ps: seq<Proc>) {
    forall i :: 0 <= i < |ps| && ps[i].chan != NoChan ==> ps[i].state.SLEEPING? || ps[i].state.RUNNABLE?
  }

  lemma ExitChans(s: State, p: nat)
    requires Enabled(s, Exit(p)) && ChansOk(s.ps)
    ensures ChansOk(Exited(s.ps, p, s.init))
  {
    hide DeadChild;
  }

  lemma WaitChans(s: State, p: nat)
    requires Enabled(s, Wait(p)) && ChansOk(s.ps)
    ensures ChansOk(Waited(s.ps, p))
  {
    hide DeadChild, HasKids;
    var j := DeadChild(s.ps, p, 0);
    if j < |s.ps| {
      assert s.ps[j].state.ZOMBIE?;
    }
  }

  lemma ChansKept(s: State, t: Step)
    requires Inv(s) && Enabled(s, t) && ChansOk(s.ps)
    ensures ChansOk(Next(s, t).ps)
  {
    hide FreeSlot, DeadChild, WithPid, PidsOk, TreeOk, NoMissedExit, NiceOk, Exited, Waited;
    match t
    case FailFork(p) => assert ForkOk(s.ps, p, s.forks[p]);
    case Exit(p) => ExitChans(s, p);
    case Wait(p) => WaitChans(s, p);
    case _ =>
  }

  /** So running is what clears a channel: whoever the scheduler picks has none afterwards. */
  lemma {:induction false} RunChans(s: State, ts: seq<Step>)
    requires Inv(s) && ChansOk(s.ps) && Legal(s, ts)
    ensures ChansOk(Run(s, ts).ps)
    decreases ts
  {
    hide Inv, Next, Enabled, ChansOk;
    if ts == [] {
    } else {
      StepKeeps(s, ts[0]);
      ChansKept(s, ts[0]);
      RunChans(Next(s, ts[0]), ts[1..]);
    }
  }
}
