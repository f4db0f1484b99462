/** The loops of proc.c over ptable.proc. */
module ProcTable {
  import opened Processes
  import opened Lottery

  class Table {
    const proc: array<Proc>
    const init: nat
    var nextpid: nat

    /** wakeup1: nobody sleeps on c any more; whoever did is runnable, and nothing else has
        changed. */
    method Wakeup1(c: Chan)
      modifies proc
      ensures proc[..] == WakeAll(old(proc[..]), c)
      ensures forall i :: 0 <= i < proc.Length ==> !(proc[i].state.SLEEPING? && proc[i].chan == c)
      ensures forall i :: 0 <= i < proc.Length && old(proc[i].state.SLEEPING? && proc[i].chan == c) ==>
                proc[i] == old(proc[i]).(state := RUNNABLE)
      ensures forall i :: 0 <= i < proc.Length && !old(proc[i].state.SLEEPING? && proc[i].chan == c) ==>
                proc[i] == old(proc[i])
    {
      var p := 0;
      while p < proc.Length
        invariant 0 <= p <= proc.Length
        invariant forall i :: 0 <= i < proc.Length ==>
                    proc[i] == if i < p then Wakened(old(proc[i]), c) else old(proc[i])
      {
        if proc[p].state.SLEEPING? && proc[p].chan == c {
          proc[p] := proc[p].(state := RUNNABLE);
        }
        p := p + 1;
      }
    }

    /** allocproc's critical section: the slot taken, or -1. */
    method AllocProc() returns (r: int)
      modifies proc, this`nextpid
      ensures var j := FreeSlot(old(proc[..]), 0);
              if j == proc.Length then r == -1 && proc[..] == old(proc[..]) && nextpid == old(nextpid)
              else r == j && nextpid == old(nextpid) + 1
                   && proc[..] == old(proc[..])[j := old(proc[..])[j].(state := EMBRYO, pid := old(nextpid))]
    {
      var p := 0;
      while p < proc.Length
        invariant 0 <= p <= proc.Length && FreeSlot(proc[..], 0) == FreeSlot(proc[..], p)
      {
        if proc[p].state.UNUSED? {
          proc[p] := proc[p].(state := EMBRYO, pid := nextpid);
          nextpid := nextpid + 1;
          return p;
        }
        p := p + 1;
      }
      return -1;
    }

    /** exit's critical section, in the process of slot cur. */
    method Exit(cur: nat)
      requires cur < proc.Length && cur != init
      modifies proc
      ensures proc[..] == Exited(old(proc[..]), cur, init)
    {
      if proc[cur].parent >= 0 {
        Wakeup1(OnProc(proc[cur].parent));
      }
      ghost var ws := proc[..];
      var p := 0;
      ghost var seen := false;
      while p < proc.Length
        invariant 0 <= p <= proc.Length
        invariant seen <==> exists i :: 0 <= i < p && ZombieChild(ws[i], cur)
        invariant forall i :: 0 <= i < proc.Length ==>
                    proc[i] == HalfWay(ws[i], cur, init, i < p, seen)
      {
        if proc[p].parent == cur {
          proc[p] := proc[p].(parent := init);
          if proc[p].state.ZOMBIE? {
            seen := true;
            Wakeup1(OnProc(init));
          }
        }
        p := p + 1;
      }
      assert seen <==> DeadChild(ws, cur, 0) < |ws|;
      assert proc[..] == Orphaned(ws, cur, init);
      proc[cur] := proc[cur].(state := ZOMBIE);
    }

    /** One turn of wait's loop, in the process of slot cur: the pid reaped, or -1; done is
        false when the process went to sleep instead. */
    method Wait(cur: nat) returns (done: bool, r: int)
      requires cur < proc.Length
      modifies proc
      ensures proc[..] == Waited(old(proc[..]), cur)
      ensures var j := DeadChild(old(proc[..]), cur, 0);
              if j < proc.Length then done && r == old(proc[..])[j].pid
              else r == -1 && (done <==> !HasKids(old(proc[..]), cur) || old(proc[cur].killed))
    {
      var havekids := false;
      var p := 0;
      while p < proc.Length
        invariant 0 <= p <= proc.Length && DeadChild(proc[..], cur, 0) == DeadChild(proc[..], cur, p)
        invariant havekids <==> exists i :: 0 <= i < p && proc[i].parent == cur
      {
        if proc[p].parent == cur {
          havekids := true;
          if proc[p].state.ZOMBIE? {
            r := proc[p].pid;
            proc[p] := Reaped(proc[p]);
            return true, r;
          }
        }
        p := p + 1;
      }
      if !havekids || proc[cur].killed {
        return true, -1;
      }
      proc[cur] := proc[cur].(chan := OnProc(cur), state := SLEEPING);
      return false, -1;
    }

    method Kill(pid: nat) returns (r: int)
      modifies proc
      ensures proc[..] == Killed(old(proc[..]), pid)
      ensures r == (if exists i :: 0 <= i < proc.Length && old(proc[i].pid) == pid then 0 else -1)
    {
      var p := 0;
      while p < proc.Length
        invariant 0 <= p <= proc.Length && WithPid(proc[..], pid, 0) == WithPid(proc[..], pid, p)
        invariant forall i :: 0 <= i < p ==> proc[i].pid != pid
      {
        if proc[p].pid == pid {
          proc[p] := proc[p].(killed := true, state := if proc[p].state.SLEEPING? then RUNNABLE else proc[p].state);
          return 0;
        }
        p := p + 1;
      }
      return -1;
    }

    /** 1 for a nice value out of bounds, 2 when no live process has the pid, 0 otherwise. */
    method Renice(nice: int, pid: nat) returns (r: int)
      modifies proc
      ensures proc[..] == Reniced(old(proc[..]), nice, pid)
      ensures r == if !(MIN_NICE <= nice <= MAX_NICE) then 1
                   else if exists i :: 0 <= i < proc.Length && old(Live(proc[i])) && old(proc[i].pid) == pid then 0
                     else 2
      ensures r != 0 ==> proc[..] == old(proc[..])
      ensures r == 0 ==>
                forall i :: 0 <= i < proc.Length ==>
                  proc[i] == if !old(proc[i].state.UNUSED?) && old(proc[i].pid) == pid then old(proc[i]).(nice := nice)
                    else old(proc[i])
    {
      if nice < MIN_NICE || nice > MAX_NICE {
        return 1;
      }
      var check := false;
      var i := 0;
      while i < proc.Length
        invariant 0 <= i <= proc.Length
        invariant forall k :: 0 <= k < proc.Length ==>
                    proc[k] == if k < i then Niced(old(proc[k]), nice, pid) else old(proc[k])
        invariant check <==> exists k :: 0 <= k < i && old(Live(proc[k])) && old(proc[k].pid) == pid
      {
        if !proc[i].state.UNUSED? {
          if proc[i].pid == pid {
            proc[i] := proc[i].(nice := nice);
            check := true;
          }
        }
        i := i + 1;
      }
      return if check then 0 else 2;
    }

    method NiceSum() returns (total: nat)
      ensures total == Tickets(proc[..], proc.Length)
    {
      total := 0;
      var p := 0;
      while p < proc.Length
        invariant 0 <= p <= proc.Length && total == Tickets(proc[..], p)
      {
        if proc[p].state.RUNNABLE? {
          total := total + proc[p].nice;
        }
        p := p + 1;
      }
    }

    /** The scheduler's turn with v from rand(): the slot switched to, or -1. The one chosen
        holds the ticket drawn; someone is chosen exactly when someone is runnable. The process
        chosen goes on where it left off, which for one that slept is the end of sleep: it
        clears the channel before the lock is released. */
    method Schedule(v: nat, ghost s: State) returns (r: int)
      requires NiceOk(proc[..]) && s.ps == proc[..]
      modifies proc
      ensures r == -1 <==> forall i :: 0 <= i < proc.Length ==> !old(proc[i].state.RUNNABLE?)
      ensures r == -1 ==> proc[..] == old(proc[..])
      ensures r != -1 ==>
                && 0 <= r < proc.Length
                && Tickets(old(proc[..]), proc.Length) > 0
                && Holds(old(proc[..]), r, Ticket(v, Tickets(old(proc[..]), proc.Length)))
                && Enabled(s, Step.Schedule(r)) && proc[..] == Next(s, Step.Schedule(r)).ps
    {
      ghost var ps := proc[..];
      var check := 0;
      var sum := NiceSum();
      TicketsPositive(ps, |ps|);
      if sum > 0 {
        var ticket := v % sum + 1;
        HolderExists(ps, |ps|, ticket);
        var p := 0;
        while p < proc.Length
          invariant 0 <= p <= proc.Length && proc[..] == ps
          invariant check == Tickets(ps, p) < ticket
          invariant forall i :: 0 <= i < p ==> !Holds(ps, i, ticket)
        {
          if !proc[p].state.RUNNABLE? {
            p := p + 1;
            continue;
          }
          if ticket > check + proc[p].nice {
            check := check + proc[p].nice;
            p := p + 1;
            continue;
          }
          proc[p] := proc[p].(state := RUNNING);
          proc[p] := proc[p].(chan := NoChan);
          return p;
        }
        assert false;
      }
      return -1;
    }
  }

  /** A slot of exit's loop: already passed or not, init already woken or not. */
  function HalfWay(q: Proc, cur: nat, init: nat, passed: bool, seen: bool): Proc {
    var a := if passed then Adopted(q, cur, init) else q;
    if seen then Wakened(a, OnProc(init)) else a
  }
}
