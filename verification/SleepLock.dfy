/** One sleep lock under acquiresleep, releasesleep, sleep, wakeup and kill, interleaved at
    every acquire and release of its spinlock and of ptable.lock. */
module SleepLock {

  datatype Option = None | Some(p: nat)

  /** Where a process is; the spinlocks it holds are in brackets. */
  datatype Pc =
    | Idle        // outside []
    | Testing     // acquiresleep, at the loop test [lk]
    | Committed   // in sleep, going for ptable.lock [lk]
    | Both        // in sleep, about to release lk [lk, pt]
    | Dozing      // in sleep, about to become SLEEPING [pt]
    | Switching   // SLEEPING, in sched [pt]
    | Away        // switched out []
    | Back        // running again, in sched [pt]
    | Again       // going for lk once more []
    | Taken       // has set locked [lk]
    | Has         // owns the sleep lock []
    | Leaving     // releasesleep [lk]
    | Cleared     // has cleared locked, going for ptable.lock [lk]
    | Waking      // in wakeup1 [lk, pt]
    | Woken       // sleepers are RUNNABLE [lk, pt]
    | Left        // out of wakeup [lk]

  /** sleeping says who is SLEEPING with chan == lk. */
  datatype State = State(pc: seq<Pc>, sleeping: seq<bool>, lk: Option, pt: Option, locked: bool, pid: nat)

  predicate HoldsLk(c: Pc) {
    c.Testing? || c.Committed? || c.Both? || c.Taken? || c.Leaving? || c.Cleared? || c.Waking? || c.Woken? || c.Left?
  }

  predicate HoldsPt(c: Pc) {
    c.Both? || c.Dozing? || c.Switching? || c.Back? || c.Waking? || c.Woken?
  }

  predicate Owns(c: Pc) { c.Taken? || c.Has? || c.Leaving? }

  /** Asleep on the lock, or past the point of no return towards it. */
  predicate Sleeper(c: Pc, sleeping: bool) {
    c.Committed? || c.Both? || c.Dozing? || ((c.Switching? || c.Away?) && sleeping)
  }

  datatype Step = Move(p: nat) | Kill(p: nat)

  predicate Enabled(s: State, e: Step) {
    && e.p < |s.pc| == |s.sleeping|
    && match e
       case Kill(p) => s.pt == None
       case Move(p) =>
         match s.pc[p]
         case Idle => s.lk == None
         case Again => s.lk == None
         case Has => s.lk == None
         case Committed => s.pt == None
         case Cleared => s.pt == None
         case Away => !s.sleeping[p] && s.pt == None
         case _ => true
  }

  function AllAwake(n: nat): seq<bool> { seq(n, _ => false) }

  /** The next action of process p, or kill(p) under ptable.lock. */
  function After(s: State, e: Step): State
    requires Enabled(s, e)
  {
    var p := e.p;
    if e.Kill? then s.(sleeping := s.sleeping[p := false])
    else
      match s.pc[p]
      case Idle => s.(pc := s.pc[p := Testing], lk := Some(p))
      case Testing =>
        if s.locked then s.(pc := s.pc[p := Committed])
        else s.(pc := s.pc[p := Taken], locked := true, pid := p)
      case Committed => s.(pc := s.pc[p := Both], pt := Some(p))
      case Both => s.(pc := s.pc[p := Dozing], lk := None)
      case Dozing => s.(pc := s.pc[p := Switching], sleeping := s.sleeping[p := true])
      case Switching => s.(pc := s.pc[p := Away], pt := None)
      case Away => s.(pc := s.pc[p := Back], pt := Some(p))
      case Back => s.(pc := s.pc[p := Again], pt := None)
      case Again => s.(pc := s.pc[p := Testing], lk := Some(p))
      case Taken => s.(pc := s.pc[p := Has], lk := None)
      case Has => s.(pc := s.pc[p := Leaving], lk := Some(p))
      case Leaving => s.(pc := s.pc[p := Cleared], locked := false, pid := 0)
      case Cleared => s.(pc := s.pc[p := Waking], pt := Some(p))
      case Waking => s.(pc := s.pc[p := Woken], sleeping := AllAwake(|s.sleeping|))
      case Woken => s.(pc := s.pc[p := Left], pt := None)
      case Left => s.(pc := s.pc[p := Idle], lk := None)
  }

  // What every step keeps -----------------------------------------------------------------------

  ghost predicate SpinOk(s: State) {
    && |s.pc| == |s.sleeping|
    && (forall p :: 0 <= p < |s.pc| ==> (HoldsLk(s.pc[p]) <==> s.lk == Some(p)))
    && (forall p :: 0 <= p < |s.pc| ==> (HoldsPt(s.pc[p]) <==> s.pt == Some(p)))
    && (s.lk.Some? ==> s.lk.p < |s.pc|) && (s.pt.Some? ==> s.pt.p < |s.pc|)
  }

  /** locked and pid name the one owner. */
  ghost predicate OwnerOk(s: State) {
    && (forall p :: 0 <= p < |s.pc| ==> (Owns(s.pc[p]) <==> s.locked && s.pid == p))
    && (s.locked ==> s.pid < |s.pc|)
  }

  /** A releaser between clearing `locked` and waking everybody. */
  ghost predicate WakeComing(s: State) {
    s.lk.Some? && s.lk.p < |s.pc| && (s.pc[s.lk.p].Cleared? || s.pc[s.lk.p].Waking?)
  }

  ghost predicate NobodyStuck(s: State) {
    && |s.pc| == |s.sleeping|
    && (forall p :: 0 <= p < |s.pc| && (s.pc[p].Committed? || s.pc[p].Both?) ==> s.locked)
    && (forall p :: 0 <= p < |s.pc| && Sleeper(s.pc[p], s.sleeping[p]) ==> s.locked || WakeComing(s))
  }

  ghost predicate Inv(s: State) { SpinOk(s) && OwnerOk(s) && NobodyStuck(s) }

  /** A step moves one process, and a spinlock goes only to it or from it. */
  ghost predicate Local(s: State, t: State, p: nat) {
    && p < |s.pc| == |t.pc| == |s.sleeping| == |t.sleeping|
    && t.pc == s.pc[p := t.pc[p]]
    && (t.lk == s.lk || (s.lk in {None, Some(p)} && t.lk in {None, Some(p)}))
    && (t.pt == s.pt || (s.pt in {None, Some(p)} && t.pt in {None, Some(p)}))
    && (HoldsLk(t.pc[p]) <==> t.lk == Some(p))
    && (HoldsPt(t.pc[p]) <==> t.pt == Some(p))
  }

  lemma StepIsLocal(s: State, e: Step)
    requires SpinOk(s) && Enabled(s, e)
    ensures Local(s, After(s, e), e.p)
  {
    assert HoldsLk(s.pc[e.p]) <==> s.lk == Some(e.p);
    assert HoldsPt(s.pc[e.p]) <==> s.pt == Some(e.p);
    hide SpinOk;
  }

  lemma SpinKept(s: State, t: State, p: nat)
    requires SpinOk(s) && Local(s, t, p)
    ensures SpinOk(t)
  {
    hide HoldsLk, HoldsPt;
  }

  lemma OwnerKept(s: State, e: Step)
    requires SpinOk(s) && OwnerOk(s) && Enabled(s, e)
    ensures OwnerOk(After(s, e))
  {
    StepIsLocal(s, e);
    assert Owns(s.pc[e.p]) <==> s.locked && s.pid == e.p;
    hide SpinOk, HoldsLk, HoldsPt;
  }

  lemma StuckKept(s: State, e: Step)
    requires Inv(s) && Enabled(s, e)
    ensures NobodyStuck(After(s, e))
  {
    StepIsLocal(s, e);
    var t := After(s, e);
    assert Owns(s.pc[e.p]) <==> s.locked && s.pid == e.p;
    hide OwnerOk;
    forall q | 0 <= q < |t.pc|
      ensures t.pc[q].Committed? || t.pc[q].Both? ==> t.locked
      ensures Sleeper(t.pc[q], t.sleeping[q]) ==> t.locked || WakeComing(t)
    {
      assert HoldsLk(s.pc[q]) <==> s.lk == Some(q);
      assert HoldsPt(s.pc[q]) <==> s.pt == Some(q);
      assert HoldsLk(s.pc[e.p]) <==> s.lk == Some(e.p);
      assert HoldsPt(s.pc[e.p]) <==> s.pt == Some(e.p);
    }
  }

  lemma StepKeeps(s: State, e: Step)
    requires Inv(s) && Enabled(s, e)
    ensures Inv(After(s, e)) && |After(s, e).pc| == |s.pc|
  {
    StepIsLocal(s, e);
    SpinKept(s, After(s, e), e.p);
    OwnerKept(s, e);
    StuckKept(s, e);
    hide SpinOk, OwnerOk, NobodyStuck, After, Enabled;
  }

  ghost predicate Runs(s: State, es: seq<Step>)
    decreases |es|
  {
    es == [] || (Enabled(s, es[0]) && Runs(After(s, es[0]), es[1..]))
  }

  function Final(s: State, es: seq<Step>): State
    requires Runs(s, es)
    decreases |es|
  {
    if es == [] then s else Final(After(s, es[0]), es[1..])
  }

  function Fresh(n: nat): State { State(seq(n, _ => Idle), AllAwake(n), None, None, false, 0) }

  lemma {:induction false} RunKeeps(s: State, es: seq<Step>)
    requires Inv(s) && Runs(s, es)
    ensures Inv(Final(s, es))
    decreases |es|
  {
    if es == [] {
    } else {
      StepKeeps(s, es[0]);
      hide Inv, Enabled, After;
      RunKeeps(After(s, es[0]), es[1..]);
    }
  }

  // What it means ---------------------------------------------------------------------------------

  /** At most one process owns the lock, in every run with any kills. */
  lemma MutualExclusion(n: nat, es: seq<Step>, p: nat, q: nat)
    requires Runs(Fresh(n), es) && p < |Final(Fresh(n), es).pc| && q < |Final(Fresh(n), es).pc|
    requires Owns(Final(Fresh(n), es).pc[p]) && Owns(Final(Fresh(n), es).pc[q])
    ensures p == q
  {
    RunKeeps(Fresh(n), es);
    hide After, Enabled, Final, SpinOk, NobodyStuck;
  }

  /** With the spinlock free and the sleep lock unlocked, nobody sleeps on it or is committed
      to sleeping: no wakeup is lost. */
  lemma NoLostWakeup(n: nat, es: seq<Step>, p: nat)
    requires Runs(Fresh(n), es)
    ensures var s := Final(Fresh(n), es);
            s.lk == None && !s.locked && p < |s.pc| == |s.sleeping| ==> !Sleeper(s.pc[p], s.sleeping[p])
  {
    RunKeeps(Fresh(n), es);
    hide After, Enabled, Final, SpinOk, OwnerOk;
  }

  /** holdingsleep, which reads under the spinlock, tells exactly the owner. */
  lemma HoldingsleepExact(s: State, p: nat)
    requires Inv(s) && s.lk == None && p < |s.pc|
    ensures s.locked && s.pid == p <==> s.pc[p] == Has
  {
  }

  /** The two spinlocks cannot deadlock: whoever holds ptable.lock can always go on, and so
      can the holder of the lock's spinlock once ptable.lock is free. */
  lemma SpinlocksProgress(s: State)
    requires Inv(s)
    ensures s.pt.Some? ==> Enabled(s, Move(s.pt.p))
    ensures s.lk.Some? && s.pt == None ==> Enabled(s, Move(s.lk.p))
  {
  }

  /** An awake process is never stuck while nobody owns the sleep lock: if the lock is free and
      no spinlock is held, everyone in the protocol can take a step. */
  lemma FreeLockProgress(s: State, p: nat)
    requires Inv(s) && !s.locked && s.lk == None && s.pt == None && p < |s.pc|
    ensures Enabled(s, Move(p))
  {
  }

  // Calls -------------------------------------------------------------------------------------------

  /** Inside acquiresleep and without the lock. */
  predicate Acquiring(c: Pc) {
    c.Testing? || c.Committed? || c.Both? || c.Dozing? || c.Switching? || c.Away? || c.Back? || c.Again?
  }

  /** The test finds the lock free and takes it, or goes to sleep; nothing else ends the call. */
  lemma AcquireStep(s: State, e: Step, p: nat)
    requires Inv(s) && Enabled(s, e) && p < |s.pc| && Acquiring(s.pc[p])
    ensures var t := After(s, e);
            && |t.pc| == |s.pc| && (Acquiring(t.pc[p]) || t.pc[p].Taken?)
            && (t.pc[p].Taken? <==> e == Move(p) && s.pc[p].Testing? && !s.locked)
  {
  }

  ghost predicate EverOwns(s: State, es: seq<Step>, p: nat)
    requires Runs(s, es)
    decreases |es|
  {
    || (p < |s.pc| && Owns(s.pc[p]))
    || (es != [] && EverOwns(After(s, es[0]), es[1..], p))
  }

  /** acquiresleep does not return without the lock, however often the process is woken or killed
      in it: over any run a call is still under way, or has owned the lock. */
  lemma {:induction false} AcquireEndsOwning(s: State, es: seq<Step>, p: nat)
    requires Inv(s) && Runs(s, es) && p < |s.pc| && Acquiring(s.pc[p])
    ensures |Final(s, es).pc| == |s.pc| && (Acquiring(Final(s, es).pc[p]) || EverOwns(s, es, p))
    decreases |es|
  {
    hide Inv, Enabled, After;
    if es == [] {
    } else {
      StepKeeps(s, es[0]);
      AcquireStep(s, es[0], p);
      var t := After(s, es[0]);
      if Acquiring(t.pc[p]) {
        AcquireEndsOwning(t, es[1..], p);
      } else {
        SameMany(t, es[1..]);
        assert EverOwns(t, es[1..], p);
      }
    }
  }

  lemma {:induction false} SameMany(s: State, es: seq<Step>)
    requires Inv(s) && Runs(s, es)
    ensures |Final(s, es).pc| == |s.pc|
    decreases |es|
  {
    hide Inv, Enabled, After;
    if es == [] {
    } else {
      StepKeeps(s, es[0]);
      SameMany(After(s, es[0]), es[1..]);
    }
  }

  /** A kill wakes the process: one that was switched out asleep can go on at once. */
  lemma KillWakes(s: State, p: nat)
    requires Inv(s) && Enabled(s, Kill(p)) && s.pc[p].Away?
    ensures Enabled(After(s, Kill(p)), Move(p)) && After(s, Kill(p)).pc == s.pc
  {
  }

  /** Only its owner gives the lock up: until releasesleep, whatever the others do, it is locked
      with the owner's pid. */
  lemma OwnerKeeps(s: State, e: Step, p: nat)
    requires Inv(s) && Enabled(s, e) && p < |s.pc| && Owns(s.pc[p])
    ensures var t := After(s, e);
            && |t.pc| == |s.pc|
            && (Owns(t.pc[p]) && t.locked && t.pid == p <==> !(e == Move(p) && s.pc[p].Leaving?))
            && (e == Move(p) && s.pc[p].Leaving? ==> !t.locked && t.pc[p].Cleared?)
  {
    StepKeeps(s, e);
  }
}
