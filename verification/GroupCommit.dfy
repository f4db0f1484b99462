/** begin_op, log_write and end_op among any number of processes, at the granularity of
    the log.lock critical sections. */
module GroupCommit {
  import opened Param

  /** The fields of struct log that the lock protects. */
  datatype Shared = Shared(outstanding: int, committing: bool, lh: seq<nat>)

  /** Where a process is. logged are the blocks its operation has logged so far. */
  datatype Op =
    | Outside
    | Asleep                            // in begin_op, on &log
    | Woken                             // in begin_op, about to test again
    | InOp(logged: set<nat>)
    | Passed(logged: set<nat>, b: nat)  // in log_write, between the guard and the lock
    | Committing                        // in end_op, inside commit
    | Committed                         // in end_op, after commit

  datatype State = State(sh: Shared, ops: seq<Op>)

  datatype Outcome = Next(s: State) | Panic

  datatype Step =
    | Begin(p: nat)
    | Guard(p: nat, b: nat)
    | Append(p: nat)
    | End(p: nat)
    | Commit(p: nat)
    | Finish(p: nat)

  // The critical sections -------------------------------------------------------

  predicate Admits(sh: Shared) {
    !sh.committing && |sh.lh| + (sh.outstanding + 1) * MAXOPBLOCKS <= LOGSIZE
  }

  predicate GuardFails(size: nat, sh: Shared) {
    |sh.lh| >= LOGSIZE || |sh.lh| >= size - 1 || sh.outstanding < 1
  }

  /** Block numbers after log_write, absorbing a repeated one. */
  function Absorb(lh: seq<nat>, b: nat): (r: seq<nat>) {
    if b in lh then lh else lh + [b]
  }

  function Wake(ops: seq<Op>): (r: seq<Op>)
    ensures |r| == |ops|
    ensures forall p :: 0 <= p < |ops| ==> r[p] == if ops[p].Asleep? then Woken else ops[p]
  {
    if ops == [] then [] else [if ops[0].Asleep? then Woken else ops[0]] + Wake(ops[1..])
  }

  /** A process is where the step starts; an operation logs at most MAXOPBLOCKS different
      blocks, each as often as it likes. */
  predicate Enabled(s: State, t: Step) {
    t.p < |s.ops| &&
    match t
    case Begin(p) => s.ops[p].Outside? || s.ops[p].Woken?
    case Guard(p, b) => s.ops[p].InOp? && |s.ops[p].logged + {b}| <= MAXOPBLOCKS
    case Append(p) => s.ops[p].Passed?
    case End(p) => s.ops[p].InOp?
    case Commit(p) => s.ops[p].Committing?
    case Finish(p) => s.ops[p].Committed?
  }

  function Take(size: nat, s: State, t: Step): Outcome
    requires Enabled(s, t)
  {
    var sh, ops := s.sh, s.ops;
    match t
    case Begin(p) =>
      if Admits(sh) then Next(State(sh.(outstanding := sh.outstanding + 1), ops[p := InOp({})]))
      else Next(State(sh, ops[p := Asleep]))
    case Guard(p, b) =>
      if GuardFails(size, sh) then Panic else Next(State(sh, ops[p := Passed(ops[p].logged, b)]))
    case Append(p) =>
      Next(State(sh.(lh := Absorb(sh.lh, ops[p].b)), ops[p := InOp(ops[p].logged + {ops[p].b})]))
    case End(p) =>
      if sh.committing then Panic
      else if sh.outstanding - 1 == 0 then Next(State(sh.(outstanding := 0, committing := true), ops[p := Committing]))
      else Next(State(sh.(outstanding := sh.outstanding - 1), Wake(ops[p := Outside])))
    case Commit(p) =>
      Next(State(sh.(lh := []), ops[p := Committed]))
    case Finish(p) =>
      Next(State(sh.(committing := false), Wake(ops[p := Outside])))
  }

  // Sums over the processes -------------------------------------------------------

  function Active(o: Op): int { if o.InOp? || o.Passed? then 1 else 0 }

  /** What the operation may still log. */
  function Room(o: Op): int { if o.InOp? || o.Passed? then MAXOPBLOCKS - |o.logged| else 0 }

  function Ending(o: Op): int { if o.Committing? || o.Committed? then 1 else 0 }

  function Sum(f: Op -> int, ops: seq<Op>): int {
    if ops == [] then 0 else f(ops[0]) + Sum(f, ops[1..])
  }

  lemma {:induction false} SumUpdate(f: Op -> int, ops: seq<Op>, p: nat, o: Op)
    requires p < |ops|
    ensures Sum(f, ops[p := o]) == Sum(f, ops) - f(ops[p]) + f(o)
  {
    if p == 0 {
      assert ops[p := o][1..] == ops[1..];
    } else {
      SumUpdate(f, ops[1..], p - 1, o);
      assert ops[p := o][1..] == ops[1..][p - 1 := o];
    }
  }

  lemma {:induction false} SumWake(f: Op -> int, ops: seq<Op>)
    requires f(Asleep) == f(Woken)
    ensures Sum(f, Wake(ops)) == Sum(f, ops)
  {
    if ops == [] {
    } else {
      SumWake(f, ops[1..]);
      assert Wake(ops)[1..] == Wake(ops[1..]);
    }
  }

  lemma {:induction false} SumAtLeast(f: Op -> int, ops: seq<Op>, p: nat)
    requires p < |ops| && forall q :: 0 <= q < |ops| ==> f(ops[q]) >= 0
    ensures Sum(f, ops) >= f(ops[p])
  {
    if p == 0 {
      SumNonNegative(f, ops[1..]);
    } else {
      SumAtLeast(f, ops[1..], p - 1);
    }
  }

  lemma {:induction false} SumNonNegative(f: Op -> int, ops: seq<Op>)
    requires forall q :: 0 <= q < |ops| ==> f(ops[q]) >= 0
    ensures Sum(f, ops) >= 0
  {
    if ops == [] {
    } else {
      SumNonNegative(f, ops[1..]);
    }
  }

  lemma {:induction false} SumZero(f: Op -> int, ops: seq<Op>)
    requires forall q :: 0 <= q < |ops| ==> f(ops[q]) == 0
    ensures Sum(f, ops) == 0
  {
    if ops == [] {
    } else {
      SumZero(f, ops[1..]);
    }
  }

  lemma {:induction false} RoomBound(ops: seq<Op>)
    ensures Sum(Room, ops) <= MAXOPBLOCKS * Sum(Active, ops)
  {
    if ops == [] {
    } else {
      RoomBound(ops[1..]);
    }
  }

  // The invariant -----------------------------------------------------------------

  ghost predicate Distinct(lh: seq<nat>) {
    forall i, j :: 0 <= i < j < |lh| ==> lh[i] != lh[j]
  }

  ghost predicate OpOk(lh: seq<nat>, o: Op) {
    && (o.InOp? || o.Passed? ==> |o.logged| <= MAXOPBLOCKS && forall b :: b in o.logged ==> b in lh)
    && (o.Passed? ==> |o.logged + {o.b}| <= MAXOPBLOCKS)
    && (o.Committed? ==> lh == [])
  }

  ghost predicate Inv(s: State) {
    && s.sh.outstanding == Sum(Active, s.ops)
    && |s.sh.lh| + Sum(Room, s.ops) <= LOGSIZE
    && Sum(Ending, s.ops) == (if s.sh.committing then 1 else 0)
    && (s.sh.committing ==> s.sh.outstanding == 0)
    && (s.sh.outstanding == 0 && !s.sh.committing ==> s.sh.lh == [])
    && Distinct(s.sh.lh)
    && (forall p :: 0 <= p < |s.ops| ==> OpOk(s.sh.lh, s.ops[p]))
    && (forall p :: 0 <= p < |s.ops| && s.ops[p].Asleep? ==> s.sh.committing || s.sh.outstanding > 0)
  }

  function Start(procs: nat): State {
    State(Shared(0, false, []), seq(procs, _ => Outside))
  }

  lemma StartInv(procs: nat)
    ensures Inv(Start(procs)) && NobodyHeldUp(Start(procs))
  {
    var ops := Start(procs).ops;
    SumZero(Active, ops);
    SumZero(Room, ops);
    SumZero(Ending, ops);
  }

  lemma BeginKeeps(size: nat, s: State, p: nat)
    requires Inv(s) && Enabled(s, Begin(p))
    ensures Inv(Take(size, s, Begin(p)).s)
  {
    var o := if Admits(s.sh) then InOp({}) else Asleep;
    SumUpdate(Active, s.ops, p, o);
    SumUpdate(Room, s.ops, p, o);
    SumUpdate(Ending, s.ops, p, o);
    RoomBound(s.ops);
    SumNonNegative(Active, s.ops);
  }

  /** Read off the processes alone: nobody is in commit, and what is logged leaves a full
      reservation for each operation that runs and for one more. */
  predicate RoomForOne(s: State) {
    && (forall q :: 0 <= q < |s.ops| ==> !s.ops[q].Committing? && !s.ops[q].Committed?)
    && |s.sh.lh| + (Sum(Active, s.ops) + 1) * MAXOPBLOCKS <= LOGSIZE
  }

  lemma RoomIs(s: State)
    requires Inv(s)
    ensures Admits(s.sh) <==> RoomForOne(s)
  {
    if s.sh.committing {
      if forall q :: 0 <= q < |s.ops| ==> Ending(s.ops[q]) == 0 {
        SumZero(Ending, s.ops);
      }
    } else {
      forall q | 0 <= q < |s.ops|
        ensures Ending(s.ops[q]) == 0
      {
        SumAtLeast(Ending, s.ops, q);
      }
    }
  }

  /** begin_op lets a process in exactly when there is room for it, and sends it to sleep
      exactly when there is not. */
  lemma AdmittedIff(size: nat, s: State, p: nat)
    requires Inv(s) && Enabled(s, Begin(p))
    ensures var t := Take(size, s, Begin(p));
            && t.Next? && |t.s.ops| == |s.ops| && t.s.sh.lh == s.sh.lh
            && (t.s.ops[p] == InOp({}) <==> RoomForOne(s)) && (t.s.ops[p] == Asleep <==> !RoomForOne(s))
            && Sum(Active, t.s.ops) == Sum(Active, s.ops) + (if RoomForOne(s) then 1 else 0)
  {
    RoomIs(s);
    SumUpdate(Active, s.ops, p, Take(size, s, Begin(p)).s.ops[p]);
  }

  /** Nobody sleeps in begin_op while there is room for an operation. */
  ghost predicate NobodyHeldUp(s: State) {
    (exists p :: 0 <= p < |s.ops| && s.ops[p].Asleep?) ==> !RoomForOne(s)
  }

  lemma StepHoldsUpNobody(size: nat, s: State, t: Step)
    requires Inv(s) && NobodyHeldUp(s) && Enabled(s, t) && Take(size, s, t).Next?
    ensures NobodyHeldUp(Take(size, s, t).s)
  {
    hide RoomForOne, Sum;
    StepKeeps(size, s, t);
    var u := Take(size, s, t).s;
    RoomIs(s);
    RoomIs(u);
    if t.Commit? {
      SumAtLeast(Ending, s.ops, t.p);
    } else if t.Begin? || t.Guard? || t.Append? {
      assert Admits(u.sh) ==> Admits(s.sh);
      assert forall q :: 0 <= q < |u.ops| && u.ops[q].Asleep? && q != t.p ==> s.ops[q].Asleep?;
    }
  }

  /** log_write called with room left in the operation's reservation. */
  predicate WithRoom(s: State, t: Step) {
    t.Guard? && t.p < |s.ops| && s.ops[t.p].InOp? ==> |s.ops[t.p].logged| < MAXOPBLOCKS
  }

  /** When the guard fires on a running operation: exactly when the log has no block left. In a
      log of more than LOGSIZE blocks that takes LOGSIZE logged blocks, and every operation has
      then used up its reservation. */
  lemma GuardIff(size: nat, s: State, p: nat)
    requires Inv(s) && p < |s.ops| && s.ops[p].InOp?
    ensures GuardFails(size, s.sh) <==> |s.sh.lh| == LOGSIZE || |s.sh.lh| >= size - 1
    ensures size > LOGSIZE ==> (GuardFails(size, s.sh) <==> |s.sh.lh| == LOGSIZE)
    ensures |s.sh.lh| == LOGSIZE ==> |s.ops[p].logged| == MAXOPBLOCKS
  {
    SumAtLeast(Active, s.ops, p);
    SumAtLeast(Room, s.ops, p);
  }

  lemma GuardKeeps(size: nat, s: State, p: nat, b: nat)
    requires Inv(s) && Enabled(s, Guard(p, b)) && Take(size, s, Guard(p, b)).Next?
    ensures Inv(Take(size, s, Guard(p, b)).s)
  {
    var o := Passed(s.ops[p].logged, b);
    SumUpdate(Active, s.ops, p, o);
    SumUpdate(Room, s.ops, p, o);
    SumUpdate(Ending, s.ops, p, o);
  }

  lemma AppendKeeps(size: nat, s: State, p: nat)
    requires Inv(s) && Enabled(s, Append(p))
    ensures Inv(Take(size, s, Append(p)).s)
  {
    hide Sum;
    var o := InOp(s.ops[p].logged + {s.ops[p].b});
    assert s.ops[p].b in s.ops[p].logged ==> o.logged == s.ops[p].logged;
    SumUpdate(Active, s.ops, p, o);
    SumUpdate(Room, s.ops, p, o);
    SumUpdate(Ending, s.ops, p, o);
    SumAtLeast(Active, s.ops, p);
    NoneEnding(s);
  }

  /** While an operation runs nobody is in commit. */
  lemma NoneEnding(s: State)
    requires Inv(s) && s.sh.outstanding > 0
    ensures forall q :: 0 <= q < |s.ops| ==> Ending(s.ops[q]) == 0
  {
    forall q | 0 <= q < |s.ops|
      ensures Ending(s.ops[q]) == 0
    {
      SumAtLeast(Ending, s.ops, q);
    }
  }

  /** The panic in end_op is unreachable. */
  lemma EndKeeps(size: nat, s: State, p: nat)
    requires Inv(s) && Enabled(s, End(p))
    ensures !s.sh.committing
    ensures Inv(Take(size, s, End(p)).s)
  {
    var o := if s.sh.outstanding == 1 then Committing else Outside;
    SumUpdate(Active, s.ops, p, o);
    SumUpdate(Room, s.ops, p, o);
    SumUpdate(Ending, s.ops, p, o);
    SumAtLeast(Active, s.ops, p);
    SumWake(Active, s.ops[p := o]);
    SumWake(Room, s.ops[p := o]);
    SumWake(Ending, s.ops[p := o]);
  }

  lemma CommitKeeps(size: nat, s: State, p: nat)
    requires Inv(s) && Enabled(s, Commit(p))
    ensures Inv(Take(size, s, Commit(p)).s)
  {
    SumUpdate(Active, s.ops, p, Committed);
    SumUpdate(Room, s.ops, p, Committed);
    SumUpdate(Ending, s.ops, p, Committed);
    SumAtLeast(Ending, s.ops, p);
    forall q | 0 <= q < |s.ops|
      ensures Active(s.ops[q]) == 0
    {
      SumAtLeast(Active, s.ops, q);
    }
  }

  lemma FinishKeeps(size: nat, s: State, p: nat)
    requires Inv(s) && Enabled(s, Finish(p))
    ensures Inv(Take(size, s, Finish(p)).s)
  {
    var ops := s.ops[p := Outside];
    SumUpdate(Active, s.ops, p, Outside);
    SumUpdate(Room, s.ops, p, Outside);
    SumUpdate(Ending, s.ops, p, Outside);
    SumAtLeast(Ending, s.ops, p);
    SumWake(Active, ops);
    SumWake(Room, ops);
    SumWake(Ending, ops);
  }

  // Runs ---------------------------------------------------------------------------

  ghost predicate Legal(size: nat, s: State, steps: seq<Step>)
    decreases steps
  {
    steps == [] || (Enabled(s, steps[0])
      && (Take(size, s, steps[0]).Next? ==> Legal(size, Take(size, s, steps[0]).s, steps[1..])))
  }

  /** Where the run ends; a panic ends it for good. */
  ghost function Run(size: nat, s: State, steps: seq<Step>): Outcome
    requires Legal(size, s, steps)
    decreases steps
  {
    if steps == [] then Next(s)
    else if Take(size, s, steps[0]).Panic? then Panic
    else Run(size, Take(size, s, steps[0]).s, steps[1..])
  }

  /** A step keeps the invariant, and panics only in log_write's guard, with no block left. */
  lemma StepKeeps(size: nat, s: State, t: Step)
    requires Inv(s) && Enabled(s, t)
    ensures Take(size, s, t).Next? ==> Inv(Take(size, s, t).s)
    ensures Take(size, s, t).Panic? <==> t.Guard? && (|s.sh.lh| == LOGSIZE || |s.sh.lh| >= size - 1)
    ensures size > LOGSIZE && WithRoom(s, t) ==> Take(size, s, t).Next?
  {
    match t
    case Begin(p) => BeginKeeps(size, s, p);
    case Guard(p, b) =>
      GuardIff(size, s, p);
      if Take(size, s, t).Next? {
        GuardKeeps(size, s, p, b);
      }
    case Append(p) => AppendKeeps(size, s, p);
    case End(p) => EndKeeps(size, s, p);
    case Commit(p) => CommitKeeps(size, s, p);
    case Finish(p) => FinishKeeps(size, s, p);
  }

  /** Every log_write of the run is called with room left. */
  ghost predicate Frugal(size: nat, s: State, steps: seq<Step>)
    requires Legal(size, s, steps)
    decreases steps
  {
    steps != [] ==>
      && WithRoom(s, steps[0])
      && (Take(size, s, steps[0]).Next? ==> Frugal(size, Take(size, s, steps[0]).s, steps[1..]))
  }

  /** Every interleaving keeps the invariant, and one whose log_writes all have room does not
      panic in a log of more than LOGSIZE blocks. */
  lemma {:induction false} RunKeeps(size: nat, s: State, steps: seq<Step>)
    requires Inv(s) && Legal(size, s, steps)
    ensures Run(size, s, steps).Next? ==> Inv(Run(size, s, steps).s)
    ensures size > LOGSIZE && Frugal(size, s, steps) ==> Run(size, s, steps).Next?
    decreases steps
  {
    if steps == [] {
    } else {
      StepKeeps(size, s, steps[0]);
      if Take(size, s, steps[0]).Next? {
        RunKeeps(size, Take(size, s, steps[0]).s, steps[1..]);
      }
    }
  }

  /** In every run from an idle log a process that sleeps in begin_op has no room: whoever
      makes some wakes it. */
  lemma {:induction false} NeverHeldUp(size: nat, s: State, steps: seq<Step>)
    requires Inv(s) && NobodyHeldUp(s) && Legal(size, s, steps) && Run(size, s, steps).Next?
    ensures NobodyHeldUp(Run(size, s, steps).s)
    decreases steps
  {
    hide Inv, NobodyHeldUp, Enabled, Take;
    if steps == [] {
    } else {
      StepKeeps(size, s, steps[0]);
      StepHoldsUpNobody(size, s, steps[0]);
      NeverHeldUp(size, Take(size, s, steps[0]).s, steps[1..]);
    }
  }

  ghost predicate NeverPanics(size: nat, procs: nat) {
    forall steps :: Legal(size, Start(procs), steps) && Frugal(size, Start(procs), steps) ==>
      Run(size, Start(procs), steps).Next?
  }

  /** The guard of log_write is safe for frugal operations exactly when the log has more than
      LOGSIZE blocks; mkfs makes it LOGSIZE blocks long. */
  lemma NeverPanicsIff(size: nat, procs: nat)
    requires procs >= 3
    ensures NeverPanics(size, procs) <==> size > LOGSIZE
  {
    var s := Start(procs);
    if size > LOGSIZE {
      forall steps | Legal(size, s, steps) && Frugal(size, s, steps)
        ensures Run(size, s, steps).Next?
      {
        StartInv(procs);
        RunKeeps(size, s, steps);
      }
    } else {
      var k := if size == 0 then 0 else size - 1;
      var steps := Fill(k);
      FillRuns(size, procs, k);
      var last := Guard(k % 3, k);
      RunExtend(size, s, steps, last);
      assert Run(size, s, steps + [last]).Panic?;
    }
  }

  lemma {:induction false} RunExtend(size: nat, s: State, steps: seq<Step>, t: Step)
    requires Legal(size, s, steps) && Run(size, s, steps).Next? && Enabled(Run(size, s, steps).s, t)
    ensures Legal(size, s, steps + [t])
    ensures Run(size, s, steps + [t]) == Take(size, Run(size, s, steps).s, t)
    ensures Frugal(size, s, steps) && WithRoom(Run(size, s, steps).s, t) ==> Frugal(size, s, steps + [t])
    decreases steps
  {
    if steps == [] {
      assert steps + [t] == [t];
      assert [t][1..] == [];
    } else {
      RunExtend(size, Take(size, s, steps[0]).s, steps[1..], t);
      assert (steps + [t])[1..] == steps[1..] + [t];
    }
  }

  // Three operations filling the log ------------------------------------------------

  /** Three operations begin and log blocks 0, 1, ..., k-1 in turn. */
  function Fill(k: nat): seq<Step> {
    if k == 0 then [Begin(0), Begin(1), Begin(2)]
    else Fill(k - 1) + [Guard((k - 1) % 3, k - 1)] + [Append((k - 1) % 3)]
  }

  function UpTo(k: nat): (r: seq<nat>)
    ensures |r| == k && forall i :: 0 <= i < k ==> r[i] == i
  {
    seq(k, i => i)
  }

  /** What operation q has logged of them. */
  function Share(q: nat, k: nat): (r: set<nat>)
    ensures forall b :: b in r ==> b < k
  {
    if k == 0 then {} else if (k - 1) % 3 == q then Share(q, k - 1) + {k - 1} else Share(q, k - 1)
  }

  lemma Thirds(k: nat, q: nat)
    requires k > 0 && q < 3
    ensures (k + 2 - q) / 3 == (k + 1 - q) / 3 + (if (k - 1) % 3 == q then 1 else 0)
  {
  }

  lemma {:induction false} ShareSize(q: nat, k: nat)
    requires q < 3
    ensures |Share(q, k)| == (k + 2 - q) / 3
  {
    if k == 0 {
    } else {
      ShareSize(q, k - 1);
      assert (k - 1) % 3 == q <==> (k + 2 - q) / 3 == (k + 1 - q) / 3 + 1 by { Thirds(k, q); }
      assert (k - 1) % 3 != q <==> (k + 2 - q) / 3 == (k + 1 - q) / 3 by { Thirds(k, q); }
    }
  }

  function Filled(procs: nat, k: nat): State
    requires procs >= 3
  {
    State(Shared(3, false, UpTo(k)),
      Start(procs).ops[0 := InOp(Share(0, k))][1 := InOp(Share(1, k))][2 := InOp(Share(2, k))])
  }

  lemma ShareNext(k: nat, q: nat)
    ensures Share(q, k + 1) == if k % 3 == q then Share(q, k) + {k} else Share(q, k)
  {
  }

  lemma FilledNext(size: nat, procs: nat, k: nat)
    requires procs >= 3 && k < LOGSIZE && k + 1 < size
    ensures var s := Filled(procs, k);
            var g := Guard(k % 3, k);
            var a := Append(k % 3);
            && Enabled(s, g) && WithRoom(s, g) && Take(size, s, g).Next?
            && Enabled(Take(size, s, g).s, a) && Take(size, Take(size, s, g).s, a) == Next(Filled(procs, k + 1))
  {
    hide Share;
    var q := k % 3;
    FilledEnabled(procs, k, q, k);
    ShareNext(k, 0);
    ShareNext(k, 1);
    ShareNext(k, 2);
    assert UpTo(k + 1) == UpTo(k) + [k];
    assert k !in UpTo(k);
    assert Filled(procs, k).ops[q := InOp(Share(q, k) + {k})] == Filled(procs, k + 1).ops;
  }

  /** The three have room while the log does. */
  lemma FilledEnabled(procs: nat, k: nat, q: nat, b: nat)
    requires procs >= 3 && q < 3 && k + 2 - q < LOGSIZE
    ensures Filled(procs, k).ops[q] == InOp(Share(q, k)) && |Share(q, k)| < MAXOPBLOCKS
    ensures Enabled(Filled(procs, k), Guard(q, b)) && WithRoom(Filled(procs, k), Guard(q, b))
  {
    ShareSize(q, k);
  }

  lemma BeginRuns(size: nat, procs: nat)
    requires procs >= 3
    ensures Legal(size, Start(procs), Fill(0)) && Run(size, Start(procs), Fill(0)) == Next(Filled(procs, 0))
    ensures Frugal(size, Start(procs), Fill(0))
  {
    var s := Start(procs);
    assert Legal(size, s, []) && Run(size, s, []) == Next(s) && Frugal(size, s, []);
    hide Legal, Run, Frugal;
    assert Fill(0) == [] + [Begin(0)] + [Begin(1)] + [Begin(2)];
    RunExtend(size, s, [], Begin(0));
    RunExtend(size, s, [] + [Begin(0)], Begin(1));
    RunExtend(size, s, [] + [Begin(0)] + [Begin(1)], Begin(2));
    assert UpTo(0) == [];
  }

  lemma {:induction false} FillRuns(size: nat, procs: nat, k: nat)
    requires procs >= 3 && k <= LOGSIZE && (k == 0 || k < size)
    ensures Legal(size, Start(procs), Fill(k)) && Run(size, Start(procs), Fill(k)) == Next(Filled(procs, k))
    ensures Frugal(size, Start(procs), Fill(k))
    ensures k < LOGSIZE ==> Enabled(Filled(procs, k), Guard(k % 3, k)) && WithRoom(Filled(procs, k), Guard(k % 3, k))
  {
    hide Legal, Run, Frugal, Share, Filled, Enabled, Take;
    var s := Start(procs);
    if k == 0 {
      BeginRuns(size, procs);
    } else {
      var g, a := Guard((k - 1) % 3, k - 1), Append((k - 1) % 3);
      FillRuns(size, procs, k - 1);
      FilledNext(size, procs, k - 1);
      RunExtend(size, s, Fill(k - 1), g);
      RunExtend(size, s, Fill(k - 1) + [g], a);
    }
    if k < LOGSIZE {
      FilledEnabled(procs, k, k % 3, k);
    }
  }

  /** The guard looks before it absorbs: with the log full, logging a block again panics,
      however large the log is. */
  lemma RepeatPanics(size: nat, procs: nat)
    requires procs >= 3 && size > LOGSIZE
    ensures var steps := Fill(LOGSIZE) + [Guard(0, 0)];
            && Legal(size, Start(procs), Fill(LOGSIZE)) && Frugal(size, Start(procs), Fill(LOGSIZE))
            && Run(size, Start(procs), Fill(LOGSIZE)) == Next(Filled(procs, LOGSIZE))
            && 0 in Filled(procs, LOGSIZE).ops[0].logged
            && Legal(size, Start(procs), steps) && Run(size, Start(procs), steps) == Panic
  {
    FillRuns(size, procs, LOGSIZE);
    ShareSize(0, LOGSIZE);
    FirstShared(LOGSIZE);
    var logged := Share(0, LOGSIZE);
    assert logged + {0} == logged;
    RunExtend(size, Start(procs), Fill(LOGSIZE), Guard(0, 0));
  }

  lemma {:induction false} FirstShared(k: nat)
    requires k > 0
    ensures 0 in Share(0, k)
  {
    if k == 1 {
      assert Share(0, 0) == {};
    } else {
      FirstShared(k - 1);
    }
  }

  // Two operations past the guard -----------------------------------------------------

  /** The logged blocks and the header always fit the log. */
  ghost predicate AlwaysFits(size: nat, procs: nat) {
    forall steps :: Legal(size, Start(procs), steps) && Frugal(size, Start(procs), steps)
      && Run(size, Start(procs), steps).Next?
      ==> |Run(size, Start(procs), steps).s.sh.lh| < size
  }

  /** Two operations pass the guard when one block is left, and then both append. */
  function Race(k: nat): seq<Step> {
    Fill(k) + [Guard(k % 3, k)] + [Guard((k + 1) % 3, k + 1)] + [Append(k % 3)] + [Append((k + 1) % 3)]
  }

  /** After both have passed it. */
  function Past(procs: nat, k: nat): State
    requires procs >= 3
  {
    var s := Filled(procs, k);
    s.(ops := s.ops[k % 3 := Passed(Share(k % 3, k), k)][(k + 1) % 3 := Passed(Share((k + 1) % 3, k), k + 1)])
  }

  lemma RacePasses(procs: nat, k: nat)
    requires procs >= 3 && k + 2 <= LOGSIZE
    ensures var s, g, h := Filled(procs, k), Guard(k % 3, k), Guard((k + 1) % 3, k + 1);
            && Enabled(s, g) && WithRoom(s, g) && Take(k + 2, s, g).Next?
            && Enabled(Take(k + 2, s, g).s, h) && WithRoom(Take(k + 2, s, g).s, h)
            && Take(k + 2, Take(k + 2, s, g).s, h) == Next(Past(procs, k))
  {
    hide Share;
    FilledEnabled(procs, k, k % 3, k);
    FilledEnabled(procs, k, (k + 1) % 3, k + 1);
  }

  lemma RaceAppends(procs: nat, k: nat)
    requires procs >= 3
    ensures var s, a, b := Past(procs, k), Append(k % 3), Append((k + 1) % 3);
            && Enabled(s, a) && WithRoom(s, a) && Take(k + 2, s, a).Next?
            && Enabled(Take(k + 2, s, a).s, b) && WithRoom(Take(k + 2, s, a).s, b)
            && Take(k + 2, Take(k + 2, s, a).s, b).Next?
            && Take(k + 2, Take(k + 2, s, a).s, b).s.sh.lh == UpTo(k + 2)
  {
    hide Share;
    assert k !in UpTo(k) && k + 1 !in UpTo(k) + [k];
    assert UpTo(k + 2) == UpTo(k) + [k] + [k + 1];
  }

  lemma RaceRuns(procs: nat, k: nat)
    requires procs >= 3 && k + 2 <= LOGSIZE
    ensures Legal(k + 2, Start(procs), Race(k)) && Frugal(k + 2, Start(procs), Race(k))
    ensures var r := Run(k + 2, Start(procs), Race(k)); r.Next? && r.s.sh.lh == UpTo(k + 2)
  {
    hide Legal, Run, Frugal, Filled, Past, Share, Fill, Take, Enabled, WithRoom, Start;
    var s, size := Start(procs), k + 2;
    FillRuns(size, procs, k);
    RacePasses(procs, k);
    RaceAppends(procs, k);
    var g, h, a, b := Guard(k % 3, k), Guard((k + 1) % 3, k + 1), Append(k % 3), Append((k + 1) % 3);
    RunExtend(size, s, Fill(k), g);
    RunExtend(size, s, Fill(k) + [g], h);
    RunExtend(size, s, Fill(k) + [g] + [h], a);
    RunExtend(size, s, Fill(k) + [g] + [h] + [a], b);
  }

  /** The guard is read without the lock, so it protects no log of the size mkfs makes: the
      logged blocks fit the log in every interleaving exactly when it has more than LOGSIZE
      blocks, or has only its header. */
  lemma AlwaysFitsIff(size: nat, procs: nat)
    requires procs >= 3
    ensures AlwaysFits(size, procs) <==> size > LOGSIZE || size == 1
  {
    var s := Start(procs);
    StartInv(procs);
    if size > LOGSIZE || size == 1 {
      forall steps | Legal(size, s, steps) && Frugal(size, s, steps) && Run(size, s, steps).Next?
        ensures |Run(size, s, steps).s.sh.lh| < size
      {
        if size == 1 {
          HeaderOnly(s, steps);
        } else {
          RunKeeps(size, s, steps);
          RoomLeft(Run(size, s, steps).s);
        }
      }
    } else if size == 0 {
      assert Legal(size, s, []) && Frugal(size, s, []) && |Run(size, s, []).s.sh.lh| == 0;
    } else {
      RaceRuns(procs, size - 2);
    }
  }

  lemma RoomLeft(s: State)
    requires Inv(s)
    ensures |s.sh.lh| <= LOGSIZE
  {
    SumNonNegative(Room, s.ops);
  }

  /** In a log that is only a header no log_write gets past the guard. */
  lemma {:induction false} HeaderOnly(s: State, steps: seq<Step>)
    requires Legal(1, s, steps) && s.sh.lh == [] && Run(1, s, steps).Next?
    requires forall p :: 0 <= p < |s.ops| ==> !s.ops[p].Passed?
    ensures Run(1, s, steps).s.sh.lh == []
    decreases steps
  {
    if steps == [] {
    } else {
      HeaderOnly(Take(1, s, steps[0]).s, steps[1..]);
    }
  }

  // struct log ----------------------------------------------------------------------

  /** log.size is a parameter of the log on disk; ops says where the processes are. */
  class Log {
    const size: nat
    var outstanding: int
    var committing: bool
    var n: nat
    const block: array<nat>
    ghost var ops: seq<Op>

    ghost predicate Valid()
      reads this, block
    {
      block.Length == LOGSIZE && n <= LOGSIZE && Inv(View())
    }

    ghost function View(): State
      requires block.Length == LOGSIZE && n <= LOGSIZE
      reads this, block
    {
      State(Shared(outstanding, committing, block[..n]), ops)
    }

    constructor (size: nat, ghost procs: nat)
      ensures Valid() && View() == Start(procs) && this.size == size
    {
      this.size, outstanding, committing, n := size, 0, false, 0;
      block := new nat[LOGSIZE];
      ops := Start(procs).ops;
      new;
      assert block[..n] == [];
      StartInv(procs);
    }

    /** One turn of begin_op's loop: in, with room in the log for all that the operations in
        it may still log, or to sleep on &log, with somebody in flight who will wake it. */
    method BeginOp(ghost p: nat) returns (admitted: bool)
      requires Valid() && Enabled(View(), Begin(p))
      modifies this`outstanding, this`ops
      ensures Valid() && Next(View()) == Take(size, old(View()), Begin(p))
      ensures admitted <==> old(RoomForOne(View()))
      ensures admitted ==> ops[p] == InOp({}) && !committing && n + Sum(Room, ops) <= LOGSIZE
      ensures !admitted ==> ops[p] == Asleep && (committing || outstanding > 0)
    {
      BeginKeeps(size, View(), p);
      RoomIs(View());
      if committing {
        ops := ops[p := Asleep];
        return false;
      } else if n + (outstanding + 1) * MAXOPBLOCKS > LOGSIZE {
        ops := ops[p := Asleep];
        return false;
      }
      outstanding := outstanding + 1;
      ops := ops[p := InOp({})];
      return true;
    }

    /** log_write's tests, before it takes the lock; the source panics when they fail. In a log
        of more than LOGSIZE blocks they pass an operation that has room. */
    method Guarded(ghost p: nat, ghost b: nat) returns (ok: bool)
      requires Valid() && Enabled(View(), Guard(p, b))
      modifies this`ops
      ensures Valid() && Take(size, old(View()), Guard(p, b)) == if ok then Next(View()) else Panic
      ensures ok <==> n < LOGSIZE && n < size - 1
      ensures size > LOGSIZE && |old(ops[p].logged)| < MAXOPBLOCKS ==> ok
    {
      StepKeeps(size, View(), Guard(p, b));
      GuardIff(size, View(), p);
      if n >= LOGSIZE || n >= size - 1 {
        return false;
      }
      if outstanding < 1 {
        return false;
      }
      ops := ops[p := Passed(ops[p].logged, b)];
      return true;
    }

    /** log_write's loop over the block numbers and the store after it. */
    method LogWrite(ghost p: nat, b: nat)
      requires Valid() && Enabled(View(), Append(p)) && ops[p].b == b
      modifies this`n, this`ops, block
      ensures Valid() && Next(View()) == Take(size, old(View()), Append(p))
    {
      hide Inv;
      ghost var lh := block[..n];
      AppendKeeps(size, View(), p);
      RoomLeft(Take(size, View(), Append(p)).s);
      var i := 0;
      while i < n && block[i] != b
        invariant 0 <= i <= n && forall j :: 0 <= j < i ==> lh[j] != b
      {
        i := i + 1;
      }
      assert i < n ==> lh[i] == b;
      assert i == n ==> b !in lh;
      block[i] := b;
      if i == n {
        n := n + 1;
      }
      assert block[..n] == Absorb(lh, b);
      ops := ops[p := InOp(ops[p].logged + {b})];
    }

    /** end_op up to the release of the lock: its panic is never met, and the operation that
        leaves the log empty of operations is the one to commit. */
    method EndOp(ghost p: nat) returns (ok: bool, doCommit: bool)
      requires Valid() && Enabled(View(), End(p))
      modifies this`outstanding, this`committing, this`ops
      ensures ok && Valid() && Next(View()) == Take(size, old(View()), End(p))
      ensures doCommit <==> forall q :: 0 <= q < |ops| ==> Active(ops[q]) == 0
      ensures doCommit <==> ops[p] == Committing
    {
      EndKeeps(size, View(), p);
      doCommit := false;
      outstanding := outstanding - 1;
      if committing {
        return false, false;
      }
      if outstanding == 0 {
        doCommit := true;
        committing := true;
        ops := ops[p := Committing];
      } else {
        ops := Wake(ops[p := Outside]);
      }
      LastOut(View());
      return true, doCommit;
    }

    /** The rest of end_op, after commit has emptied the log. */
    method FinishOp(ghost p: nat)
      requires Valid() && Enabled(View(), Finish(p))
      modifies this`committing, this`ops
      ensures Valid() && Next(View()) == Take(size, old(View()), Finish(p))
      ensures n == outstanding == 0 && forall q :: 0 <= q < |ops| ==> !ops[q].Asleep?
    {
      FinishKeeps(size, View(), p);
      SumAtLeast(Ending, ops, p);
      committing := false;
      ops := Wake(ops[p := Outside]);
      assert |block[..n]| == n;
    }
  }

  lemma LastOut(s: State)
    requires Inv(s)
    ensures s.sh.outstanding == 0 <==> forall q :: 0 <= q < |s.ops| ==> Active(s.ops[q]) == 0
  {
    if s.sh.outstanding == 0 {
      forall q | 0 <= q < |s.ops|
        ensures Active(s.ops[q]) == 0
      {
        SumAtLeast(Active, s.ops, q);
      }
    } else if forall q :: 0 <= q < |s.ops| ==> Active(s.ops[q]) == 0 {
      SumZero(Active, s.ops);
    }
  }
}
