/** The process table of proc.c: fork, exit, wait, sleep, wakeup, kill and renice as
    steps whose granularity is the ptable.lock critical section. */
module Processes {

  datatype ProcState = UNUSED | EMBRYO | SLEEPING | RUNNABLE | RUNNING | ZOMBIE

  /** What a process sleeps on: the address of a process slot, or anything else. */
  datatype Chan = NoChan | OnProc(slot: nat) | OnOther(addr: nat)

  datatype Proc = Proc(state: ProcState, pid: nat, parent: int, chan: Chan, killed: bool, nice: nat)

  const NOBODY := -1            // a null parent
  const DEFAULT_NICE := 40
  const MIN_NICE := 1
  const MAX_NICE := 100

  /** How far fork has got in a process: the slot it is filling, before and after it
      has stored itself there as the parent. */
  datatype Forking = NotForking | Allocated(np: nat) | Parented(np: nat)

  datatype State = State(ps: seq<Proc>, nextpid: nat, init: nat, forks: seq<Forking>)

  datatype Step =
    | AllocProc(p: nat)
    | InitNice(p: nat)
    | FailFork(p: nat)
    | SetParent(p: nat)
    | Publish(p: nat)
    | Exit(p: nat)
    | Wait(p: nat)
    | Sleep(p: nat, addr: nat)
    | Wakeup(addr: nat)
    | Kill(pid: nat)
    | Schedule(p: nat)
    | Yield(p: nat)
    | Renice(nice: int, pid: nat)

  // What the critical sections compute --------------------------------------------

  function Wakened(q: Proc, c: Chan): Proc {
    if q.state.SLEEPING? && q.chan == c then q.(state := RUNNABLE) else q
  }

  function WakeAll(ps: seq<Proc>, c: Chan): (r: seq<Proc>)
    ensures |r| == |ps| && forall i :: 0 <= i < |ps| ==> r[i] == Wakened(ps[i], c)
  {
    seq(|ps|, i requires 0 <= i < |ps| => Wakened(ps[i], c))
  }

  /** The first slot at or after k that is free, or |ps|. */
  function FreeSlot(ps: seq<Proc>, k: nat): (j: nat)
    requires k <= |ps|
    ensures k <= j <= |ps| && (forall i :: k <= i < j ==> !ps[i].state.UNUSED?) && (j < |ps| ==> ps[j].state.UNUSED?)
    decreases |ps| - k
  {
    if k == |ps| || ps[k].state.UNUSED? then k else FreeSlot(ps, k + 1)
  }

  predicate ZombieChild(q: Proc, p: nat) { q.parent == p && q.state.ZOMBIE? }

  /** The first zombie child of p at or after k, or |ps|. */
  function DeadChild(ps: seq<Proc>, p: nat, k: nat): (j: nat)
    requires k <= |ps|
    ensures k <= j <= |ps| && (forall i :: k <= i < j ==> !ZombieChild(ps[i], p))
    ensures (j < |ps| ==> ZombieChild(ps[j], p))
    decreases |ps| - k
  {
    if k == |ps| || ZombieChild(ps[k], p) then k else DeadChild(ps, p, k + 1)
  }

  predicate HasKids(ps: seq<Proc>, p: nat) { exists i :: 0 <= i < |ps| && ps[i].parent == p }

  function Adopted(q: Proc, p: nat, init: nat): Proc {
    if q.parent == p then q.(parent := init) else q
  }

  /** p's children handed to init, which is woken if one of them is a zombie. */
  function Orphaned(ps: seq<Proc>, p: nat, init: nat): (r: seq<Proc>)
    ensures |r| == |ps|
    ensures forall i :: 0 <= i < |ps| ==>
              r[i] == if DeadChild(ps, p, 0) < |ps| then Wakened(Adopted(ps[i], p, init), OnProc(init))
                else Adopted(ps[i], p, init)
  {
    var qs := seq(|ps|, i requires 0 <= i < |ps| => Adopted(ps[i], p, init));
    if DeadChild(ps, p, 0) < |ps| then WakeAll(qs, OnProc(init)) else qs
  }

  /** exit's critical section. */
  function Exited(ps: seq<Proc>, p: nat, init: nat): (r: seq<Proc>)
    requires p < |ps|
    ensures |r| == |ps|
  {
    var ws := if ps[p].parent >= 0 then WakeAll(ps, OnProc(ps[p].parent)) else ps;
    var qs := Orphaned(ws, p, init);
    qs[p := qs[p].(state := ZOMBIE)]
  }

  function Reaped(q: Proc): Proc {
    q.(pid := 0, parent := NOBODY, killed := false, state := UNUSED)
  }

  /** One turn of wait's loop. */
  function Waited(ps: seq<Proc>, p: nat): (r: seq<Proc>)
    requires p < |ps|
    ensures |r| == |ps|
  {
    var j := DeadChild(ps, p, 0);
    if j < |ps| then ps[j := Reaped(ps[j])]
    else if !HasKids(ps, p) || ps[p].killed then ps
    else ps[p := ps[p].(chan := OnProc(p), state := SLEEPING)]
  }

  /** The first slot at or after k with that pid, or |ps|. */
  function WithPid(ps: seq<Proc>, pid: nat, k: nat): (j: nat)
    requires k <= |ps|
    ensures k <= j <= |ps| && (j < |ps| ==> ps[j].pid == pid)
    decreases |ps| - k
  {
    if k == |ps| || ps[k].pid == pid then k else WithPid(ps, pid, k + 1)
  }

  function Killed(ps: seq<Proc>, pid: nat): (r: seq<Proc>)
    ensures |r| == |ps|
  {
    var j := WithPid(ps, pid, 0);
    if j == |ps| then ps
    else ps[j := ps[j].(killed := true, state := if ps[j].state.SLEEPING? then RUNNABLE else ps[j].state)]
  }

  function Niced(q: Proc, nice: nat, pid: nat): Proc {
    if !q.state.UNUSED? && q.pid == pid then q.(nice := nice) else q
  }

  function Reniced(ps: seq<Proc>, nice: int, pid: nat): (r: seq<Proc>)
    ensures |r| == |ps|
  {
    if nice < MIN_NICE || nice > MAX_NICE then ps
    else seq(|ps|, i requires 0 <= i < |ps| => Niced(ps[i], nice, pid))
  }

  // The state machine ----------------------------------------------------------------

  predicate Enabled(s: State, t: Step) {
    match t
    case AllocProc(p) => p < |s.ps| == |s.forks| && s.ps[p].state.RUNNING? && s.forks[p].NotForking?
    case InitNice(p) => p < |s.forks| && s.forks[p].Allocated? && s.forks[p].np < |s.ps|
    case FailFork(p) => p < |s.forks| && s.forks[p].Allocated? && s.forks[p].np < |s.ps|
    case SetParent(p) => p < |s.forks| && s.forks[p].Allocated? && s.forks[p].np < |s.ps|
    case Publish(p) => p < |s.forks| && s.forks[p].Parented? && s.forks[p].np < |s.ps|
      && 0 <= s.ps[s.forks[p].np].parent < |s.ps|
    case Exit(p) => p < |s.ps| == |s.forks| && s.ps[p].state.RUNNING? && s.forks[p].NotForking? && p != s.init
    case Wait(p) => p < |s.ps| == |s.forks| && s.ps[p].state.RUNNING? && s.forks[p].NotForking?
    case Sleep(p, addr) => p < |s.ps| && s.ps[p].state.RUNNING?
    case Wakeup(addr) => true
    case Kill(pid) => true
    case Schedule(p) => p < |s.ps| && s.ps[p].state.RUNNABLE?
    case Yield(p) => p < |s.ps| && s.ps[p].state.RUNNING?
    case Renice(nice, pid) => true
  }

  function Next(s: State, t: Step): State
    requires Enabled(s, t)
  {
    var ps := s.ps;
    match t
    case AllocProc(p) =>
      var j := FreeSlot(ps, 0);
      if j == |ps| then s
      else State(ps[j := ps[j].(state := EMBRYO, pid := s.nextpid)], s.nextpid + 1, s.init, s.forks[p := Allocated(j)])
    case InitNice(p) =>
      var j := s.forks[p].np;
      s.(ps := ps[j := ps[j].(nice := DEFAULT_NICE)])
    case FailFork(p) =>
      var j := s.forks[p].np;
      s.(ps := ps[j := ps[j].(state := UNUSED)], forks := s.forks[p := NotForking])
    case SetParent(p) =>
      var j := s.forks[p].np;
      s.(ps := ps[j := ps[j].(parent := p)], forks := s.forks[p := Parented(j)])
    case Publish(p) =>
      var j := s.forks[p].np;
      s.(ps := ps[j := ps[j].(state := RUNNABLE, nice := ps[ps[j].parent].nice)], forks := s.forks[p := NotForking])
    case Exit(p) => s.(ps := Exited(ps, p, s.init))
    case Wait(p) => s.(ps := Waited(ps, p))
    case Sleep(p, addr) => s.(ps := ps[p := ps[p].(chan := OnOther(addr), state := SLEEPING)])
    case Wakeup(addr) => s.(ps := WakeAll(ps, OnOther(addr)))
    case Kill(pid) => s.(ps := Killed(ps, pid))
    case Schedule(p) => s.(ps := ps[p := ps[p].(state := RUNNING, chan := NoChan)])
    case Yield(p) => s.(ps := ps[p := ps[p].(state := RUNNABLE)])
    case Renice(nice, pid) => s.(ps := Reniced(ps, nice, pid))
  }

  // The invariant ----------------------------------------------------------------------

  predicate Live(q: Proc) { !q.state.UNUSED? }

  /** Past fork and not yet exited. */
  predicate Up(q: Proc) { q.state.SLEEPING? || q.state.RUNNABLE? || q.state.RUNNING? }

  predicate Settled(q: Proc) { Up(q) || q.state.ZOMBIE? }

  /** Live processes have pids, and no pid is in two slots; a free slot may hold the pid of a
      fork that failed. */
  ghost predicate PidsOk(ps: seq<Proc>, nextpid: nat) {
    && (forall i :: 0 <= i < |ps| ==> ps[i].pid < nextpid && (Live(ps[i]) ==> ps[i].pid >= 1))
    && (forall i, j :: 0 <= i < j < |ps| && ps[i].pid == ps[j].pid ==> ps[i].pid == 0)
  }

  /** A parent is up and was created before its children. */
  ghost predicate ParentsUp(ps: seq<Proc>) {
    forall i, k :: 0 <= i < |ps| && 0 <= k < |ps| && ps[i].parent == k ==> Up(ps[k]) && ps[k].pid < ps[i].pid
  }

  ghost predicate TreeOk(ps: seq<Proc>, init: nat) {
    && init < |ps| && Up(ps[init]) && ps[init].pid == 1 && ps[init].parent == NOBODY
    && (forall i :: 0 <= i < |ps| ==> NOBODY <= ps[i].parent < |ps|)
    && (forall i :: 0 <= i < |ps| && !Live(ps[i]) ==> ps[i].parent == NOBODY)
    && (forall i :: 0 <= i < |ps| && i != init && Settled(ps[i]) ==> ps[i].parent != NOBODY)
    && ParentsUp(ps)
  }

  ghost predicate ForkOk(ps: seq<Proc>, p: nat, f: Forking)
    requires p < |ps|
  {
    !f.NotForking? ==>
      && Up(ps[p])
      && f.np < |ps| && ps[f.np].state.EMBRYO? && ps[p].pid < ps[f.np].pid
      && ps[f.np].parent == if f.Allocated? then NOBODY else p
  }

  ghost predicate ForksOk(ps: seq<Proc>, forks: seq<Forking>) {
    && |forks| == |ps|
    && (forall p {:trigger forks[p]} :: 0 <= p < |ps| ==> ForkOk(ps, p, forks[p]))
    && (forall p, q :: 0 <= p < q < |ps| && !forks[p].NotForking? && !forks[q].NotForking? ==>
            forks[p].np != forks[q].np)
    // an embryo's parent is the process filling it
    && (forall j, p :: 0 <= j < |ps| && 0 <= p < |ps| && ps[j].state.EMBRYO? && ps[j].parent == p ==>
            forks[p] == Parented(j))
  }

  /** Nobody sleeps in wait who has a zombie child to reap. */
  ghost predicate NoMissedExit(ps: seq<Proc>) {
    forall i, j :: 0 <= i < |ps| && 0 <= j < |ps| && ps[i].state.SLEEPING? && ps[i].chan == OnProc(i) ==>
      !ZombieChild(ps[j], i)
  }

  ghost predicate NiceOk(ps: seq<Proc>) {
    forall i :: 0 <= i < |ps| && Settled(ps[i]) ==> MIN_NICE <= ps[i].nice <= MAX_NICE
  }

  ghost predicate Inv(s: State) {
    PidsOk(s.ps, s.nextpid) && TreeOk(s.ps, s.init) && ForksOk(s.ps, s.forks) && NoMissedExit(s.ps) && NiceOk(s.ps)
  }

  // Steps that move processes between sleeping, runnable and running ------------------------

  /** The same processes in the same places of the tree. */
  ghost predicate SameTree(ps: seq<Proc>, qs: seq<Proc>) {
    |qs| == |ps| && forall i :: 0 <= i < |ps| ==>
      && qs[i].pid == ps[i].pid && qs[i].parent == ps[i].parent
      && (qs[i].state == ps[i].state || (Up(qs[i]) && Up(ps[i])))
  }

  lemma SameTreePids(ps: seq<Proc>, qs: seq<Proc>, nextpid: nat)
    requires SameTree(ps, qs) && PidsOk(ps, nextpid)
    ensures PidsOk(qs, nextpid)
  {
  }

  lemma SameTreeTree(ps: seq<Proc>, qs: seq<Proc>, init: nat)
    requires SameTree(ps, qs) && TreeOk(ps, init)
    ensures TreeOk(qs, init)
  {
  }

  lemma SameTreeForks(ps: seq<Proc>, qs: seq<Proc>, forks: seq<Forking>)
    requires SameTree(ps, qs) && ForksOk(ps, forks)
    ensures ForksOk(qs, forks)
  {
  }

  /** Whoever sleeps in wait slept there before. */
  ghost predicate NoNewWaiter(ps: seq<Proc>, qs: seq<Proc>) {
    |qs| == |ps| && forall i :: 0 <= i < |ps| && qs[i].state.SLEEPING? && qs[i].chan == OnProc(i) ==>
      ps[i].state.SLEEPING? && ps[i].chan == OnProc(i)
  }

  lemma NoNewWaiterKeeps(ps: seq<Proc>, qs: seq<Proc>)
    requires SameTree(ps, qs) && NoNewWaiter(ps, qs) && NoMissedExit(ps)
    ensures NoMissedExit(qs)
  {
  }

  lemma MovesKeep(s: State, qs: seq<Proc>)
    requires Inv(s) && SameTree(s.ps, qs) && NoNewWaiter(s.ps, qs)
    requires forall i :: 0 <= i < |qs| && Settled(qs[i]) ==>
               qs[i].nice == s.ps[i].nice || MIN_NICE <= qs[i].nice <= MAX_NICE
    ensures Inv(s.(ps := qs))
  {
    hide PidsOk, TreeOk, ForksOk, NoMissedExit;
    SameTreePids(s.ps, qs, s.nextpid);
    SameTreeTree(s.ps, qs, s.init);
    SameTreeForks(s.ps, qs, s.forks);
    NoNewWaiterKeeps(s.ps, qs);
  }

  predicate IsMove(t: Step) {
    t.Sleep? || t.Wakeup? || t.Kill? || t.Schedule? || t.Yield? || t.Renice?
  }

  lemma MoveKeeps(s: State, t: Step)
    requires Inv(s) && Enabled(s, t) && IsMove(t)
    ensures Inv(Next(s, t))
  {
    hide PidsOk, TreeOk, ForksOk, NoMissedExit, WithPid;
    MovesKeep(s, Next(s, t).ps);
  }

  lemma InitNiceKeeps(s: State, p: nat)
    requires Inv(s) && Enabled(s, InitNice(p))
    ensures Inv(Next(s, InitNice(p)))
  {
    hide PidsOk, TreeOk, NoMissedExit;
    MovesKeep(s, Next(s, InitNice(p)).ps);
  }

  // Fork -------------------------------------------------------------------------------

  /** A slot that takes the next pid, keeps its own or gives it up. */
  lemma PidsSlot(ps: seq<Proc>, nextpid: nat, j: nat, q: Proc, after: nat)
    requires PidsOk(ps, nextpid) && j < |ps| && 1 <= nextpid <= after && q.pid < after
    requires q.pid == nextpid || q.pid == ps[j].pid || q.pid == 0
    requires Live(q) ==> q.pid >= 1
    ensures PidsOk(ps[j := q], after)
  {
  }

  lemma AllocTree(ps: seq<Proc>, init: nat, j: nat, pid: nat)
    requires TreeOk(ps, init) && j < |ps| && !Live(ps[j])
    ensures TreeOk(ps[j := ps[j].(state := EMBRYO, pid := pid)], init)
  {
  }

  lemma AllocForks(ps: seq<Proc>, init: nat, forks: seq<Forking>, p: nat, j: nat, pid: nat)
    requires ForksOk(ps, forks) && TreeOk(ps, init) && j < |ps| && !Live(ps[j])
    requires p < |ps| && Up(ps[p]) && forks[p].NotForking? && ps[p].pid < pid
    ensures ForksOk(ps[j := ps[j].(state := EMBRYO, pid := pid)], forks[p := Allocated(j)])
  {
  }

  lemma AllocKeeps(s: State, p: nat)
    requires Inv(s) && Enabled(s, AllocProc(p))
    ensures Inv(Next(s, AllocProc(p)))
  {
    var ps, j := s.ps, FreeSlot(s.ps, 0);
    if j < |ps| {
      assert ps[p].pid < s.nextpid;
      hide PidsOk, TreeOk, ForksOk, FreeSlot;
      PidsSlot(ps, s.nextpid, j, ps[j].(state := EMBRYO, pid := s.nextpid), s.nextpid + 1);
      AllocTree(ps, s.init, j, s.nextpid);
      AllocForks(ps, s.init, s.forks, p, j, s.nextpid);
    }
  }

  lemma FailTree(ps: seq<Proc>, init: nat, j: nat)
    requires TreeOk(ps, init) && j < |ps| && ps[j].state.EMBRYO? && ps[j].parent == NOBODY
    ensures TreeOk(ps[j := ps[j].(state := UNUSED)], init)
  {
  }

  lemma FailForks(ps: seq<Proc>, forks: seq<Forking>, p: nat)
    requires ForksOk(ps, forks) && p < |ps| && forks[p].Allocated?
    ensures ForkOk(ps, p, forks[p])
    ensures ForksOk(ps[forks[p].np := ps[forks[p].np].(state := UNUSED)], forks[p := NotForking])
  {
  }

  lemma FailKeeps(s: State, p: nat)
    requires Inv(s) && Enabled(s, FailFork(p))
    ensures Inv(Next(s, FailFork(p)))
  {
    var ps, j := s.ps, s.forks[p].np;
    FailForks(ps, s.forks, p);
    hide TreeOk, ForksOk;
    PidsSlot(ps, s.nextpid, j, ps[j].(state := UNUSED), s.nextpid);
    hide PidsOk;
    FailTree(ps, s.init, j);
  }

  lemma SetParentTree(ps: seq<Proc>, init: nat, p: nat, j: nat)
    requires TreeOk(ps, init) && j < |ps| && ps[j].state.EMBRYO? && p < |ps| && Up(ps[p]) && ps[p].pid < ps[j].pid
    ensures TreeOk(ps[j := ps[j].(parent := p)], init)
  {
  }

  lemma SetParentForks(ps: seq<Proc>, forks: seq<Forking>, p: nat)
    requires ForksOk(ps, forks) && p < |ps| && forks[p].Allocated?
    ensures ForkOk(ps, p, forks[p])
    ensures var j := forks[p].np;
            ForksOk(ps[j := ps[j].(parent := p)], forks[p := Parented(j)])
  {
  }

  lemma SetParentKeeps(s: State, p: nat)
    requires Inv(s) && Enabled(s, SetParent(p))
    ensures Inv(Next(s, SetParent(p)))
  {
    var ps, j := s.ps, s.forks[p].np;
    SetParentForks(ps, s.forks, p);
    hide TreeOk, ForksOk;
    PidsSlot(ps, s.nextpid, j, ps[j].(parent := p), s.nextpid);
    hide PidsOk;
    SetParentTree(ps, s.init, p, j);
  }

  lemma PublishTree(ps: seq<Proc>, init: nat, j: nat, nice: nat)
    requires TreeOk(ps, init) && j < |ps| && ps[j].state.EMBRYO? && ps[j].parent != NOBODY
    ensures TreeOk(ps[j := ps[j].(state := RUNNABLE, nice := nice)], init)
  {
  }

  lemma PublishForks(ps: seq<Proc>, forks: seq<Forking>, p: nat, nice: nat)
    requires ForksOk(ps, forks) && p < |ps| && forks[p].Parented?
    ensures ForkOk(ps, p, forks[p])
    ensures var j := forks[p].np;
            ForksOk(ps[j := ps[j].(state := RUNNABLE, nice := nice)], forks[p := NotForking])
  {
  }

  /** The end of fork: the child is runnable, with the tickets of the process that forked it. */
  lemma PublishKeeps(s: State, p: nat)
    requires Inv(s) && Enabled(s, Publish(p))
    ensures Inv(Next(s, Publish(p)))
    ensures var q := Next(s, Publish(p)).ps[s.forks[p].np]; q.state.RUNNABLE? && q.nice == s.ps[p].nice && q.parent == p
  {
    var ps, j := s.ps, s.forks[p].np;
    var nice := ps[p].nice;
    PublishForks(ps, s.forks, p, nice);
    hide TreeOk, ForksOk;
    PidsSlot(ps, s.nextpid, j, ps[j].(state := RUNNABLE, nice := nice), s.nextpid);
    hide PidsOk;
    PublishTree(ps, s.init, j, nice);
  }

  // Wait -------------------------------------------------------------------------------

  lemma ReapTree(ps: seq<Proc>, init: nat, j: nat)
    requires TreeOk(ps, init) && j < |ps| && ps[j].state.ZOMBIE?
    ensures TreeOk(ps[j := Reaped(ps[j])], init)
  {
  }

  lemma ReapForks(ps: seq<Proc>, forks: seq<Forking>, j: nat)
    requires ForksOk(ps, forks) && j < |ps| && ps[j].state.ZOMBIE?
    ensures ForksOk(ps[j := Reaped(ps[j])], forks)
  {
  }

  lemma ReapKeeps(s: State, j: nat)
    requires Inv(s) && j < |s.ps| && s.ps[j].state.ZOMBIE?
    ensures Inv(s.(ps := s.ps[j := Reaped(s.ps[j])]))
  {
    var ps := s.ps;
    assert ps[j].pid < s.nextpid;
    hide PidsOk, TreeOk, ForksOk;
    PidsSlot(ps, s.nextpid, j, Reaped(ps[j]), s.nextpid);
    ReapTree(ps, s.init, j);
    ReapForks(ps, s.forks, j);
  }

  lemma WaitKeeps(s: State, p: nat)
    requires Inv(s) && Enabled(s, Wait(p))
    ensures Inv(Next(s, Wait(p)))
  {
    hide PidsOk, TreeOk, ForksOk, DeadChild;
    var ps, j := s.ps, DeadChild(s.ps, p, 0);
    if j < |ps| {
      ReapKeeps(s, j);
    } else {
      var qs := Waited(ps, p);
      SameTreePids(ps, qs, s.nextpid);
      SameTreeTree(ps, qs, s.init);
      SameTreeForks(ps, qs, s.forks);
    }
  }

  // Exit -------------------------------------------------------------------------------

  /** What exit does to slot i: its place in the tree, and whether it may still sleep in wait. */
  ghost predicate SlotAfterExit(ps: seq<Proc>, q: Proc, p: nat, init: nat, i: nat)
    requires p < |ps| && i < |ps|
  {
    && q.pid == ps[i].pid && q.nice == ps[i].nice
    && q.parent == (if ps[i].parent == p then init else ps[i].parent)
    && (if i == p then q.state.ZOMBIE? else q.state == ps[i].state || (Up(q) && Up(ps[i])))
    && (q.state.SLEEPING? && q.chan == OnProc(i) ==>
          && ps[i].state.SLEEPING? && ps[i].chan == OnProc(i) && i != ps[p].parent
          && (i == init ==> forall j :: 0 <= j < |ps| ==> !ZombieChild(ps[j], p)))
  }

  ghost predicate ExitShape(ps: seq<Proc>, qs: seq<Proc>, p: nat, init: nat) {
    p < |ps| == |qs| && forall i {:trigger qs[i]} :: 0 <= i < |ps| ==> SlotAfterExit(ps, qs[i], p, init, i)
  }

  lemma ExitSlot(ps: seq<Proc>, p: nat, init: nat, i: nat)
    requires p < |ps| && i < |ps|
    ensures SlotAfterExit(ps, Exited(ps, p, init)[i], p, init, i)
  {
    hide DeadChild, Orphaned, WakeAll;
    var ws := if ps[p].parent >= 0 then WakeAll(ps, OnProc(ps[p].parent)) else ps;
    assert forall j :: 0 <= j < |ps| ==> (ZombieChild(ws[j], p) <==> ZombieChild(ps[j], p));
  }

  lemma ExitHasShape(ps: seq<Proc>, p: nat, init: nat)
    requires p < |ps|
    ensures ExitShape(ps, Exited(ps, p, init), p, init)
  {
    hide SlotAfterExit, Exited;
    forall i | 0 <= i < |ps|
      ensures SlotAfterExit(ps, Exited(ps, p, init)[i], p, init, i)
    {
      ExitSlot(ps, p, init, i);
    }
  }

  lemma ExitPids(ps: seq<Proc>, qs: seq<Proc>, p: nat, init: nat, nextpid: nat)
    requires ExitShape(ps, qs, p, init) && PidsOk(ps, nextpid) && Up(ps[p])
    ensures PidsOk(qs, nextpid)
  {
  }

  lemma ExitTree(ps: seq<Proc>, qs: seq<Proc>, p: nat, init: nat, nextpid: nat)
    requires ExitShape(ps, qs, p, init) && TreeOk(ps, init) && PidsOk(ps, nextpid) && Up(ps[p]) && p != init
    ensures TreeOk(qs, init)
  {
  }

  lemma ExitForks(ps: seq<Proc>, qs: seq<Proc>, p: nat, init: nat, forks: seq<Forking>)
    requires ExitShape(ps, qs, p, init) && ForksOk(ps, forks) && Up(ps[p]) && forks[p].NotForking?
    ensures ForksOk(qs, forks)
  {
  }

  lemma ExitWakes(ps: seq<Proc>, qs: seq<Proc>, p: nat, init: nat)
    requires ExitShape(ps, qs, p, init) && NoMissedExit(ps) && ps[p].parent != p
    ensures NoMissedExit(qs)
  {
  }

  lemma ExitKeeps(s: State, p: nat)
    requires Inv(s) && Enabled(s, Exit(p))
    ensures Inv(Next(s, Exit(p)))
  {
    var ps, qs := s.ps, Exited(s.ps, p, s.init);
    assert ps[p].parent != p;
    hide PidsOk, TreeOk, ForksOk, NoMissedExit, Exited;
    ExitHasShape(ps, p, s.init);
    ExitPids(ps, qs, p, s.init, s.nextpid);
    ExitTree(ps, qs, p, s.init, s.nextpid);
    ExitForks(ps, qs, p, s.init, s.forks);
    ExitWakes(ps, qs, p, s.init);
  }

  // Runs -------------------------------------------------------------------------------

  lemma StepKeeps(s: State, t: Step)
    requires Inv(s) && Enabled(s, t)
    ensures Inv(Next(s, t))
  {
    hide Inv, Next;
    match t
    case AllocProc(p) => AllocKeeps(s, p);
    case InitNice(p) => InitNiceKeeps(s, p);
    case FailFork(p) => FailKeeps(s, p);
    case SetParent(p) => SetParentKeeps(s, p);
    case Publish(p) => PublishKeeps(s, p);
    case Exit(p) => ExitKeeps(s, p);
    case Wait(p) => WaitKeeps(s, p);
    case _ => MoveKeeps(s, t);
  }

  ghost predicate Legal(s: State, ts: seq<Step>)
    decreases ts
  {
    ts == [] || (Enabled(s, ts[0]) && Legal(Next(s, ts[0]), ts[1..]))
  }

  ghost function Run(s: State, ts: seq<Step>): State
    requires Legal(s, ts)
    decreases ts
  {
    if ts == [] then s else Run(Next(s, ts[0]), ts[1..])
  }

  /** After userinit: init in slot 0, runnable. */
  function Booted(nproc: nat): State
    requires nproc > 0
  {
    var free := Proc(UNUSED, 0, NOBODY, NoChan, false, 0);
    State(seq(nproc, _ => free)[0 := free.(state := RUNNABLE, pid := 1, nice := DEFAULT_NICE)], 2, 0,
      seq(nproc, _ => NotForking))
  }

  /** Whatever happens after boot, in whatever order: live pids are distinct, every parent is
      up and older than its children, no one sleeps in wait with a zombie child, and every
      process that can be scheduled holds between 1 and 100 tickets. */
  lemma {:induction false} RunKeeps(s: State, ts: seq<Step>)
    requires Inv(s) && Legal(s, ts)
    ensures Inv(Run(s, ts))
    decreases ts
  {
    hide Inv, Next, Enabled;
    if ts == [] {
    } else {
      StepKeeps(s, ts[0]);
      RunKeeps(Next(s, ts[0]), ts[1..]);
    }
  }

  lemma BootedTable(nproc: nat)
    requires nproc > 0
    ensures var s := Booted(nproc);
            && |s.ps| == |s.forks| == nproc && s.nextpid == 2 && s.init == 0
            && s.ps[0] == Proc(RUNNABLE, 1, NOBODY, NoChan, false, DEFAULT_NICE)
            && (forall i :: 0 < i < nproc ==> s.ps[i] == Proc(UNUSED, 0, NOBODY, NoChan, false, 0))
            && (forall i :: 0 <= i < nproc ==> s.forks[i] == NotForking)
  {
  }

  lemma BootedInv(nproc: nat)
    requires nproc > 0
    ensures Inv(Booted(nproc))
  {
    var s := Booted(nproc);
    BootedTable(nproc);
    hide Booted;
    assert PidsOk(s.ps, s.nextpid);
    assert TreeOk(s.ps, s.init);
    assert ForksOk(s.ps, s.forks);
  }

  /** The chain of parents of a settled process, up to the one without a parent. */
  ghost function Root(ps: seq<Proc>, i: nat): nat
    requires i < |ps| && ParentsUp(ps) && forall k :: 0 <= k < |ps| ==> NOBODY <= ps[k].parent < |ps|
    decreases ps[i].pid
  {
    if ps[i].parent == NOBODY then i else Root(ps, ps[i].parent)
  }

  /** The process tree is rooted at init. */
  lemma {:induction false} RootIsInit(ps: seq<Proc>, init: nat, i: nat)
    requires TreeOk(ps, init) && i < |ps| && Settled(ps[i])
    ensures Root(ps, i) == init
    decreases ps[i].pid
  {
    if ps[i].parent == NOBODY {
    } else {
      RootIsInit(ps, init, ps[i].parent);
    }
  }
}
