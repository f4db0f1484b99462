/** pipe.c: the ring buffer with its 32-bit counters, and readers and writers taking turns
    under p->lock. */
module Pipe {

  const PIPESIZE := 512
  const UINT := 0x1_0000_0000

  // The logical pipe --------------------------------------------------------------------------

  /** Every byte ever put in, and every byte ever taken out, in lock order. */
  datatype Chan = Chan(sent: seq<char>, got: seq<char>, readopen: bool, writeopen: bool)

  predicate Fits(c: Chan) { |c.got| <= |c.sent| <= |c.got| + PIPESIZE }

  function Room(c: Chan): nat
    requires Fits(c)
  {
    PIPESIZE - (|c.sent| - |c.got|)
  }

  function Least(a: nat, b: nat): nat { if a < b then a else b }

  datatype Outcome = Returns | Fails | Sleeps

  /** What one turn under p->lock does: the pipe after it, where the caller stands, and
      whether the other side was woken. */
  datatype Turn = Turn(chan: Chan, i: nat, outcome: Outcome, wakes: bool)

  /** pipewrite from byte i until it returns or sleeps. */
  function WriteTurn(c: Chan, src: seq<char>, i: nat, killed: bool): Turn
    requires Fits(c) && i <= |src|
  {
    var k := Least(|src| - i, Room(c));
    var t := c.(sent := c.sent + src[i..i + k]);
    if i + k == |src| then Turn(t, i + k, Returns, true)
    else if !c.readopen || killed then Turn(t, i + k, Fails, false)
    else Turn(t, i + k, Sleeps, true)
  }

  /** piperead of n bytes until it returns or sleeps; i is the number of bytes taken. */
  function ReadTurn(c: Chan, n: nat, killed: bool): Turn
    requires Fits(c)
  {
    if |c.sent| == |c.got| && c.writeopen then Turn(c, 0, if killed then Fails else Sleeps, false)
    else
      var k := Least(n, |c.sent| - |c.got|);
      Turn(c.(got := c.got + c.sent[|c.got|..|c.got| + k]), k, Returns, true)
  }

  // The ring ----------------------------------------------------------------------------------

  /** A counter kept in 32 bits. */
  function Wrap(k: nat): nat { k % UINT }

  function Slot(k: nat): nat
    ensures Slot(k) < PIPESIZE
  {
    k % PIPESIZE
  }

  class Ring {
    const data: array<char>
    var nread: nat
    var nwrite: nat
    var readopen: bool
    var writeopen: bool
    ghost var sent: seq<char>
    ghost var got: seq<char>

    ghost function Now(): Chan
      reads this
    {
      Chan(sent, got, readopen, writeopen)
    }

    /** The counters are the totals modulo 2^32, and the ring holds the bytes in between. */
    ghost predicate Valid()
      reads this, data
    {
      && data.Length == PIPESIZE
      && Fits(Now()) && got == sent[..|got|]
      && nread == Wrap(|got|) && nwrite == Wrap(|sent|)
      && forall k :: |got| <= k < |sent| ==> data[Slot(k)] == sent[k]
    }

    constructor ()
      ensures Valid() && Now() == Chan([], [], true, true) && fresh(data)
    {
      data := new char[PIPESIZE];
      nread, nwrite, readopen, writeopen := 0, 0, true, true;
      sent, got := [], [];
    }

    method Put(c: char)
      requires Valid() && Room(Now()) > 0
      modifies this`nwrite, this`sent, data
      ensures Valid() && sent == old(sent) + [c]
    {
      SlotIs(|sent|);
      Apart(|got|, |sent|);
      hide Wrap, Slot;
      data[Slot(nwrite)] := c;
      nwrite := Wrap(nwrite + 1);
      sent := sent + [c];
    }

    method Take() returns (c: char)
      requires Valid() && |got| < |sent|
      modifies this`nread, this`got
      ensures Valid() && got == old(got) + [c] && c == sent[|old(got)|]
    {
      SlotIs(|got|);
      hide Wrap, Slot;
      assert sent[..|got| + 1] == sent[..|got|] + [sent[|got|]];
      c := data[Slot(nread)];
      nread := Wrap(nread + 1);
      got := got + [c];
    }

    /** One turn of pipewrite. */
    method Pipewrite(addr: seq<char>, start: nat, killed: bool) returns (i: nat, outcome: Outcome, wakes: bool)
      requires Valid() && start <= |addr|
      modifies this`nwrite, this`sent, data
      ensures Valid()
      ensures Turn(Now(), i, outcome, wakes) == WriteTurn(old(Now()), addr, start, killed)
      ensures start <= i <= |addr| && sent == old(sent) + addr[start..i]
      ensures i == |addr| || |sent| == |got| + PIPESIZE
      ensures outcome == Returns <==> i == |addr|
      ensures outcome == Fails <==> i < |addr| && (!readopen || killed)
    {
      hide Wrap, Slot;
      i := start;
      while i < |addr|
        invariant start <= i <= |addr| && Valid() && i - start <= Room(old(Now()))
        invariant sent == old(sent) + addr[start..i]
      {
        FullIs(|sent|, |got|);
        if nwrite == Wrap(nread + PIPESIZE) {
          if !readopen || killed {
            return i, Fails, false;
          }
          return i, Sleeps, true;
        }
        Put(addr[i]);
        i := i + 1;
      }
      return i, Returns, true;
    }

    /** One turn of piperead; the bytes handed over are the next ones sent. */
    method Piperead(n: nat, killed: bool) returns (addr: seq<char>, outcome: Outcome, wakes: bool)
      requires Valid()
      modifies this`nread, this`got
      ensures Valid()
      ensures Turn(Now(), |addr|, outcome, wakes) == ReadTurn(old(Now()), n, killed)
      ensures got == old(got) + addr && got <= sent
      ensures outcome == Returns <==> |old(sent)| > |old(got)| || !writeopen
      ensures outcome == Returns ==> |addr| == n || got == sent
      ensures outcome == Fails <==> |old(sent)| == |old(got)| && writeopen && killed
      ensures |addr| <= n && (outcome != Returns ==> addr == [])
    {
      hide Wrap, Slot;
      addr := [];
      FullIs(|sent|, |got|);
      if nread == nwrite && writeopen {
        return [], if killed then Fails else Sleeps, false;
      }
      while |addr| < n
        invariant |addr| <= n && Valid() && got == old(got) + addr
      {
        FullIs(|sent|, |got|);
        if nread == nwrite {
          break;
        }
        var c := Take();
        addr := addr + [c];
      }
      return addr, Returns, true;
    }
  }

  /** The wrapped counters tell a full ring and an empty one exactly. */
  lemma FullIs(w: nat, r: nat)
    requires r <= w <= r + PIPESIZE
    ensures Wrap(w) == Wrap(Wrap(r) + PIPESIZE) <==> w == r + PIPESIZE
    ensures Wrap(r) == Wrap(w) <==> w == r
  {
  }

  /** 2^32 is a multiple of the ring's size, so wrapping keeps the slot. */
  lemma SlotIs(k: nat)
    ensures Slot(Wrap(k)) == Slot(k)
    ensures Wrap(Wrap(k) + 1) == Wrap(k + 1)
  {
    var q, r := k / UINT, k % UINT;
    assert k == PIPESIZE * (8388608 * q) + r;
    SlotAdd(8388608 * q, r);
    WrapNext(q, r);
  }

  lemma SlotAdd(a: nat, b: nat)
    ensures Slot(PIPESIZE * a + b) == Slot(b)
  {
  }

  lemma WrapNext(q: nat, r: nat)
    requires r < UINT
    ensures Wrap(UINT * q + r + 1) == Wrap(r + 1)
  {
  }

  /** Bytes in the ring sit in different slots. */
  lemma Apart(r: nat, w: nat)
    requires r <= w < r + PIPESIZE
    ensures forall k :: r <= k < w ==> Slot(k) != Slot(w)
  {
  }

  // Readers and writers taking turns -------------------------------------------------------------

  /** What a process is doing: outside; in a call and awake, about to take p->lock; or asleep,
      readers on nread and writers on nwrite. */
  datatype Proc =
    | Outside
    | Reading(n: nat, asleep: bool)
    | Writing(src: seq<char>, i: nat, asleep: bool)

  datatype State = State(chan: Chan, procs: seq<Proc>, killed: seq<bool>)

  predicate ReaderAsleep(p: Proc) { p.Reading? && p.asleep }

  predicate WriterAsleep(p: Proc) { p.Writing? && p.asleep }

  function Roused(ps: seq<Proc>, readers: bool, writers: bool): (r: seq<Proc>)
    ensures |r| == |ps|
  {
    seq(|ps|, k requires 0 <= k < |ps| =>
      if (readers && ReaderAsleep(ps[k])) || (writers && WriterAsleep(ps[k])) then ps[k].(asleep := false) else ps[k])
  }

  datatype Step =
    | StartRead(p: nat, n: nat)
    | StartWrite(p: nat, src: seq<char>)
    | Read(p: nat)                    // a turn of piperead under p->lock
    | Write(p: nat)                   // a turn of pipewrite
    | CloseRead                       // pipeclose(p, 0)
    | CloseWrite                      // pipeclose(p, 1)
    | Kill(p: nat)

  /** A file is closed by its last user, so never under somebody's call on that end. */
  predicate Enabled(s: State, e: Step) {
    && |s.killed| == |s.procs| && Fits(s.chan)
    && match e
       case StartRead(p, n) => p < |s.procs| && s.procs[p].Outside? && s.chan.readopen
       case StartWrite(p, src) => p < |s.procs| && s.procs[p].Outside? && s.chan.writeopen
       case Read(p) => p < |s.procs| && s.procs[p].Reading? && !s.procs[p].asleep
       case Write(p) => p < |s.procs| && s.procs[p].Writing? && !s.procs[p].asleep && s.procs[p].i <= |s.procs[p].src|
       case CloseRead => s.chan.readopen && forall q :: 0 <= q < |s.procs| ==> !s.procs[q].Reading?
       case CloseWrite => s.chan.writeopen && forall q :: 0 <= q < |s.procs| ==> !s.procs[q].Writing?
       case Kill(p) => p < |s.procs|
  }

  function After(s: State, e: Step): State
    requires Enabled(s, e)
  {
    match e
    case StartRead(p, n) => s.(procs := s.procs[p := Reading(n, false)])
    case StartWrite(p, src) => s.(procs := s.procs[p := Writing(src, 0, false)])
    case Read(p) =>
      var t := ReadTurn(s.chan, s.procs[p].n, s.killed[p]);
      var me := if t.outcome == Sleeps then Reading(s.procs[p].n, true) else Outside;
      s.(chan := t.chan, procs := Roused(s.procs, false, t.wakes)[p := me])
    case Write(p) =>
      var t := WriteTurn(s.chan, s.procs[p].src, s.procs[p].i, s.killed[p]);
      var me := if t.outcome == Sleeps then Writing(s.procs[p].src, t.i, true) else Outside;
      s.(chan := t.chan, procs := Roused(s.procs, t.wakes, false)[p := me])
    case CloseRead => s.(chan := s.chan.(readopen := false), procs := Roused(s.procs, false, true))
    case CloseWrite => s.(chan := s.chan.(writeopen := false), procs := Roused(s.procs, true, false))
    case Kill(p) =>
      s.(killed := s.killed[p := true],
         procs := s.procs[p := if s.procs[p].Outside? then Outside else s.procs[p].(asleep := false)])
  }

  // What holds in every run ----------------------------------------------------------------------

  ghost predicate Inv(s: State) {
    && |s.killed| == |s.procs| && Fits(s.chan) && s.chan.got == s.chan.sent[..|s.chan.got|]
    && (forall q :: 0 <= q < |s.procs| && s.procs[q].Writing? ==> s.procs[q].i <= |s.procs[q].src|)
    && (!s.chan.readopen ==> forall q :: 0 <= q < |s.procs| ==> !s.procs[q].Reading?)
    && (!s.chan.writeopen ==> forall q :: 0 <= q < |s.procs| ==> !s.procs[q].Writing?)
  }

  /** With p->lock free: no reader sleeps on a pipe with bytes or without writers, and no
      writer on one with room or without readers. */
  ghost predicate NobodyStranded(s: State) {
    && Fits(s.chan)
    && (forall q :: 0 <= q < |s.procs| && ReaderAsleep(s.procs[q]) ==>
            |s.chan.sent| == |s.chan.got| && s.chan.writeopen)
    && (forall q :: 0 <= q < |s.procs| && WriterAsleep(s.procs[q]) ==> Room(s.chan) == 0 && s.chan.readopen)
  }

  /** A killed writer with more than the pipe can hold, on an empty pipe with a reader asleep. */
  ghost predicate KilledMidway(s: State, e: Step)
    requires Enabled(s, e)
  {
    && e.Write? && s.killed[e.p] && |s.procs[e.p].src| - s.procs[e.p].i > PIPESIZE
    && exists q :: 0 <= q < |s.procs| && ReaderAsleep(s.procs[q])
  }

  lemma StepKeeps(s: State, e: Step)
    requires Inv(s) && Enabled(s, e)
    ensures Inv(After(s, e))
  {
  }

  lemma RousedIs(ps: seq<Proc>, readers: bool, writers: bool)
    ensures forall q :: 0 <= q < |ps| ==>
              && (ReaderAsleep(Roused(ps, readers, writers)[q]) <==> ReaderAsleep(ps[q]) && !readers)
              && (WriterAsleep(Roused(ps, readers, writers)[q]) <==> WriterAsleep(ps[q]) && !writers)
  {
  }

  lemma Strands(s: State, e: Step)
    requires Inv(s) && NobodyStranded(s) && Enabled(s, e) && KilledMidway(s, e)
    ensures !NobodyStranded(After(s, e))
  {
    var q :| 0 <= q < |s.procs| && ReaderAsleep(s.procs[q]);
    var t := WriteTurn(s.chan, s.procs[e.p].src, s.procs[e.p].i, s.killed[e.p]);
    assert t.outcome == Fails && !t.wakes && |t.chan.sent| == |s.chan.sent| + PIPESIZE;
    RousedIs(s.procs, false, false);
    assert ReaderAsleep(After(s, e).procs[q]);
  }

  lemma WriteStrandsNobody(s: State, e: Step)
    requires Inv(s) && NobodyStranded(s) && Enabled(s, e) && e.Write? && !KilledMidway(s, e)
    ensures NobodyStranded(After(s, e))
  {
    var t := WriteTurn(s.chan, s.procs[e.p].src, s.procs[e.p].i, s.killed[e.p]);
    RousedIs(s.procs, t.wakes, false);
    hide Roused;
  }

  lemma ReadStrandsNobody(s: State, e: Step)
    requires Inv(s) && NobodyStranded(s) && Enabled(s, e) && e.Read?
    ensures NobodyStranded(After(s, e))
  {
    RousedIs(s.procs, false, ReadTurn(s.chan, s.procs[e.p].n, s.killed[e.p]).wakes);
    hide Roused;
  }

  /** Exactly one kind of step strands anybody: pipewrite's early return, which wakes nobody. */
  lemma StrandsIff(s: State, e: Step)
    requires Inv(s) && NobodyStranded(s) && Enabled(s, e)
    ensures NobodyStranded(After(s, e)) <==> !KilledMidway(s, e)
  {
    if KilledMidway(s, e) {
      Strands(s, e);
    } else if e.Write? {
      WriteStrandsNobody(s, e);
    } else if e.Read? {
      ReadStrandsNobody(s, e);
    } else {
      RousedIs(s.procs, false, true);
      RousedIs(s.procs, true, false);
      hide Roused;
    }
  }

  ghost predicate Runs(s: State, es: seq<Step>)
    decreases |es|
  {
    es == [] || (Enabled(s, es[0]) && Runs(After(s, es[0]), es[1..]))
  }

  function Final(s: State, es: seq<Step>): State
    requires Runs(s, es)
    decreases |es|
  {
    if es == [] then s else Final(After(s, es[0]), es[1..])
  }

  function Opened(n: nat): State { State(Chan([], [], true, true), seq(n, _ => Outside), seq(n, _ => false)) }

  /** What a step hands to a reader. */
  function Delivered(s: State, e: Step): seq<char>
    requires Enabled(s, e)
  {
    if e.Read? then ReadTurn(s.chan, s.procs[e.p].n, s.killed[e.p]).chan.got[|s.chan.got|..] else []
  }

  /** What a step accepts from a writer. */
  function Accepted(s: State, e: Step): seq<char>
    requires Enabled(s, e)
  {
    if e.Write? then
      var t := WriteTurn(s.chan, s.procs[e.p].src, s.procs[e.p].i, s.killed[e.p]);
      s.procs[e.p].src[s.procs[e.p].i..t.i]
    else []
  }

  function AllDelivered(s: State, es: seq<Step>): seq<char>
    requires Runs(s, es)
    decreases |es|
  {
    if es == [] then [] else Delivered(s, es[0]) + AllDelivered(After(s, es[0]), es[1..])
  }

  function AllAccepted(s: State, es: seq<Step>): seq<char>
    requires Runs(s, es)
    decreases |es|
  {
    if es == [] then [] else Accepted(s, es[0]) + AllAccepted(After(s, es[0]), es[1..])
  }

  lemma StepMoves(s: State, e: Step)
    requires Inv(s) && Enabled(s, e)
    ensures After(s, e).chan.got == s.chan.got + Delivered(s, e)
    ensures After(s, e).chan.sent == s.chan.sent + Accepted(s, e)
  {
  }

  lemma Concat(a: seq<char>, b: seq<char>, c: seq<char>)
    ensures (a + b) + c == a + (b + c)
  {
  }

  lemma {:induction false} RunMoves(s: State, es: seq<Step>)
    requires Inv(s) && Runs(s, es)
    ensures Inv(Final(s, es))
    ensures Final(s, es).chan.got == s.chan.got + AllDelivered(s, es)
    ensures Final(s, es).chan.sent == s.chan.sent + AllAccepted(s, es)
    decreases |es|
  {
    hide Inv, Enabled, After, Delivered, Accepted;
    if es == [] {
    } else {
      var t := After(s, es[0]);
      StepKeeps(s, es[0]);
      StepMoves(s, es[0]);
      RunMoves(t, es[1..]);
      Concat(s.chan.got, Delivered(s, es[0]), AllDelivered(t, es[1..]));
      Concat(s.chan.sent, Accepted(s, es[0]), AllAccepted(t, es[1..]));
    }
  }

  /** First in, first out: in every interleaving of any readers and writers, with closes and
      kills, what readers were handed is a prefix of what writers had accepted, at most 512
      bytes behind. */
  lemma Fifo(n: nat, es: seq<Step>)
    requires Runs(Opened(n), es)
    ensures AllDelivered(Opened(n), es) <= AllAccepted(Opened(n), es)
    ensures |AllAccepted(Opened(n), es)| <= |AllDelivered(Opened(n), es)| + PIPESIZE
  {
    var s := Opened(n);
    RunMoves(s, es);
    assert s.chan.got == [] && s.chan.sent == [];
    hide Enabled, After, AllDelivered, AllAccepted, Final;
    assert s.chan.got + AllDelivered(s, es) == AllDelivered(s, es);
    assert s.chan.sent + AllAccepted(s, es) == AllAccepted(s, es);
  }

  // Whole calls -----------------------------------------------------------------------------------

  /** A read that returns hands over as many bytes as were asked for, or all there are. */
  lemma ReadHandsOver(s: State, p: nat)
    requires Inv(s) && Enabled(s, Read(p))
    ensures var c, n, t := s.chan, s.procs[p].n, After(s, Read(p));
            && (t.procs[p].Outside? <==> |c.sent| > |c.got| || !c.writeopen || s.killed[p])
            && (|c.sent| > |c.got| || !c.writeopen ==>
                  |Delivered(s, Read(p))| == Least(n, |c.sent| - |c.got|))
            && (|Delivered(s, Read(p))| == n || t.chan.got == t.chan.sent)
  {
  }

  /** End of file is the end: a read of some bytes that returns none, in a process that is not
      killed, finds the writers gone and every byte they put in delivered. */
  lemma EofIsDrained(n: nat, es: seq<Step>, p: nat)
    requires Runs(Opened(n), es) && Enabled(Final(Opened(n), es), Read(p))
    requires var s := Final(Opened(n), es);
             && s.procs[p].n > 0 && |s.killed| > p && !s.killed[p]
             && Delivered(s, Read(p)) == [] && After(s, Read(p)).procs[p].Outside?
    ensures !Final(Opened(n), es).chan.writeopen && AllDelivered(Opened(n), es) == AllAccepted(Opened(n), es)
  {
    hide After, Delivered, AllDelivered, AllAccepted, Final;
    var s := Final(Opened(n), es);
    RunMoves(Opened(n), es);
    ReadHandsOver(s, p);
    assert Opened(n).chan.got == [] && Opened(n).chan.sent == [];
    assert [] + AllDelivered(Opened(n), es) == AllDelivered(Opened(n), es);
    assert [] + AllAccepted(Opened(n), es) == AllAccepted(Opened(n), es);
  }

  /** Once the writers are gone nothing more is accepted. */
  lemma {:induction false} ClosedAcceptsNothing(s: State, es: seq<Step>)
    requires Inv(s) && Runs(s, es) && !s.chan.writeopen
    ensures AllAccepted(s, es) == [] && !Final(s, es).chan.writeopen
    decreases |es|
  {
    if es == [] {
    } else {
      StepKeeps(s, es[0]);
      ClosedAcceptsNothing(After(s, es[0]), es[1..]);
    }
  }

  /** The bytes that turns of process p accept from its caller, and hand to its caller. */
  function TakenFrom(s: State, es: seq<Step>, p: nat): seq<char>
    requires Runs(s, es)
    decreases |es|
  {
    if es == [] then []
    else (if es[0] == Write(p) then Accepted(s, es[0]) else []) + TakenFrom(After(s, es[0]), es[1..], p)
  }

  function GivenTo(s: State, es: seq<Step>, p: nat): seq<char>
    requires Runs(s, es)
    decreases |es|
  {
    if es == [] then []
    else (if es[0] == Read(p) then Delivered(s, es[0]) else []) + GivenTo(After(s, es[0]), es[1..], p)
  }

  /** Process p makes no new call. */
  predicate SameCall(es: seq<Step>, p: nat) {
    forall k :: 0 <= k < |es| ==> !((es[k].StartRead? || es[k].StartWrite?) && es[k].p == p)
  }

  lemma {:induction false} CallEnds(s: State, es: seq<Step>, p: nat)
    requires Inv(s) && Runs(s, es) && p < |s.procs| && s.procs[p].Outside? && SameCall(es, p)
    ensures |Final(s, es).procs| == |s.procs| && Final(s, es).procs[p].Outside?
    ensures TakenFrom(s, es, p) == [] && GivenTo(s, es, p) == []
    decreases |es|
  {
    if es == [] {
    } else {
      StepKeeps(s, es[0]);
      SameCallTail(es, p);
      CallEnds(After(s, es[0]), es[1..], p);
    }
  }

  lemma SameCallTail(es: seq<Step>, p: nat)
    requires SameCall(es, p) && es != []
    ensures SameCall(es[1..], p) && !((es[0].StartRead? || es[0].StartWrite?) && es[0].p == p)
  {
  }

  /** The reasons for a call on one end to give up do not go away. */
  lemma {:induction false} ReasonsStay(s: State, es: seq<Step>, p: nat)
    requires Inv(s) && Runs(s, es) && p < |s.procs|
    ensures |Final(s, es).killed| == |s.killed|
    ensures s.killed[p] ==> Final(s, es).killed[p]
    ensures !s.chan.readopen ==> !Final(s, es).chan.readopen
    ensures !s.chan.writeopen ==> !Final(s, es).chan.writeopen
    decreases |es|
  {
    if es == [] {
    } else {
      StepKeeps(s, es[0]);
      ReasonsStay(After(s, es[0]), es[1..], p);
    }
  }

  /** One step of a write that has got to byte i: it has taken the bytes up to where it stands, and
      is over only with all of them taken, or killed, or without readers. */
  lemma WriteStep(s: State, e: Step, p: nat)
    requires Inv(s) && Enabled(s, e) && p < |s.procs| && s.procs[p].Writing? && SameCall([e], p)
    ensures var q, t := s.procs[p], After(s, e);
            var took := if e == Write(p) then Accepted(s, e) else [];
            && |t.procs| == |s.procs| && |t.killed| == |s.killed| && q.src[..q.i] + took <= q.src
            && (t.procs[p].Writing? || t.procs[p].Outside?)
            && (t.procs[p].Writing? ==> t.procs[p].src == q.src && q.src[..q.i] + took == q.src[..t.procs[p].i])
            && (t.procs[p].Outside? ==> q.src[..q.i] + took == q.src || t.killed[p] || !t.chan.readopen)
  {
    assert [e][0] == e;
  }

  /** Over any run, whoever else reads and writes: a write takes the bytes of its caller in order,
      and when it is over has taken all of them, unless it was killed or the readers are gone. */
  lemma {:induction false} WriteIsWhole(s: State, es: seq<Step>, p: nat)
    requires Inv(s) && Runs(s, es) && p < |s.procs| && s.procs[p].Writing? && SameCall(es, p)
    ensures var q, f := s.procs[p], Final(s, es);
            var took := q.src[..q.i] + TakenFrom(s, es, p);
            && |f.procs| == |f.killed| == |s.procs| && took <= q.src
            && (f.procs[p].Writing? ==>
                  f.procs[p].src == q.src && f.procs[p].i <= |q.src| && took == q.src[..f.procs[p].i])
            && (!f.procs[p].Writing? ==> f.procs[p].Outside? && (took == q.src || f.killed[p] || !f.chan.readopen))
    decreases |es|
  {
    hide After, Accepted;
    if es == [] {
    } else {
      var e, t, rest := es[0], After(s, es[0]), es[1..];
      StepKeeps(s, e);
      SameCallTail(es, p);
      WriteStep(s, e, p);
      var q, took := s.procs[p], if e == Write(p) then Accepted(s, e) else [];
      Concat(q.src[..q.i], took, TakenFrom(t, rest, p));
      if t.procs[p].Writing? {
        WriteIsWhole(t, rest, p);
      } else {
        CallEnds(t, rest, p);
        ReasonsStay(t, rest, p);
      }
    }
  }

  lemma ReadStep(s: State, e: Step, p: nat)
    requires Inv(s) && Enabled(s, e) && p < |s.procs| && s.procs[p].Reading? && SameCall([e], p)
    ensures var n, t := s.procs[p].n, After(s, e);
            var gave := if e == Read(p) then Delivered(s, e) else [];
            && |t.procs| == |s.procs| && |t.killed| == |s.killed| && |gave| <= n
            && (t.procs[p].Reading? || t.procs[p].Outside?)
            && (t.procs[p].Reading? ==> t.procs[p].n == n && gave == [])
            && (t.procs[p].Outside? && n > 0 && gave == [] ==> t.killed[p] || !t.chan.writeopen)
  {
    assert [e][0] == e;
  }

  /** And a read is over with at most the bytes asked for, and with at least one, unless it was
      killed or the writers are gone. */
  lemma {:induction false} ReadIsWhole(s: State, es: seq<Step>, p: nat)
    requires Inv(s) && Runs(s, es) && p < |s.procs| && s.procs[p].Reading? && SameCall(es, p)
    ensures var n, f := s.procs[p].n, Final(s, es);
            var gave := GivenTo(s, es, p);
            && |f.procs| == |f.killed| == |s.procs| && |gave| <= n
            && (f.procs[p].Reading? ==> f.procs[p].n == n && gave == [])
            && (!f.procs[p].Reading? ==> f.procs[p].Outside?)
            && (f.procs[p].Outside? && n > 0 && gave == [] ==> f.killed[p] || !f.chan.writeopen)
    decreases |es|
  {
    hide After, Delivered;
    if es == [] {
    } else {
      var e, t, rest := es[0], After(s, es[0]), es[1..];
      StepKeeps(s, e);
      SameCallTail(es, p);
      ReadStep(s, e, p);
      if t.procs[p].Reading? {
        ReadIsWhole(t, rest, p);
      } else {
        CallEnds(t, rest, p);
        ReasonsStay(t, rest, p);
      }
    }
  }

  /** Nobody who has been killed sleeps in a call. */
  ghost predicate KilledAwake(s: State) {
    forall q :: 0 <= q < |s.procs| && q < |s.killed| && s.killed[q] ==>
      !ReaderAsleep(s.procs[q]) && !WriterAsleep(s.procs[q])
  }

  lemma StepKilledAwake(s: State, e: Step)
    requires Inv(s) && KilledAwake(s) && Enabled(s, e)
    ensures KilledAwake(After(s, e))
  {
    if e.Read? {
      RousedIs(s.procs, false, ReadTurn(s.chan, s.procs[e.p].n, s.killed[e.p]).wakes);
    } else if e.Write? {
      RousedIs(s.procs, WriteTurn(s.chan, s.procs[e.p].src, s.procs[e.p].i, s.killed[e.p]).wakes, false);
    } else {
      RousedIs(s.procs, false, true);
      RousedIs(s.procs, true, false);
    }
  }

  /** A kill gets a process out of its call: in every run whoever has been killed is awake, and its
      next turn, if it does not return, fails. */
  lemma {:induction false} KillsGetOut(s: State, es: seq<Step>)
    requires Inv(s) && KilledAwake(s) && Runs(s, es)
    ensures KilledAwake(Final(s, es))
    decreases |es|
  {
    hide Inv, KilledAwake, Enabled, After;
    if es == [] {
    } else {
      StepKeeps(s, es[0]);
      StepKilledAwake(s, es[0]);
      KillsGetOut(After(s, es[0]), es[1..]);
    }
  }

  /** Does the run meet pipewrite's early return by a killed writer? */
  ghost predicate EverKilledMidway(s: State, es: seq<Step>)
    requires Runs(s, es)
    decreases |es|
  {
    es != [] && (KilledMidway(s, es[0]) || EverKilledMidway(After(s, es[0]), es[1..]))
  }

  /** Without it, nobody is ever stranded. */
  lemma {:induction false} NeverStranded(s: State, es: seq<Step>)
    requires Inv(s) && NobodyStranded(s) && Runs(s, es) && !EverKilledMidway(s, es)
    ensures NobodyStranded(Final(s, es))
    decreases |es|
  {
    if es == [] {
    } else {
      StepKeeps(s, es[0]);
      StrandsIff(s, es[0]);
      hide Inv, Enabled, After, NobodyStranded, KilledMidway;
      NeverStranded(After(s, es[0]), es[1..]);
    }
  }

  /** A run without kills never does. */
  lemma {:induction false} NoKillsNoStrand(s: State, es: seq<Step>)
    requires Inv(s) && Runs(s, es)
    requires forall q :: 0 <= q < |s.killed| ==> !s.killed[q]
    requires forall k :: 0 <= k < |es| ==> !es[k].Kill?
    ensures !EverKilledMidway(s, es)
    decreases |es|
  {
    if es == [] {
    } else {
      StepKeeps(s, es[0]);
      assert After(s, es[0]).killed == s.killed;
      assert !KilledMidway(s, es[0]);
      hide Inv, Enabled, After, KilledMidway;
      NoKillsNoStrand(After(s, es[0]), es[1..]);
    }
  }

  function KilledRun(src: seq<char>): seq<Step> {
    [StartRead(0, 1), Read(0), StartWrite(1, src), Kill(1), Write(1)]
  }

  /** Such a run exists: a reader waits, and a writer of more than 512 bytes is killed before
      its turn; the reader is left asleep on a full pipe. */
  lemma KilledWriterStrandsReader(src: seq<char>)
    requires |src| > PIPESIZE
    ensures Runs(Opened(2), KilledRun(src)) && !NobodyStranded(Final(Opened(2), KilledRun(src)))
  {
    var es := KilledRun(src);
    var s1 := After(Opened(2), es[0]);
    var s2 := After(s1, es[1]);
    assert s2.procs == [Reading(1, true), Outside];
    var s3 := After(s2, es[2]);
    var s4 := After(s3, es[3]);
    assert s4.procs == [Reading(1, true), Writing(src, 0, false)] && s4.killed == [false, true];
    assert ReaderAsleep(s4.procs[0]) && KilledMidway(s4, es[4]);
    StrandsIff(s4, es[4]);
    hide After;
    var s5 := After(s4, es[4]);
    assert es[1..][0] == es[1] && es[2..][0] == es[2] && es[3..][0] == es[3] && es[4..][0] == es[4] && es[5..] == [];
    assert es[1..][1..] == es[2..] && es[2..][1..] == es[3..] && es[3..][1..] == es[4..] && es[4..][1..] == es[5..];
    assert Runs(s5, es[5..]) && Final(s5, es[5..]) == s5;
    assert Runs(s4, es[4..]) && Final(s4, es[4..]) == s5;
    assert Runs(s3, es[3..]) && Final(s3, es[3..]) == s5;
    assert Runs(s2, es[2..]) && Final(s2, es[2..]) == s5;
    assert Runs(s1, es[1..]) && Final(s1, es[1..]) == s5;
  }
}
