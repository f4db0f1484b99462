/** sh.c's parser as it advances through its buffer, and nulterminate. */
module Shell {
  import opened Lexer
  import opened Grammar
  import opened ParsePrint

  /** A finished command, or the panic that stopped the parser. */
  datatype Outcome = Done(cmd: Cmd<Span>) | Failed(why: Why)

  /** The method's outcome and position are what the grammar says of the tokens. */
  ghost predicate Agrees(s: string, o: Outcome, next: nat, r: Result) {
    match r
    case Ok(c, rest) => o == Done(c) && next <= |s| && Lex(s, next) == rest
    case Panic(why) => o == Failed(why)
  }

  method Parseredirs(cmd: Cmd<Span>, s: string, p: nat) returns (o: Outcome, next: nat)
    requires Text(s) && p <= |s|
    ensures Agrees(s, o, next, Redirs(cmd, Lex(s, p)))
  {
    hide Lex;
    var c := cmd;
    next := p;
    while true
      invariant next <= |s| && Redirs(cmd, Lex(s, p)) == Redirs(c, Lex(s, next))
      decreases |Lex(s, next)|
    {
      var more;
      more, next := Peek(s, next, REDIR);
      if !more {
        return Done(c), next;
      }
      var tok, _, _, afterTok := Gettoken(s, next);
      var kind, q, eq, afterFile := Gettoken(s, afterTok);
      if kind != 'a' {
        return Failed(MissingFile), next;
      }
      next := afterFile;
      if tok == '<' {
        c := Redir(c, Span(q, eq), false);
      } else if tok == '>' {
        c := Redir(c, Span(q, eq), true);
      } else if tok == '+' {
        c := Redir(c, Span(q, eq), true);
      }
    }
  }

  method Parseexec(s: string, p: nat) returns (o: Outcome, next: nat)
    requires Text(s) && p <= |s|
    ensures Agrees(s, o, next, Simple(Lex(s, p)))
    decreases |Lex(s, p)|, 1
  {
    hide Lex, Redirs, Args, Line;
    var block;
    block, next := Peek(s, p, {'('});
    if block {
      o, next := Parseblock(s, next);
      return;
    }
    o, next := Parseredirs(Exec([]), s, next);
    if o.Done? {
      o, next := Parseargs(o.cmd, s, next);
    }
  }

  /** The loop of parseexec. */
  method Parseargs(cmd: Cmd<Span>, s: string, p: nat) returns (o: Outcome, next: nat)
    requires Text(s) && p <= |s|
    ensures Agrees(s, o, next, Args(cmd, 0, Lex(s, p)))
  {
    hide Lex, Redirs, AddArg;
    var argc := 0;
    o, next := Done(cmd), p;
    while true
      invariant next <= |s| && o.Done? && Args(cmd, 0, Lex(s, p)) == Args(o.cmd, argc, Lex(s, next))
      decreases |Lex(s, next)|
    {
      var stop;
      stop, next := Peek(s, next, STOP);
      if stop {
        return;
      }
      var tok, q, eq, afterTok := Gettoken(s, next);
      if tok == '\0' {
        EndOnly(s, next, tok);
        return;
      }
      if tok != 'a' {
        return Failed(Syntax), next;
      }
      argc := argc + 1;
      if argc >= MAXARGS {
        return Failed(TooManyArgs), next;
      }
      o, next := Parseredirs(AddArg(o.cmd, Span(q, eq)), s, afterTok);
      if o.Failed? {
        return;
      }
    }
  }

  /** Only the end of the input has kind 0. */
  lemma EndOnly(s: string, p: nat, kind: char)
    requires Text(s) && p <= |s| && (Lex(s, p) != [] ==> Lex(s, p)[0].kind == kind) && kind == '\0'
    ensures Lex(s, p) == []
  {
  }

  method Parseblock(s: string, p: nat) returns (o: Outcome, next: nat)
    requires Text(s) && p <= |s| && Begins(Lex(s, p), {'('})
    ensures Agrees(s, o, next, Simple(Lex(s, p)))
    decreases |Lex(s, p)|, 0
  {
    var _, _, _, inside := Gettoken(s, p);
    o, next := Parseline(s, inside);
    if o.Failed? {
      return;
    }
    var closed;
    closed, next := Peek(s, next, {')'});
    if !closed {
      return Failed(MissingParen), next;
    }
    var _, _, _, after := Gettoken(s, next);
    o, next := Parseredirs(o.cmd, s, after);
  }

  method Parsepipe(s: string, p: nat) returns (o: Outcome, next: nat)
    requires Text(s) && p <= |s|
    ensures Agrees(s, o, next, PipeLine(Lex(s, p)))
    decreases |Lex(s, p)|, 2
  {
    o, next := Parseexec(s, p);
    if o.Failed? {
      return;
    }
    var more;
    more, next := Peek(s, next, {'|'});
    if more {
      var _, _, _, after := Gettoken(s, next);
      var right;
      right, next := Parsepipe(s, after);
      o := if right.Failed? then right else Done(Pipe(o.cmd, right.cmd));
    }
  }

  method Parseline(s: string, p: nat) returns (o: Outcome, next: nat)
    requires Text(s) && p <= |s|
    ensures Agrees(s, o, next, Line(Lex(s, p)))
    decreases |Lex(s, p)|, 3
  {
    o, next := Parsepipe(s, p);
    if o.Failed? {
      return;
    }
    var more;
    more, next := Peek(s, next, {'&'});
    while more
      invariant next <= |s| && o.Done? && PipeLine(Lex(s, p)).Ok?
      invariant Backs(PipeLine(Lex(s, p)).cmd, PipeLine(Lex(s, p)).rest) == Backs(o.cmd, Lex(s, next))
      invariant more <==> Begins(Lex(s, next), {'&'})
      invariant |Lex(s, next)| <= |Lex(s, p)|
      decreases |Lex(s, next)|
    {
      var _, _, _, after := Gettoken(s, next);
      o := Done(Back(o.cmd));
      more, next := Peek(s, after, {'&'});
    }
    more, next := Peek(s, next, {';'});
    if more {
      var _, _, _, after := Gettoken(s, next);
      var right;
      right, next := Parseline(s, after);
      o := if right.Failed? then right else Done(List(o.cmd, right.cmd));
    }
  }

  // nulterminate --------------------------------------------------------------------------------

  /** w is one of c's words. */
  predicate HasWord(c: Cmd<Span>, w: Span) {
    match c
    case Exec(args) => w in args
    case Redir(d, file, _) => w == file || HasWord(d, w)
    case Pipe(l, r) => HasWord(l, w) || HasWord(r, w)
    case List(l, r) => HasWord(l, w) || HasWord(r, w)
    case Back(d) => HasWord(d, w)
  }

  /** Some word of c ends at i. */
  ghost predicate EndsAt(c: Cmd<Span>, i: nat) { exists w :: HasWord(c, w) && w.eq == i }

  /** buf is s but for NULs where c's words end. */
  ghost predicate Ended(buf: seq<char>, s: seq<char>, c: Cmd<Span>) {
    && |buf| == |s|
    && forall i :: 0 <= i < |s| ==> buf[i] == if EndsAt(c, i) then '\0' else s[i]
  }

  method Nulterminate(buf: array<char>, c: Cmd<Span>)
    requires forall w :: HasWord(c, w) ==> w.eq < buf.Length
    modifies buf
    ensures Ended(buf[..], old(buf[..]), c)
    decreases c
  {
    match c
    case Exec(args) =>
      var i := 0;
      while i < |args|
        invariant 0 <= i <= |args|
        invariant forall k :: 0 <= k < buf.Length ==>
                    buf[k] == if exists j :: 0 <= j < i && args[j].eq == k then '\0' else old(buf[k])
      {
        assert HasWord(c, args[i]);
        buf[args[i].eq] := '\0';
        i := i + 1;
      }
      forall k | 0 <= k < buf.Length
        ensures EndsAt(c, k) <==> exists j :: 0 <= j < |args| && args[j].eq == k
      {
        if j :| 0 <= j < |args| && args[j].eq == k {
          assert HasWord(c, args[j]);
        }
      }
    case Redir(d, file, _) =>
      assert forall w :: HasWord(d, w) ==> HasWord(c, w);
      Nulterminate(buf, d);
      assert HasWord(c, file);
      buf[file.eq] := '\0';
      forall k | 0 <= k < buf.Length
        ensures EndsAt(c, k) <==> EndsAt(d, k) || k == file.eq
      {
      }
    case Pipe(l, r) => TerminateBoth(buf, c, l, r);
    case List(l, r) => TerminateBoth(buf, c, l, r);
    case Back(d) =>
      assert forall w :: HasWord(d, w) <==> HasWord(c, w);
      Nulterminate(buf, d);
      assert forall k :: EndsAt(c, k) <==> EndsAt(d, k);
  }

  method TerminateBoth(buf: array<char>, ghost c: Cmd<Span>, l: Cmd<Span>, r: Cmd<Span>)
    requires c == Pipe(l, r) || c == List(l, r)
    requires forall w :: HasWord(c, w) ==> w.eq < buf.Length
    modifies buf
    ensures Ended(buf[..], old(buf[..]), c)
    decreases c, 0
  {
    assert forall w :: HasWord(l, w) || HasWord(r, w) <==> HasWord(c, w);
    Nulterminate(buf, l);
    Nulterminate(buf, r);
    forall k | 0 <= k < buf.Length
      ensures EndsAt(c, k) <==> EndsAt(l, k) || EndsAt(r, k)
    {
    }
  }

  // parsecmd --------------------------------------------------------------------------------------

  /** The C string that starts at q. */
  function CString(buf: seq<char>, q: nat): string
    decreases |buf| - q
  {
    if q < |buf| && buf[q] != '\0' then [buf[q]] + CString(buf, q + 1) else ""
  }

  lemma {:induction false} CStringIs(buf: seq<char>, q: nat, eq: nat)
    requires q <= eq < |buf| && buf[eq] == '\0' && forall i :: q <= i < eq ==> buf[i] != '\0'
    ensures CString(buf, q) == buf[q..eq]
    decreases eq - q
  {
    if q >= eq {
    } else {
      CStringIs(buf, q + 1, eq);
    }
  }

  lemma {:induction false} SpannedWords(s: string, c: Cmd<Span>, w: Span)
    requires Spanned(s, c) && HasWord(c, w)
    ensures WordSpan(s, w)
  {
    match c
    case Exec(args) =>
    case Redir(d, file, _) =>
      if w != file {
        SpannedWords(s, d, w);
      }
    case Pipe(l, r) =>
      if HasWord(l, w) { SpannedWords(s, l, w); } else { SpannedWords(s, r, w); }
    case List(l, r) =>
      if HasWord(l, w) { SpannedWords(s, l, w); } else { SpannedWords(s, r, w); }
    case Back(d) =>
      SpannedWords(s, d, w);
  }

  /** No word ends inside another, so each keeps its bytes and reads as exactly its token. */
  lemma WordsExact(s: string, buf: seq<char>, c: Cmd<Span>, w: Span)
    requires Text(s) && Spanned(s, c) && Ended(buf, s + ['\0'], c) && HasWord(c, w)
    ensures w.q < w.eq <= |s| && buf[w.q..w.eq] == s[w.q..w.eq] && CString(buf, w.q) == s[w.q..w.eq]
  {
    SpannedWords(s, c, w);
    forall i | w.q <= i < w.eq
      ensures buf[i] == s[i]
    {
      if EndsAt(c, i) {
        var v :| HasWord(c, v) && v.eq == i;
        SpannedWords(s, c, v);
      }
    }
    assert EndsAt(c, w.eq);
    CStringIs(buf, w.q, w.eq);
  }

  /** parsecmd on a buffer that holds the C string s. */
  method Parsecmd(buf: array<char>, ghost s: string) returns (o: Outcome)
    requires Text(s) && buf[..] == s + ['\0']
    modifies buf
    ensures Parse(s).Panic? ==> o == Failed(Parse(s).why) && buf[..] == old(buf[..])
    ensures Parse(s).Ok? ==> o == Done(Parse(s).cmd) && Ended(buf[..], old(buf[..]), o.cmd)
    ensures o.Done? ==> forall w :: HasWord(o.cmd, w) ==> w.q < w.eq <= |s| && CString(buf[..], w.q) == s[w.q..w.eq]
  {
    var text := buf[..buf.Length - 1];
    assert text == s;
    var next;
    o, next := Parseline(text, 0);
    if o.Failed? {
      return;
    }
    var _, end := Peek(text, next, {});
    if end != |text| {
      Unfinished(text, end);
      return Failed(Leftovers);
    }
    LexGood(s);
    LineGood(s, Lex(s, 0));
    forall w | HasWord(o.cmd, w)
      ensures w.eq < buf.Length
    {
      SpannedWords(s, o.cmd, w);
    }
    Nulterminate(buf, o.cmd);
    forall w | HasWord(o.cmd, w)
      ensures w.q < w.eq <= |s| && CString(buf[..], w.q) == s[w.q..w.eq]
    {
      WordsExact(s, buf[..], o.cmd, w);
    }
  }

  lemma Unfinished(s: string, p: nat)
    requires p < |s| && !Space(s[p])
    ensures Lex(s, p) != []
  {
    SkipIs(s, p, p);
  }
}
