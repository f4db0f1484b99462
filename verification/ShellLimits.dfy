/** Two places where the shell's parser does less than its tokens promise. */
module ShellLimits {
  import opened Lexer
  import opened Grammar

  // Nine arguments -----------------------------------------------------------------------------

  /** The words before the simple command stops, not counting files of redirections. */
  function WordsAhead(ts: seq<Token>): nat
    decreases |ts|
  {
    if Begins(ts, REDIR) then
      if |ts| >= 2 && ts[1].kind == 'a' then WordsAhead(ts[2..]) else 0
    else if ts != [] && ts[0].kind == 'a' then 1 + WordsAhead(ts[1..])
    else 0
  }

  /** A word is neither a stop nor a redirection. */
  lemma WordBegins(ts: seq<Token>)
    requires ts != [] && ts[0].kind == 'a'
    ensures !Begins(ts, STOP) && !Begins(ts, REDIR)
  {
  }

  lemma {:induction false} RedirsAhead(c: Cmd<Span>, ts: seq<Token>)
    ensures Redirs(c, ts).Ok? ==> !Begins(Redirs(c, ts).rest, REDIR) && WordsAhead(Redirs(c, ts).rest) == WordsAhead(ts)
    ensures Redirs(c, ts).Panic? ==> Redirs(c, ts).why == MissingFile && WordsAhead(ts) == 0
    decreases |ts|
  {
    if !Begins(ts, REDIR) || |ts| < 2 || ts[1].kind != 'a' {
    } else {
      RedirsAhead(Redir(c, WordOf(ts[1]), ts[0].kind != '<'), ts[2..]);
    }
  }

  lemma {:induction false} ArgsIff(c: Cmd<Span>, argc: nat, ts: seq<Token>)
    requires !Begins(ts, REDIR) && argc < MAXARGS
    ensures Args(c, argc, ts) == Panic(TooManyArgs) <==> argc + WordsAhead(ts) >= MAXARGS
    decreases |ts|
  {
    if ts == [] || ts[0].kind != 'a' || argc + 1 >= MAXARGS {
    } else {
      WordBegins(ts);
      var d := AddArg(c, WordOf(ts[0]));
      RedirsAhead(d, ts[1..]);
      var r := Redirs(d, ts[1..]);
      if r.Ok? {
        ArgsIff(r.cmd, argc + 1, r.rest);
      }
    }
  }

  /** A simple command is refused for its arguments exactly when it has ten or more, wherever
      its redirections stand. */
  lemma TooManyArgsIff(ts: seq<Token>)
    requires !Begins(ts, {'('})
    ensures Simple(ts) == Panic(TooManyArgs) <==> WordsAhead(ts) >= MAXARGS
  {
    RedirsAhead(Exec([]), ts);
    var r := Redirs(Exec([]), ts);
    if r.Ok? {
      ArgsIff(r.cmd, 0, r.rest);
    }
  }

  // ">>" as ">" --------------------------------------------------------------------------------

  /** u is t, or both redirect output. */
  predicate Alike(t: Token, u: Token) { t == u || (t.kind == '+' && u.kind == '>') }

  predicate AllAlike(ts: seq<Token>, us: seq<Token>) {
    |ts| == |us| && forall i :: 0 <= i < |ts| ==> Alike(ts[i], us[i])
  }

  predicate SameResult(r: Result, q: Result) {
    if r.Panic? then q == r else q.Ok? && q.cmd == r.cmd && AllAlike(r.rest, q.rest)
  }

  lemma BeginsAlike(ts: seq<Token>, us: seq<Token>, toks: set<char>)
    requires AllAlike(ts, us) && '+' !in toks
    ensures Begins(ts, toks) == Begins(us, toks)
    ensures ts != [] ==>
              (ts[0].kind == 'a' <==> us[0].kind == 'a') && (ts[0].kind == 'a' ==> WordOf(ts[0]) == WordOf(us[0]))
    ensures ts != [] ==> (ts[0].kind == '<' <==> us[0].kind == '<')
  {
  }

  lemma TailsAlike(ts: seq<Token>, us: seq<Token>, k: nat)
    requires AllAlike(ts, us) && k <= |ts|
    ensures AllAlike(ts[k..], us[k..])
  {
  }

  lemma {:induction false} RedirsAlike(c: Cmd<Span>, ts: seq<Token>, us: seq<Token>)
    requires AllAlike(ts, us)
    ensures SameResult(Redirs(c, ts), Redirs(c, us))
    decreases |ts|
  {
    BeginsAlike(ts, us, REDIR);
    if !Begins(ts, REDIR) {
    } else if |ts| >= 2 {
      TailsAlike(ts, us, 1);
      BeginsAlike(ts[1..], us[1..], REDIR);
      TailsAlike(ts, us, 2);
      RedirsAlike(Redir(c, WordOf(ts[1]), ts[0].kind != '<'), ts[2..], us[2..]);
    }
  }

  lemma {:induction false} ArgsAlike(c: Cmd<Span>, argc: nat, ts: seq<Token>, us: seq<Token>)
    requires AllAlike(ts, us)
    ensures SameResult(Args(c, argc, ts), Args(c, argc, us))
    decreases |ts|
  {
    BeginsAlike(ts, us, STOP);
    if ts == [] || Begins(ts, STOP) || ts[0].kind != 'a' || argc + 1 >= MAXARGS {
    } else {
      TailsAlike(ts, us, 1);
      var d := AddArg(c, WordOf(ts[0]));
      RedirsAlike(d, ts[1..], us[1..]);
      var r, q := Redirs(d, ts[1..]), Redirs(d, us[1..]);
      if r.Ok? {
        ArgsAlike(r.cmd, argc + 1, r.rest, q.rest);
      }
    }
  }

  lemma {:induction false} SimpleAlike(ts: seq<Token>, us: seq<Token>)
    requires AllAlike(ts, us)
    ensures SameResult(Simple(ts), Simple(us))
    decreases |ts|, 1
  {
    BeginsAlike(ts, us, {'('});
    if Begins(ts, {'('}) {
      BlockAlike(ts, us);
    } else {
      RedirsAlike(Exec([]), ts, us);
      var r, q := Redirs(Exec([]), ts), Redirs(Exec([]), us);
      if r.Ok? {
        ArgsAlike(r.cmd, 0, r.rest, q.rest);
      }
    }
  }

  lemma {:induction false} BlockAlike(ts: seq<Token>, us: seq<Token>)
    requires AllAlike(ts, us) && Begins(ts, {'('}) && Begins(us, {'('})
    ensures SameResult(Block(ts), Block(us))
    decreases |ts|, 0
  {
    TailsAlike(ts, us, 1);
    LineAlike(ts[1..], us[1..]);
    var r, q := Line(ts[1..]), Line(us[1..]);
    if r.Ok? {
      BeginsAlike(r.rest, q.rest, {')'});
      if Begins(r.rest, {')'}) {
        TailsAlike(r.rest, q.rest, 1);
        RedirsAlike(r.cmd, r.rest[1..], q.rest[1..]);
      }
    }
  }

  lemma {:induction false} PipeAlike(ts: seq<Token>, us: seq<Token>)
    requires AllAlike(ts, us)
    ensures SameResult(PipeLine(ts), PipeLine(us))
    decreases |ts|, 2
  {
    SimpleAlike(ts, us);
    var r, q := Simple(ts), Simple(us);
    if r.Ok? {
      BeginsAlike(r.rest, q.rest, {'|'});
      if Begins(r.rest, {'|'}) {
        TailsAlike(r.rest, q.rest, 1);
        PipeAlike(r.rest[1..], q.rest[1..]);
      }
    }
  }

  lemma {:induction false} BacksAlike(c: Cmd<Span>, ts: seq<Token>, us: seq<Token>)
    requires AllAlike(ts, us)
    ensures SameResult(Backs(c, ts), Backs(c, us))
    decreases |ts|
  {
    BeginsAlike(ts, us, {'&'});
    if !Begins(ts, {'&'}) {
    } else {
      TailsAlike(ts, us, 1);
      BacksAlike(Back(c), ts[1..], us[1..]);
    }
  }

  lemma {:induction false} LineAlike(ts: seq<Token>, us: seq<Token>)
    requires AllAlike(ts, us)
    ensures SameResult(Line(ts), Line(us))
    decreases |ts|, 3
  {
    PipeAlike(ts, us);
    var p, o := PipeLine(ts), PipeLine(us);
    if p.Ok? {
      BacksAlike(p.cmd, p.rest, o.rest);
      var r, q := Backs(p.cmd, p.rest), Backs(o.cmd, o.rest);
      BeginsAlike(r.rest, q.rest, {';'});
      if Begins(r.rest, {';'}) {
        TailsAlike(r.rest, q.rest, 1);
        LineAlike(r.rest[1..], q.rest[1..]);
      }
    }
  }

  /** A text in which nothing but position p + 1 has changed, which now is blank. */
  predicate Blanked(s: string, s': string, p: nat) {
    p + 1 < |s| == |s'| && s[p] == '>' && s[p + 1] == '>' && s' == s[p + 1 := ' ']
  }

  lemma {:induction false} SkipBefore(s: string, s': string, p: nat, from: nat)
    requires Blanked(s, s', p) && from <= p
    ensures Skip(s, from) == Skip(s', from) <= p
    decreases p - from
  {
    if from == p || !Space(s[from]) {
    } else {
      SkipBefore(s, s', p, from + 1);
    }
  }

  lemma {:induction false} WordBefore(s: string, s': string, p: nat, from: nat)
    requires Blanked(s, s', p) && from <= p
    ensures WordEnd(s, from) == WordEnd(s', from) <= p
    decreases p - from
  {
    if from == p || Space(s[from]) || Symbol(s[from]) {
    } else {
      WordBefore(s, s', p, from + 1);
    }
  }

  lemma {:induction false} SkipAfter(s: string, s': string, p: nat, from: nat)
    requires Blanked(s, s', p) && p + 2 <= from <= |s|
    ensures Skip(s, from) == Skip(s', from) && WordEnd(s, from) == WordEnd(s', from)
    decreases |s| - from
  {
    if from == |s| {
    } else {
      SkipAfter(s, s', p, from + 1);
    }
  }

  lemma {:induction false} LexAfter(s: string, s': string, p: nat, from: nat)
    requires Blanked(s, s', p) && p + 2 <= from <= |s|
    ensures Lex(s, from) == Lex(s', from)
    decreases |s| - from
  {
    SkipAfter(s, s', p, from);
    var q := Skip(s, from);
    if q == |s| {
    } else {
      SkipAfter(s, s', p, q);
      LexAfter(s, s', p, TokenAt(s, q).eq);
    }
  }

  lemma LexHere(s: string, s': string, p: nat)
    requires Blanked(s, s', p)
    ensures AllAlike([Token('+', p, p + 2)] + Lex(s, p + 2), [Token('>', p, p + 1)] + Lex(s', p + 1))
  {
    LexAfter(s, s', p, p + 2);
    LexSkips(s', p + 1, p + 2);
  }

  lemma TokenBefore(s: string, s': string, p: nat, q: nat)
    requires Blanked(s, s', p) && q < p && !Space(s[q])
    ensures !Space(s'[q]) && TokenAt(s, q) == TokenAt(s', q)
  {
    assert s[q] == s'[q] && s[q + 1] == s'[q + 1];
    WordBefore(s, s', p, q);
  }

  lemma LexNext(s: string, from: nat, q: nat)
    requires from <= |s| && q == Skip(s, from) < |s|
    ensures Lex(s, from) == [TokenAt(s, q)] + Lex(s, TokenAt(s, q).eq)
  {
  }

  /** The tokens of both texts from a place before the change on. */
  lemma {:induction false} LexAlike(s: string, s': string, p: nat, from: nat)
    requires Blanked(s, s', p) && from <= p && Token('+', p, p + 2) in Lex(s, from)
    ensures AllAlike(Lex(s, from), Lex(s', from))
    decreases p - from
  {
    hide Lex, TokenAt, Skip, WordEnd;
    SkipBefore(s, s', p, from);
    var q := Skip(s, from);
    LexNext(s, from, q);
    LexNext(s', from, q);
    if q == p {
      HereToken(s, s', p);
      LexHere(s, s', p);
    } else {
      TokenBefore(s, s', p, q);
      var t := TokenAt(s, q);
      LexFrom(s, p, t.eq);
      LexAlike(s, s', p, t.eq);
    }
  }

  lemma HereToken(s: string, s': string, p: nat)
    requires Blanked(s, s', p)
    ensures TokenAt(s, p) == Token('+', p, p + 2) && TokenAt(s', p) == Token('>', p, p + 1)
  {
  }

  /** A token is found only from places up to its start. */
  lemma {:induction false} LexFrom(s: string, p: nat, from: nat)
    requires from <= |s|
    ensures Token('+', p, p + 2) in Lex(s, from) ==> from <= p
    decreases |s| - from
  {
    var q := Skip(s, from);
    if q == |s| {
    } else {
      LexFrom(s, p, TokenAt(s, q).eq);
    }
  }

  /** ">>" appends nothing: with any one of them replaced by ">" and a blank, a command line
      parses to the same tree, or fails for the same reason. */
  lemma AppendIsCreate(s: string, p: nat)
    requires p + 1 < |s| && s[p] == '>' && s[p + 1] == '>' && Token('+', p, p + 2) in Lex(s, 0)
    ensures var s' := s[p + 1 := ' '];
            Parse(s').Ok? == Parse(s).Ok? && (if Parse(s).Ok? then Parse(s').cmd == Parse(s).cmd
              else Parse(s') == Parse(s))
  {
    var s' := s[p + 1 := ' '];
    LexAlike(s, s', p, 0);
    LineAlike(Lex(s, 0), Lex(s', 0));
  }
}
