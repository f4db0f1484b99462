/** The shell's language said without a parser: what it means for a text to consist of these tokens,
    and for tokens to be a command line with this tree. parsecmd accepts just that. */
module Derivations {
  import opened Lexer
  import opened Grammar
  import opened CommandLine

  // Tokens ------------------------------------------------------------------------------------------

  predicate IsBlank(c: char) { c == ' ' || c == '\t' || c == '\r' || c == '\n' || c as int == 11 }

  predicate IsOperator(c: char) { c in "<|>&;()" }

  predicate Blank(s: string, p: nat, q: nat) { p <= q <= |s| && forall i :: p <= i < q ==> IsBlank(s[i]) }

  /** A word as long as it can be, ">>", or a symbol; a ">" is not the first half of ">>". */
  predicate IsToken(s: string, t: Token) {
    && t.q < t.eq <= |s|
    && if t.kind == 'a' then
         && (forall i :: t.q <= i < t.eq ==> !IsBlank(s[i]) && !IsOperator(s[i]))
         && (t.eq < |s| ==> IsBlank(s[t.eq]) || IsOperator(s[t.eq]))
       else if t.kind == '+' then t.eq == t.q + 2 && s[t.q] == '>' && s[t.q + 1] == '>'
       else
         && t.eq == t.q + 1 && IsOperator(t.kind) && s[t.q] == t.kind
         && (t.kind == '>' && t.eq < |s| ==> s[t.eq] != '>')
  }

  /** From p on the text is these tokens, with blanks before, between and after them. */
  predicate Tokenizes(s: string, p: nat, ts: seq<Token>)
    decreases |ts|
  {
    if ts == [] then Blank(s, p, |s|)
    else Blank(s, p, ts[0].q) && IsToken(s, ts[0]) && Tokenizes(s, ts[0].eq, ts[1..])
  }

  lemma TokenIff(s: string, t: Token)
    requires Text(s) && t.q < |s| && !Space(s[t.q])
    ensures t == TokenAt(s, t.q) <==> IsToken(s, t)
  {
    if IsToken(s, t) && t.kind == 'a' {
      WordEndIs(s, t.q, t.eq);
    }
  }

  /** A text has exactly one such reading, and gettoken finds it. */
  lemma {:induction false} LexIff(s: string, p: nat, ts: seq<Token>)
    requires Text(s) && p <= |s|
    ensures ts == Lex(s, p) <==> Tokenizes(s, p, ts)
    decreases |s| - p
  {
    var q := Skip(s, p);
    if ts == [] {
      if Blank(s, p, |s|) {
        SkipIs(s, p, |s|);
      }
    } else {
      if Blank(s, p, ts[0].q) && IsToken(s, ts[0]) {
        SkipIs(s, p, ts[0].q);
      }
      if q < |s| && ts[0].q == q {
        TokenIff(s, ts[0]);
        if ts[0] == TokenAt(s, q) {
          LexIff(s, ts[0].eq, ts[1..]);
          assert ts == [ts[0]] + ts[1..];
        }
      }
    }
  }

  // Trees -------------------------------------------------------------------------------------------

  /** c with these redirections around it, the first innermost. */
  function Wrapped<W>(c: Cmd<W>, fs: seq<(W, bool)>): Cmd<W>
    decreases |fs|
  {
    if fs == [] then c else Redir(Wrapped(c, fs[..|fs| - 1]), fs[|fs| - 1].0, fs[|fs| - 1].1)
  }

  /** Words and redirections in any order: fewer than ten words. */
  predicate IsCommand(ts: seq<Token>, c: Cmd<Span>) {
    && !Begins(ts, {'('}) && Beyond(ts) == [] && |ArgWords(ts)| < MAXARGS
    && c == Wrapped(Exec(ArgWords(ts)), FileWords(ts))
  }

  predicate OnlyRedirections(ts: seq<Token>) { Beyond(ts) == [] && ArgWords(ts) == [] }

  /** A line in parentheses, then redirections. */
  ghost predicate IsBlock(ts: seq<Token>, c: Cmd<Span>)
    decreases |ts|, 0
  {
    exists k: nat, line :: BlockAt(ts, c, k, line)
  }

  ghost predicate BlockAt(ts: seq<Token>, c: Cmd<Span>, k: nat, line: Cmd<Span>)
    decreases |ts|, 0, 0
  {
    && 0 < k < |ts| && ts[0].kind == '(' && ts[k].kind == ')'
    && IsLine(ts[1..k], line) && OnlyRedirections(ts[k + 1..]) && c == Wrapped(line, FileWords(ts[k + 1..]))
  }

  ghost predicate IsAtom(ts: seq<Token>, c: Cmd<Span>)
    decreases |ts|, 1
  {
    IsCommand(ts, c) || IsBlock(ts, c)
  }

  /** Commands and blocks with "|" between them, grouped to the right. */
  ghost predicate IsPipe(ts: seq<Token>, c: Cmd<Span>)
    decreases |ts|, 2
  {
    IsAtom(ts, c) || exists k: nat :: PipeAt(ts, c, k)
  }

  ghost predicate PipeAt(ts: seq<Token>, c: Cmd<Span>, k: nat)
    decreases |ts|, 2, 0
  {
    c.Pipe? && k < |ts| && ts[k].kind == '|' && IsAtom(ts[..k], c.left) && IsPipe(ts[k + 1..], c.right)
  }

  /** A pipeline, then any number of "&". */
  ghost predicate IsBack(ts: seq<Token>, c: Cmd<Span>)
    decreases |ts|, 3
  {
    || IsPipe(ts, c)
    || (c.Back? && ts != [] && ts[|ts| - 1].kind == '&' && IsBack(ts[..|ts| - 1], c.cmd))
  }

  /** Such, with ";" between them, grouped to the right. */
  ghost predicate IsLine(ts: seq<Token>, c: Cmd<Span>)
    decreases |ts|, 4
  {
    IsBack(ts, c) || exists k: nat :: LineAt(ts, c, k)
  }

  ghost predicate LineAt(ts: seq<Token>, c: Cmd<Span>, k: nat)
    decreases |ts|, 4, 0
  {
    c.List? && k < |ts| && ts[k].kind == ';' && IsBack(ts[..k], c.left) && IsLine(ts[k + 1..], c.right)
  }

  // Words and redirections at the front of a token list -----------------------------------------------

  lemma {:induction false} ScanAppend(ts: seq<Token>, rest: seq<Token>)
    requires Beyond(ts) == [] && (rest == [] || rest[0].kind in STOP)
    ensures Beyond(ts + rest) == rest && ArgWords(ts + rest) == ArgWords(ts) && FileWords(ts + rest) == FileWords(ts)
    decreases |ts|
  {
    if ts == [] {
      assert ts + rest == rest;
    } else if Begins(ts, REDIR) {
      assert (ts + rest)[2..] == ts[2..] + rest;
      ScanAppend(ts[2..], rest);
    } else {
      assert (ts + rest)[1..] == ts[1..] + rest;
      ScanAppend(ts[1..], rest);
    }
  }

  lemma {:induction false} ScanSplit(ts: seq<Token>)
    ensures var n := |ts| - |Beyond(ts)|;
            && 0 <= n <= |ts| && Beyond(ts) == ts[n..] && Beyond(ts[..n]) == []
            && ArgWords(ts[..n]) == ArgWords(ts) && FileWords(ts[..n]) == FileWords(ts)
    decreases |ts|
  {
    var n := |ts| - |Beyond(ts)|;
    if Begins(ts, REDIR) {
      if |ts| >= 2 && ts[1].kind == 'a' {
        ScanSplit(ts[2..]);
        assert ts[..n][2..] == ts[2..][..n - 2];
      }
    } else if ts != [] && ts[0].kind == 'a' {
      ScanSplit(ts[1..]);
      assert ts[..n][1..] == ts[1..][..n - 1];
    }
  }

  lemma WrappedMore<W>(c: Cmd<W>, f: W, out: bool, fs: seq<(W, bool)>)
    ensures Wrapped(Redir(c, f, out), fs) == Wrapped(c, [(f, out)] + fs)
    decreases |fs|
  {
    var gs := [(f, out)] + fs;
    if fs == [] {
      assert gs[..|gs| - 1] == [];
    } else {
      WrappedMore(c, f, out, fs[..|fs| - 1]);
      assert gs[..|gs| - 1] == [(f, out)] + fs[..|fs| - 1];
    }
  }

  /** A simple command is its arguments with its redirections around them. */
  lemma {:induction false} SimpleForm<W>(c: Cmd<W>)
    requires IsSimple(c)
    ensures c == Wrapped(Exec(Argv(c)), Files(c))
  {
    if c.Redir? {
      SimpleForm(c.cmd);
      assert Files(c)[..|Files(c)| - 1] == Files(c.cmd);
    }
  }

  // The parser finds every derivation ------------------------------------------------------------------

  lemma CommandParses(ts: seq<Token>, c: Cmd<Span>, rest: seq<Token>)
    requires IsCommand(ts, c) && StopsSimple(rest)
    ensures Simple(ts + rest) == Ok(c, rest)
  {
    hide ArgWords, FileWords, Beyond, Simple, Wrapped;
    ScanAppend(ts, rest);
    assert !Begins(ts + rest, {'('}) by { FirstOf(ts, rest); }
    SimpleIs(ts + rest);
    SimpleForm(Simple(ts + rest).cmd);
  }

  lemma FirstOf(ts: seq<Token>, rest: seq<Token>)
    requires !Begins(ts, {'('}) && StopsSimple(rest)
    ensures !Begins(ts + rest, {'('})
  {
  }

  lemma {:induction false} RedirectionsParse(c: Cmd<Span>, us: seq<Token>, rest: seq<Token>)
    requires OnlyRedirections(us) && StopsSimple(rest)
    ensures Redirs(c, us + rest) == Ok(Wrapped(c, FileWords(us)), rest)
    decreases |us|
  {
    if us == [] {
      assert us + rest == rest;
    } else {
      var d := Redir(c, WordOf(us[1]), us[0].kind != '<');
      assert (us + rest)[2..] == us[2..] + rest;
      RedirectionsParse(d, us[2..], rest);
      WrappedMore(c, WordOf(us[1]), us[0].kind != '<', FileWords(us[2..]));
    }
  }

  lemma {:induction false} BlockParses(ts: seq<Token>, c: Cmd<Span>, rest: seq<Token>)
    requires IsBlock(ts, c) && StopsSimple(rest)
    ensures Simple(ts + rest) == Ok(c, rest)
    decreases |ts|, 0
  {
    hide Line, Wrapped, Redirs, FileWords, IsLine, OnlyRedirections;
    var k: nat, line :| BlockAt(ts, c, k, line);
    var all, tail := ts + rest, ts[k + 1..] + rest;
    LineParses(ts[1..k], line, [ts[k]] + tail);
    assert all[1..] == ts[1..k] + ([ts[k]] + tail);
    assert ([ts[k]] + tail)[1..] == tail;
    RedirectionsParse(line, ts[k + 1..], rest);
  }

  lemma AtomParses(ts: seq<Token>, c: Cmd<Span>, rest: seq<Token>)
    requires IsAtom(ts, c) && StopsSimple(rest)
    ensures Simple(ts + rest) == Ok(c, rest)
    decreases |ts|, 1
  {
    hide Simple, IsCommand, IsBlock;
    if IsCommand(ts, c) {
      CommandParses(ts, c, rest);
    } else {
      BlockParses(ts, c, rest);
    }
  }

  lemma {:induction false} PipeParses(ts: seq<Token>, c: Cmd<Span>, rest: seq<Token>)
    requires IsPipe(ts, c) && StopsPipe(rest)
    ensures PipeLine(ts + rest) == Ok(c, rest)
    decreases |ts|, 2
  {
    hide Simple, IsAtom;
    if IsAtom(ts, c) {
      AtomParses(ts, c, rest);
    } else {
      var k: nat :| PipeAt(ts, c, k);
      var tail := ts[k + 1..] + rest;
      AtomParses(ts[..k], c.left, [ts[k]] + tail);
      PipeParses(ts[k + 1..], c.right, rest);
      assert ts + rest == ts[..k] + ([ts[k]] + tail);
      assert ([ts[k]] + tail)[1..] == tail;
    }
  }

  lemma {:induction false} BackParses(ts: seq<Token>, c: Cmd<Span>, rest: seq<Token>)
    requires IsBack(ts, c) && StopsPipe(rest)
    ensures BackLevel(ts + rest) == Backs(c, rest)
    decreases |ts|, 3
  {
    hide PipeLine, IsPipe;
    if IsPipe(ts, c) {
      PipeParses(ts, c, rest);
    } else {
      var us, amp := ts[..|ts| - 1], [ts[|ts| - 1]];
      BackParses(us, c.cmd, amp + rest);
      assert ts + rest == us + (amp + rest);
      assert (amp + rest)[1..] == rest;
    }
  }

  lemma {:induction false} LineParses(ts: seq<Token>, c: Cmd<Span>, rest: seq<Token>)
    requires IsLine(ts, c) && StopsLine(rest)
    ensures Line(ts + rest) == Ok(c, rest)
    decreases |ts|, 4
  {
    hide PipeLine, IsBack;
    if IsBack(ts, c) {
      BackParses(ts, c, rest);
    } else {
      var k: nat :| LineAt(ts, c, k);
      var tail := ts[k + 1..] + rest;
      BackParses(ts[..k], c.left, [ts[k]] + tail);
      LineParses(ts[k + 1..], c.right, rest);
      assert ts + rest == ts[..k] + ([ts[k]] + tail);
      assert ([ts[k]] + tail)[1..] == tail;
    }
  }

  // Whatever the parser accepts has a derivation ---------------------------------------------------------

  /** The rest is what follows the first n tokens. */
  predicate Leaves(ts: seq<Token>, r: Result) { r.Ok? && |r.rest| <= |ts| && r.rest == ts[|ts| - |r.rest|..] }

  function Used(ts: seq<Token>, r: Result): seq<Token>
    requires Leaves(ts, r)
  {
    ts[..|ts| - |r.rest|]
  }

  lemma CommandDerives(ts: seq<Token>)
    requires !Begins(ts, {'('}) && Simple(ts).Ok?
    ensures Leaves(ts, Simple(ts)) && IsCommand(Used(ts, Simple(ts)), Simple(ts).cmd)
  {
    hide ArgWords, FileWords, Beyond, Simple, Wrapped;
    SimpleIs(ts);
    ScanSplit(ts);
    SimpleForm(Simple(ts).cmd);
  }

  lemma NoRedirection(c: Cmd<Span>)
    ensures OnlyRedirections([]) && Wrapped(c, FileWords([])) == c
  {
  }

  lemma OneRedirection(us: seq<Token>)
    requires Begins(us, REDIR) && |us| >= 2 && us[1].kind == 'a' && OnlyRedirections(us[2..])
    ensures OnlyRedirections(us) && FileWords(us) == [(WordOf(us[1]), us[0].kind != '<')] + FileWords(us[2..])
  {
  }

  lemma {:induction false} RedirectionsDerive(c: Cmd<Span>, ts: seq<Token>)
    requires Redirs(c, ts).Ok?
    ensures var r := Redirs(c, ts);
            && Leaves(ts, r) && OnlyRedirections(Used(ts, r)) && r.cmd == Wrapped(c, FileWords(Used(ts, r)))
    decreases |ts|
  {
    hide OnlyRedirections, FileWords, Wrapped;
    if !Begins(ts, REDIR) {
      assert ts[..0] == [];
      NoRedirection(c);
    } else {
      var d := Redir(c, WordOf(ts[1]), ts[0].kind != '<');
      RedirectionsDerive(d, ts[2..]);
      var r := Redirs(d, ts[2..]);
      assert r.rest == ts[|ts| - |r.rest|..];
      var us := Used(ts, r);
      assert us[2..] == Used(ts[2..], r);
      OneRedirection(us);
      WrappedMore(c, WordOf(ts[1]), ts[0].kind != '<', FileWords(us[2..]));
    }
  }

  lemma {:induction false} BlockDerives(ts: seq<Token>)
    requires Begins(ts, {'('}) && Block(ts).Ok?
    ensures Leaves(ts, Block(ts)) && IsBlock(Used(ts, Block(ts)), Block(ts).cmd)
    decreases |ts|, 0
  {
    hide Line, Wrapped, Redirs, FileWords, OnlyRedirections, IsLine;
    var line := Line(ts[1..]);
    LineDerives(ts[1..]);
    var r := Redirs(line.cmd, line.rest[1..]);
    RedirectionsDerive(line.cmd, line.rest[1..]);
    var k := |ts| - |line.rest|;
    var us := Used(ts, r);
    assert line.rest == ts[k..] && line.rest[1..] == ts[k + 1..];
    assert us[1..k] == Used(ts[1..], line);
    assert us[k + 1..] == Used(ts[k + 1..], r);
    assert BlockAt(us, r.cmd, k, line.cmd);
  }

  lemma SimpleDerives(ts: seq<Token>)
    requires Simple(ts).Ok?
    ensures Leaves(ts, Simple(ts)) && IsAtom(Used(ts, Simple(ts)), Simple(ts).cmd)
    decreases |ts|, 1
  {
    hide IsCommand, IsBlock;
    if Begins(ts, {'('}) {
      BlockDerives(ts);
    } else {
      CommandDerives(ts);
    }
  }

  lemma {:induction false} PipeDerives(ts: seq<Token>)
    requires PipeLine(ts).Ok?
    ensures Leaves(ts, PipeLine(ts)) && IsPipe(Used(ts, PipeLine(ts)), PipeLine(ts).cmd)
    decreases |ts|, 2
  {
    hide Simple, IsAtom;
    SimpleDerives(ts);
    var r := Simple(ts);
    if Begins(r.rest, {'|'}) {
      var k := |ts| - |r.rest|;
      assert r.rest[1..] == ts[k + 1..];
      PipeDerives(ts[k + 1..]);
      var q := PipeLine(ts[k + 1..]);
      var us := Used(ts, PipeLine(ts));
      assert us[..k] == Used(ts, r) && us[k + 1..] == Used(ts[k + 1..], q);
      assert PipeAt(us, PipeLine(ts).cmd, k);
    }
  }

  /** us is a pipeline with some "&" after it, and more of them may follow. */
  lemma {:induction false} BacksDerive(us: seq<Token>, c: Cmd<Span>, rest: seq<Token>)
    requires IsBack(us, c)
    ensures var r := Backs(c, rest);
            Leaves(us + rest, r) && IsBack(Used(us + rest, r), r.cmd)
    decreases |rest|
  {
    if !Begins(rest, {'&'}) {
      assert (us + rest)[..|us|] == us && (us + rest)[|us|..] == rest;
    } else {
      var vs := us + [rest[0]];
      assert vs[..|vs| - 1] == us && vs[|vs| - 1].kind == '&';
      assert IsBack(vs, Back(c));
      BacksDerive(vs, Back(c), rest[1..]);
      assert vs + rest[1..] == us + rest;
    }
  }

  lemma BackDerives(ts: seq<Token>)
    requires BackLevel(ts).Ok?
    ensures Leaves(ts, BackLevel(ts)) && IsBack(Used(ts, BackLevel(ts)), BackLevel(ts).cmd)
    decreases |ts|, 3
  {
    hide PipeLine, IsPipe, Backs;
    PipeDerives(ts);
    var p := PipeLine(ts);
    BacksDerive(Used(ts, p), p.cmd, p.rest);
    assert Used(ts, p) + p.rest == ts;
  }

  lemma {:induction false} LineDerives(ts: seq<Token>)
    requires Line(ts).Ok?
    ensures Leaves(ts, Line(ts)) && IsLine(Used(ts, Line(ts)), Line(ts).cmd)
    decreases |ts|, 4
  {
    hide PipeLine, IsBack, Backs;
    BackDerives(ts);
    var r := BackLevel(ts);
    if Begins(r.rest, {';'}) {
      var k := |ts| - |r.rest|;
      assert r.rest[1..] == ts[k + 1..];
      LineDerives(ts[k + 1..]);
      var q := Line(ts[k + 1..]);
      var us := Used(ts, Line(ts));
      assert us[..k] == Used(ts, r) && us[k + 1..] == Used(ts[k + 1..], q);
      assert LineAt(us, Line(ts).cmd, k);
    }
  }

  /** parsecmd is right: it yields a tree exactly when the text is a command line with that tree,
      and panics exactly when the text is none. */
  lemma ParseIff(s: string, c: Cmd<Span>)
    ensures Parse(s) == Ok(c, []) <==> IsLine(Lex(s, 0), c)
    ensures Parse(s).Ok? ==> Parse(s).rest == []
  {
    hide Line, Lex, IsLine;
    var ts := Lex(s, 0);
    if IsLine(ts, c) {
      LineParses(ts, c, []);
      assert ts + [] == ts;
    }
    if Line(ts) == Ok(c, []) {
      LineDerives(ts);
      assert Used(ts, Line(ts)) == ts;
    }
  }

  /** So a text is a command line in one way at most. */
  lemma OneTree(s: string, c: Cmd<Span>, d: Cmd<Span>)
    requires IsLine(Lex(s, 0), c) && IsLine(Lex(s, 0), d)
    ensures c == d
  {
    hide IsLine, Parse, Lex;
    ParseIff(s, c);
    ParseIff(s, d);
  }
}
