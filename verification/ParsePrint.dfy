/** The parser inverts the printer on every tree it can build. */
module ParsePrint {
  import opened Lexer
  import opened Grammar

  predicate Printable(ls: seq<Lexeme>) {
    forall i :: 0 <= i < |ls| ==> match ls[i] case Word(w) => IsWord(w) case Sym(c) => Symbol(c)
  }

  lemma Joined(a: seq<Lexeme>, b: seq<Lexeme>)
    requires Printable(a) && Printable(b)
    ensures Printable(a + b)
  {
  }

  lemma {:induction false} SimplePrintable(t: Cmd<string>)
    requires Buildable(t)
    ensures Printable(PrintSimple(t))
    decreases t, 1
  {
    match t
    case Exec(args) =>
    case Redir(c, file, out) =>
      SimplePrintable(c);
      Joined(PrintSimple(c), [Sym(Operator(out)), Word(file)]);
    case _ =>
      BarePrintable(t);
      Joined([Sym('(')], Bare(t));
      Joined([Sym('(')] + Bare(t), [Sym(')')]);
  }

  lemma {:induction false} BarePrintable(t: Cmd<string>)
    requires Buildable(t) && Compound(t)
    ensures Printable(Bare(t))
    decreases t, 0
  {
    match t
    case Pipe(l, r) =>
      SimplePrintable(l);
      LinePrintable(r);
      Three(PrintSimple(l), '|', PrintPipe(r));
    case List(l, r) =>
      LinePrintable(l);
      LinePrintable(r);
      Three(PrintBack(l), ';', PrintLine(r));
    case Back(c) =>
      LinePrintable(c);
      Joined(PrintBack(c), [Sym('&')]);
  }

  lemma Three(a: seq<Lexeme>, c: char, b: seq<Lexeme>)
    requires Printable(a) && Symbol(c) && Printable(b)
    ensures Printable(a + [Sym(c)] + b)
  {
  }

  lemma {:induction false} LinePrintable(t: Cmd<string>)
    requires Buildable(t)
    ensures Printable(PrintLine(t)) && Printable(PrintBack(t)) && Printable(PrintPipe(t))
    decreases t, 2
  {
    SimplePrintable(t);
    if Compound(t) {
      BarePrintable(t);
    }
    assert PrintPipe(t) == if t.Pipe? then Bare(t) else PrintSimple(t);
    assert PrintBack(t) == if t.Back? then Bare(t) else PrintPipe(t);
    assert PrintLine(t) == if t.List? then Bare(t) else PrintBack(t);
  }

  /** Where the first lexeme of a rendered list ends. */
  lemma RenderSplit(s: string, p: nat, ls: seq<Lexeme>)
    requires p <= |s| && s[p..] == Render(ls) && ls != []
    ensures var n := |Spelled(ls[0])|;
            p + n < |s| && s[p..p + n] == Spelled(ls[0]) && s[p + n] == ' ' && s[p + n + 1..] == Render(ls[1..])
  {
    var w, rest := Spelled(ls[0]), Render(ls[1..]);
    var all := w + " " + rest;
    assert s[p..] == all;
    hide Render, Spelled;
    assert s[p..p + |w|] == all[..|w|];
    assert s[p + |w|] == all[|w|];
    assert s[p + |w| + 1..] == all[|w| + 1..];
  }

  lemma LexNothing(s: string, p: nat, ls: seq<Lexeme>)
    requires p <= |s| && s[p..] == Render(ls) && ls == []
    ensures Lex(s, p) == [] && Starts(s, Lex(s, p), ls)
  {
    assert p == |s|;
  }

  lemma PrintableParts(ls: seq<Lexeme>)
    requires Printable(ls) && ls != []
    ensures Printable([ls[0]]) && Printable(ls[1..])
  {
  }

  lemma StartsCons(s: string, t: Token, more: seq<Token>, ls: seq<Lexeme>)
    requires ls != [] && Spells(s, t, ls[0]) && Starts(s, more, ls[1..])
    ensures Starts(s, [t] + more, ls)
  {
    hide Spells;
    forall i | 0 <= i < |ls|
      ensures Spells(s, ([t] + more)[i], ls[i])
    {
      if i > 0 {
        assert ([t] + more)[i] == more[i - 1] && ls[1..][i - 1] == ls[i];
      }
    }
  }

  /** A printable list reads back token for token. */
  lemma {:induction false} LexRender(s: string, p: nat, ls: seq<Lexeme>)
    requires p <= |s| && s[p..] == Render(ls) && Printable(ls)
    ensures |Lex(s, p)| == |ls| && Starts(s, Lex(s, p), ls)
    decreases |ls|
  {
    hide Lex, Render, TokenAt, Spells, Spelled, Starts, Printable;
    if ls == [] {
      LexNothing(s, p, ls);
    } else {
      var n := |Spelled(ls[0])|;
      RenderSplit(s, p, ls);
      PrintableParts(ls);
      FirstToken(s, p, ls[0]);
      LexSkips(s, p + n, p + n + 1);
      LexRender(s, p + n + 1, ls[1..]);
      StartsCons(s, TokenAt(s, p), Lex(s, p + n + 1), ls);
    }
  }

  lemma FirstToken(s: string, p: nat, l: Lexeme)
    requires p + |Spelled(l)| < |s| && s[p..p + |Spelled(l)|] == Spelled(l) && s[p + |Spelled(l)|] == ' '
    requires Printable([l])
    ensures p < |s| && !Space(s[p]) && Spells(s, TokenAt(s, p), l) && TokenAt(s, p).eq == p + |Spelled(l)|
    ensures Lex(s, p) == [TokenAt(s, p)] + Lex(s, p + |Spelled(l)|)
  {
    var w := Spelled(l);
    assert Printable([l]) && [l][0] == l;
    assert s[p] == w[0];
    match l
    case Word(_) =>
      forall i | p <= i < p + |w|
        ensures Plain(s[i])
      {
        assert s[i] == w[i - p];
      }
      WordEndIs(s, p, p + |w|);
    case Sym(c) =>
    SkipIs(s, p, p);
  }

  /** parsecmd of a printed tree is the tree. */
  lemma ParseInvertsPrint(t: Cmd<string>)
    requires Buildable(t)
    ensures var s := Render(PrintLine(t)); Parse(s).Ok? && Texts(s, Parse(s).cmd) == t
  {
    var ls := PrintLine(t);
    var s := Render(ls);
    LinePrintable(t);
    assert s[0..] == s;
    LexRender(s, 0, ls);
    LineRead(s, t, Lex(s, 0));
  }

  // Every parse is of such a tree ------------------------------------------------------------------

  /** w is a whole word of s: plain bytes, and something else after them. */
  predicate WordSpan(s: string, w: Span) {
    w.q < w.eq <= |s| && (forall i :: w.q <= i < w.eq ==> Plain(s[i])) && (w.eq < |s| ==> !Plain(s[w.eq]))
  }

  predicate GoodWords(s: string, ts: seq<Token>) {
    forall i :: 0 <= i < |ts| && ts[i].kind == 'a' ==> WordSpan(s, WordOf(ts[i]))
  }

  lemma LexGood(s: string)
    requires Text(s)
    ensures GoodWords(s, Lex(s, 0))
  {
    forall k | 0 <= k < |Lex(s, 0)| && Lex(s, 0)[k].kind == 'a'
      ensures WordSpan(s, WordOf(Lex(s, 0)[k]))
    {
      LexWords(s, 0, k);
    }
  }

  /** A tree over whole words of s, with at most nine to a command. */
  predicate Spanned(s: string, c: Cmd<Span>) {
    match c
    case Exec(args) => |args| < MAXARGS && forall i :: 0 <= i < |args| ==> WordSpan(s, args[i])
    case Redir(d, file, _) => Spanned(s, d) && WordSpan(s, file)
    case Pipe(l, r) => Spanned(s, l) && Spanned(s, r)
    case List(l, r) => Spanned(s, l) && Spanned(s, r)
    case Back(d) => Spanned(s, d)
  }

  lemma {:induction false} SpannedBuildable(s: string, c: Cmd<Span>)
    requires Spanned(s, c)
    ensures Buildable(Texts(s, c))
  {
    match c
    case Exec(args) =>
      forall i | 0 <= i < |args|
        ensures IsWord(Texts(s, c).args[i])
      {
        assert WordSpan(s, args[i]);
      }
    case Redir(d, file, _) =>
      SpannedBuildable(s, d);
      assert WordSpan(s, file);
    case Pipe(l, r) =>
      SpannedBuildable(s, l);
      SpannedBuildable(s, r);
    case List(l, r) =>
      SpannedBuildable(s, l);
      SpannedBuildable(s, r);
    case Back(d) =>
      SpannedBuildable(s, d);
  }

  predicate Good(s: string, r: Result) {
    r.Ok? ==> Spanned(s, r.cmd) && GoodWords(s, r.rest)
  }

  lemma {:induction false} RedirsGood(s: string, c: Cmd<Span>, ts: seq<Token>)
    requires Spanned(s, c) && GoodWords(s, ts)
    ensures Good(s, Redirs(c, ts))
    decreases |ts|
  {
    if Begins(ts, REDIR) && |ts| >= 2 && ts[1].kind == 'a' {
      RedirsGood(s, Redir(c, WordOf(ts[1]), ts[0].kind != '<'), ts[2..]);
    }
  }

  /** A simple command with its redirections and argc arguments. */
  predicate Simply(c: Cmd<Span>, argc: nat) {
    match c
    case Exec(args) => |args| == argc
    case Redir(d, _, _) => Simply(d, argc)
    case _ => false
  }

  lemma {:induction false} RedirsSimply(c: Cmd<Span>, argc: nat, ts: seq<Token>)
    requires Simply(c, argc)
    ensures var r := Redirs(c, ts); r.Ok? ==> Simply(r.cmd, argc)
    decreases |ts|
  {
    if Begins(ts, REDIR) && |ts| >= 2 && ts[1].kind == 'a' {
      RedirsSimply(Redir(c, WordOf(ts[1]), ts[0].kind != '<'), argc, ts[2..]);
    }
  }

  lemma {:induction false} AddArgGood(s: string, c: Cmd<Span>, argc: nat, w: Span)
    requires Simply(c, argc) && argc + 1 < MAXARGS && Spanned(s, c) && WordSpan(s, w)
    ensures Simply(AddArg(c, w), argc + 1) && Spanned(s, AddArg(c, w))
  {
    if c.Redir? {
      AddArgGood(s, c.cmd, argc, w);
    }
  }

  lemma {:induction false} ArgsGood(s: string, c: Cmd<Span>, argc: nat, ts: seq<Token>)
    requires Simply(c, argc) && Spanned(s, c) && GoodWords(s, ts)
    ensures Good(s, Args(c, argc, ts))
    decreases |ts|
  {
    if ts != [] && !Begins(ts, STOP) && ts[0].kind == 'a' && argc + 1 < MAXARGS {
      var d := AddArg(c, WordOf(ts[0]));
      AddArgGood(s, c, argc, WordOf(ts[0]));
      RedirsGood(s, d, ts[1..]);
      RedirsSimply(d, argc + 1, ts[1..]);
      var r := Redirs(d, ts[1..]);
      if r.Ok? {
        ArgsGood(s, r.cmd, argc + 1, r.rest);
      }
    }
  }

  lemma {:induction false} SimpleGood(s: string, ts: seq<Token>)
    requires GoodWords(s, ts)
    ensures Good(s, Simple(ts))
    decreases |ts|, 1
  {
    if Begins(ts, {'('}) {
      LineGood(s, ts[1..]);
      var r := Line(ts[1..]);
      if r.Ok? && Begins(r.rest, {')'}) {
        RedirsGood(s, r.cmd, r.rest[1..]);
      }
    } else {
      RedirsGood(s, Exec([]), ts);
      RedirsSimply(Exec([]), 0, ts);
      var r := Redirs(Exec([]), ts);
      if r.Ok? {
        ArgsGood(s, r.cmd, 0, r.rest);
      }
    }
  }

  lemma {:induction false} PipeGood(s: string, ts: seq<Token>)
    requires GoodWords(s, ts)
    ensures Good(s, PipeLine(ts))
    decreases |ts|, 2
  {
    SimpleGood(s, ts);
    var r := Simple(ts);
    if r.Ok? && Begins(r.rest, {'|'}) {
      PipeGood(s, r.rest[1..]);
    }
  }

  lemma {:induction false} BacksGood(s: string, c: Cmd<Span>, ts: seq<Token>)
    requires Spanned(s, c) && GoodWords(s, ts)
    ensures Good(s, Backs(c, ts))
    decreases |ts|
  {
    if Begins(ts, {'&'}) {
      BacksGood(s, Back(c), ts[1..]);
    }
  }

  lemma {:induction false} LineGood(s: string, ts: seq<Token>)
    requires GoodWords(s, ts)
    ensures Good(s, Line(ts))
    decreases |ts|, 3
  {
    PipeGood(s, ts);
    var p := PipeLine(ts);
    if p.Ok? {
      BacksGood(s, p.cmd, p.rest);
      var r := Backs(p.cmd, p.rest);
      if Begins(r.rest, {';'}) {
        LineGood(s, r.rest[1..]);
      }
    }
  }

  /** Printing what was parsed and parsing that again changes nothing. */
  lemma ParsePrintParse(s: string)
    requires Text(s) && Parse(s).Ok?
    ensures Buildable(Texts(s, Parse(s).cmd))
    ensures var t := Texts(s, Parse(s).cmd);
            var again := Render(PrintLine(t));
            Parse(again).Ok? && Texts(again, Parse(again).cmd) == t
  {
    LexGood(s);
    LineGood(s, Lex(s, 0));
    SpannedBuildable(s, Parse(s).cmd);
    ParseInvertsPrint(Texts(s, Parse(s).cmd));
  }
}
