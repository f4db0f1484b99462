/** The printer's parentheses are the fewest: no text that parses to a tree has less. */
module Parentheses {
  import opened Lexer
  import opened Grammar

  /** Opening parentheses among lexemes, and among tokens. */
  function Opens(ls: seq<Lexeme>): nat {
    if ls == [] then 0 else (if ls[0] == Sym('(') then 1 else 0) + Opens(ls[1..])
  }

  function Opened(ts: seq<Token>): nat {
    if ts == [] then 0 else (if ts[0].kind == '(' then 1 else 0) + Opened(ts[1..])
  }

  // How many a tree needs at each level of the grammar ----------------------------------------------

  function NeedBare<W>(t: Cmd<W>): nat
    requires t.Pipe? || t.List? || t.Back?
    decreases t, 0
  {
    match t
    case Pipe(l, r) => NeedSimple(l) + NeedPipe(r)
    case List(l, r) => NeedBack(l) + NeedLine(r)
    case Back(c) => NeedBack(c)
  }

  function NeedSimple<W>(t: Cmd<W>): nat
    decreases t, 1
  {
    match t
    case Exec(_) => 0
    case Redir(c, _, _) => NeedSimple(c)
    case _ => 1 + NeedBare(t)
  }

  function NeedPipe<W>(t: Cmd<W>): nat
    decreases t, 2
  {
    if t.Pipe? then NeedBare(t) else NeedSimple(t)
  }

  function NeedBack<W>(t: Cmd<W>): nat
    decreases t, 3
  {
    if t.Back? then NeedBare(t) else NeedPipe(t)
  }

  function NeedLine<W>(t: Cmd<W>): nat
    decreases t, 4
  {
    if t.List? then NeedBare(t) else NeedBack(t)
  }

  /** A lower level never needs fewer, and at most one more. */
  lemma Levels<W>(t: Cmd<W>)
    ensures NeedLine(t) <= NeedBack(t) <= NeedPipe(t) <= NeedSimple(t) <= 1 + NeedLine(t)
  {
  }

  // The printer meets the need -----------------------------------------------------------------------

  lemma {:induction false} OpensTwo(a: seq<Lexeme>, b: seq<Lexeme>)
    ensures Opens(a + b) == Opens(a) + Opens(b)
    decreases |a|
  {
    if a == [] {
      assert a + b == b;
    } else {
      assert (a + b)[1..] == a[1..] + b;
      OpensTwo(a[1..], b);
    }
  }

  lemma OpensThree(a: seq<Lexeme>, c: char, b: seq<Lexeme>)
    ensures Opens(a + [Sym(c)] + b) == Opens(a) + (if c == '(' then 1 else 0) + Opens(b)
  {
    OpensTwo(a, [Sym(c)]);
    OpensTwo(a + [Sym(c)], b);
    assert Opens([Sym(c)]) == (if c == '(' then 1 else 0) by { assert [Sym(c)][1..] == []; }
  }

  lemma {:induction false} WordsOpenNothing(args: seq<string>)
    ensures Opens(Words(args)) == 0
    decreases |args|
  {
    if args == [] {
    } else {
      assert Words(args)[1..] == Words(args[1..]);
      WordsOpenNothing(args[1..]);
    }
  }

  lemma {:induction false} PrintedSimple(t: Cmd<string>)
    ensures Opens(PrintSimple(t)) == NeedSimple(t)
    decreases t, 1
  {
    match t
    case Exec(args) => WordsOpenNothing(args);
    case Redir(c, file, out) =>
      PrintedSimple(c);
      var two := [Sym(Operator(out)), Word(file)];
      OpensTwo(PrintSimple(c), two);
      assert two[1..] == [Word(file)] && [Word(file)][1..] == [];
      assert Opens([Word(file)]) == 0;
    case _ =>
      PrintedBare(t);
      OpensThree([], '(', Bare(t));
      assert [] + [Sym('(')] + Bare(t) == [Sym('(')] + Bare(t);
      OpensThree([Sym('(')] + Bare(t), ')', []);
      assert [Sym('(')] + Bare(t) + [Sym(')')] + [] == [Sym('(')] + Bare(t) + [Sym(')')];
  }

  lemma {:induction false} PrintedBare(t: Cmd<string>)
    requires Compound(t)
    ensures Opens(Bare(t)) == NeedBare(t)
    decreases t, 0
  {
    match t
    case Pipe(l, r) =>
      PrintedSimple(l);
      PrintedLine(r);
      OpensThree(PrintSimple(l), '|', PrintPipe(r));
    case List(l, r) =>
      PrintedLine(l);
      PrintedLine(r);
      OpensThree(PrintBack(l), ';', PrintLine(r));
    case Back(c) =>
      PrintedLine(c);
      OpensThree(PrintBack(c), '&', []);
      assert PrintBack(c) + [Sym('&')] + [] == PrintBack(c) + [Sym('&')];
  }

  lemma {:induction false} PrintedLine(t: Cmd<string>)
    ensures Opens(PrintPipe(t)) == NeedPipe(t) && Opens(PrintBack(t)) == NeedBack(t)
    ensures Opens(PrintLine(t)) == NeedLine(t)
    decreases t, 2
  {
    PrintedSimple(t);
    if Compound(t) {
      PrintedBare(t);
    }
    assert PrintPipe(t) == if t.Pipe? then Bare(t) else PrintSimple(t);
    assert PrintBack(t) == if t.Back? then Bare(t) else PrintPipe(t);
    assert PrintLine(t) == if t.List? then Bare(t) else PrintBack(t);
  }

  // No parse does with less ----------------------------------------------------------------------------

  lemma {:induction false} RedirsUse(c: Cmd<Span>, ts: seq<Token>)
    ensures var r := Redirs(c, ts); r.Ok? ==> NeedSimple(r.cmd) == NeedSimple(c) && Opened(ts) >= Opened(r.rest)
    decreases |ts|
  {
    if Begins(ts, REDIR) && |ts| >= 2 && ts[1].kind == 'a' {
      assert ts[1..][1..] == ts[2..];
      RedirsUse(Redir(c, WordOf(ts[1]), ts[0].kind != '<'), ts[2..]);
    }
  }

  lemma {:induction false} AddArgNeeds(c: Cmd<Span>, w: Span)
    ensures NeedSimple(AddArg(c, w)) == NeedSimple(c)
  {
    if c.Redir? {
      AddArgNeeds(c.cmd, w);
    }
  }

  lemma {:induction false} ArgsUse(c: Cmd<Span>, argc: nat, ts: seq<Token>)
    ensures var r := Args(c, argc, ts); r.Ok? ==> NeedSimple(r.cmd) == NeedSimple(c) && Opened(ts) >= Opened(r.rest)
    decreases |ts|
  {
    if ts != [] && !Begins(ts, STOP) && ts[0].kind == 'a' && argc + 1 < MAXARGS {
      var d := AddArg(c, WordOf(ts[0]));
      AddArgNeeds(c, WordOf(ts[0]));
      RedirsUse(d, ts[1..]);
      var r := Redirs(d, ts[1..]);
      if r.Ok? {
        ArgsUse(r.cmd, argc + 1, r.rest);
      }
    }
  }

  lemma {:induction false} SimpleUses(ts: seq<Token>)
    ensures var r := Simple(ts); r.Ok? ==> Opened(ts) >= NeedSimple(r.cmd) + Opened(r.rest)
    decreases |ts|, 1
  {
    if Begins(ts, {'('}) {
      LineUses(ts[1..]);
      var r := Line(ts[1..]);
      if r.Ok? && Begins(r.rest, {')'}) {
        Levels(r.cmd);
        RedirsUse(r.cmd, r.rest[1..]);
      }
    } else {
      RedirsUse(Exec([]), ts);
      var r := Redirs(Exec([]), ts);
      if r.Ok? {
        ArgsUse(r.cmd, 0, r.rest);
      }
    }
  }

  lemma {:induction false} PipeUses(ts: seq<Token>)
    ensures var r := PipeLine(ts); r.Ok? ==> Opened(ts) >= NeedPipe(r.cmd) + Opened(r.rest)
    decreases |ts|, 2
  {
    SimpleUses(ts);
    var r := Simple(ts);
    if r.Ok? {
      Levels(r.cmd);
      if Begins(r.rest, {'|'}) {
        PipeUses(r.rest[1..]);
      }
    }
  }

  lemma {:induction false} BacksUse(c: Cmd<Span>, ts: seq<Token>)
    ensures var r := Backs(c, ts); NeedBack(r.cmd) == NeedBack(c) && Opened(ts) >= Opened(r.rest)
    decreases |ts|
  {
    if Begins(ts, {'&'}) {
      BacksUse(Back(c), ts[1..]);
    }
  }

  lemma {:induction false} LineUses(ts: seq<Token>)
    ensures var r := Line(ts); r.Ok? ==> Opened(ts) >= NeedLine(r.cmd) + Opened(r.rest)
    decreases |ts|, 3
  {
    PipeUses(ts);
    var p := PipeLine(ts);
    if p.Ok? {
      Levels(p.cmd);
      BacksUse(p.cmd, p.rest);
      var r := Backs(p.cmd, p.rest);
      Levels(r.cmd);
      if Begins(r.rest, {';'}) {
        LineUses(r.rest[1..]);
      }
    }
  }

  lemma {:induction false} TextsNeed(s: string, c: Cmd<Span>)
    ensures NeedSimple(Texts(s, c)) == NeedSimple(c) && NeedPipe(Texts(s, c)) == NeedPipe(c)
    ensures NeedBack(Texts(s, c)) == NeedBack(c) && NeedLine(Texts(s, c)) == NeedLine(c)
  {
    match c
    case Exec(_) =>
    case Redir(d, _, _) => TextsNeed(s, d);
    case Pipe(l, r) => TextsNeed(s, l); TextsNeed(s, r);
    case List(l, r) => TextsNeed(s, l); TextsNeed(s, r);
    case Back(d) => TextsNeed(s, d);
  }

  /** Any text that parses to tree t has at least as many opening parentheses as t printed. */
  lemma FewestParentheses(s: string)
    requires Parse(s).Ok?
    ensures Opened(Lex(s, 0)) >= Opens(PrintLine(Texts(s, Parse(s).cmd)))
  {
    LineUses(Lex(s, 0));
    TextsNeed(s, Parse(s).cmd);
    PrintedLine(Texts(s, Parse(s).cmd));
  }
}
