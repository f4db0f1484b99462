/** The shell's grammar: what parsecmd makes of a token list, and a printer that it inverts. */
module Grammar {
  import opened Lexer

  const MAXARGS := 10

  /** Where a word lies in the input. */
  datatype Span = Span(q: nat, eq: nat)

  /** Commands over words of type W. A redirection reads its file on descriptor 0, or with
      `out` creates it for writing on descriptor 1. */
  datatype Cmd<W> =
    | Exec(args: seq<W>)
    | Redir(cmd: Cmd<W>, file: W, out: bool)
    | Pipe(left: Cmd<W>, right: Cmd<W>)
    | List(left: Cmd<W>, right: Cmd<W>)
    | Back(cmd: Cmd<W>)

  datatype Why = MissingFile | MissingParen | TooManyArgs | Syntax | Leftovers

  datatype Result = Ok(cmd: Cmd<Span>, rest: seq<Token>) | Panic(why: Why)

  const REDIR: set<char> := {'<', '>'}
  const STOP: set<char> := {'|', ')', '&', ';'}

  // The parser, over tokens -----------------------------------------------------------------------

  function WordOf(t: Token): Span { Span(t.q, t.eq) }

  /** parseredirs. */
  function Redirs(c: Cmd<Span>, ts: seq<Token>): (r: Result)
    ensures r.Ok? ==> |r.rest| <= |ts|
    decreases |ts|
  {
    if !Begins(ts, REDIR) then Ok(c, ts)
    else if |ts| < 2 || ts[1].kind != 'a' then Panic(MissingFile)
    else Redirs(Redir(c, WordOf(ts[1]), ts[0].kind != '<'), ts[2..])
  }

  /** The command node takes another argument, inside whatever redirections wrap it. */
  function AddArg<W>(c: Cmd<W>, a: W): Cmd<W> {
    match c
    case Redir(d, file, out) => Redir(AddArg(d, a), file, out)
    case Exec(args) => Exec(args + [a])
    case _ => c
  }

  /** parseexec's loop. */
  function Args(c: Cmd<Span>, argc: nat, ts: seq<Token>): (r: Result)
    ensures r.Ok? ==> |r.rest| <= |ts|
    decreases |ts|
  {
    if ts == [] || Begins(ts, STOP) then Ok(c, ts)
    else if ts[0].kind != 'a' then Panic(Syntax)
    else if argc + 1 >= MAXARGS then Panic(TooManyArgs)
    else
      var r := Redirs(AddArg(c, WordOf(ts[0])), ts[1..]);
      if r.Panic? then r else Args(r.cmd, argc + 1, r.rest)
  }

  /** parseexec. */
  function Simple(ts: seq<Token>): (r: Result)
    ensures r.Ok? ==> |r.rest| <= |ts|
    decreases |ts|, 1
  {
    if Begins(ts, {'('}) then Block(ts)
    else
      var r := Redirs(Exec([]), ts);
      if r.Panic? then r else Args(r.cmd, 0, r.rest)
  }

  /** parseblock. */
  function Block(ts: seq<Token>): (r: Result)
    requires Begins(ts, {'('})
    ensures r.Ok? ==> |r.rest| <= |ts|
    decreases |ts|, 0
  {
    var r := Line(ts[1..]);
    if r.Panic? then r
    else if !Begins(r.rest, {')'}) then Panic(MissingParen)
    else Redirs(r.cmd, r.rest[1..])
  }

  /** parsepipe. */
  function PipeLine(ts: seq<Token>): (r: Result)
    ensures r.Ok? ==> |r.rest| <= |ts|
    decreases |ts|, 2
  {
    var r := Simple(ts);
    if r.Panic? || !Begins(r.rest, {'|'}) then r
    else
      var q := PipeLine(r.rest[1..]);
      if q.Panic? then q else Ok(Pipe(r.cmd, q.cmd), q.rest)
  }

  /** parseline's loop over "&". */
  function Backs(c: Cmd<Span>, ts: seq<Token>): (r: Result)
    ensures r.Ok? && |r.rest| <= |ts|
    decreases |ts|
  {
    if Begins(ts, {'&'}) then Backs(Back(c), ts[1..]) else Ok(c, ts)
  }

  /** parseline. */
  function Line(ts: seq<Token>): (r: Result)
    ensures r.Ok? ==> |r.rest| <= |ts|
    decreases |ts|, 3
  {
    var p := PipeLine(ts);
    if p.Panic? then p
    else
      var r := Backs(p.cmd, p.rest);
      if !Begins(r.rest, {';'}) then r
      else
        var q := Line(r.rest[1..]);
        if q.Panic? then q else Ok(List(r.cmd, q.cmd), q.rest)
  }

  /** parsecmd, before nulterminate. */
  function Parse(s: string): Result {
    var r := Line(Lex(s, 0));
    if r.Ok? && r.rest != [] then Panic(Leftovers) else r
  }

  // The printer ------------------------------------------------------------------------------------

  datatype Lexeme = Word(w: string) | Sym(c: char)

  predicate IsWord(w: string) { w != [] && forall i :: 0 <= i < |w| ==> Plain(w[i]) }

  /** The trees the grammar can build: at most nine proper words to a command, and proper
      words for files. */
  predicate Buildable(t: Cmd<string>) {
    match t
    case Exec(args) => |args| < MAXARGS && forall i :: 0 <= i < |args| ==> IsWord(args[i])
    case Redir(c, file, _) => Buildable(c) && IsWord(file)
    case Pipe(l, r) => Buildable(l) && Buildable(r)
    case List(l, r) => Buildable(l) && Buildable(r)
    case Back(c) => Buildable(c)
  }

  function Words(args: seq<string>): (ls: seq<Lexeme>)
    ensures |ls| == |args|
  {
    seq(|args|, i requires 0 <= i < |args| => Word(args[i]))
  }

  function Operator(out: bool): char { if out then '>' else '<' }

  /** In a simple command's place, these need parentheses. */
  predicate Compound(t: Cmd<string>) { t.Pipe? || t.List? || t.Back? }

  /** A compound command without parentheses. */
  function Bare(t: Cmd<string>): seq<Lexeme>
    requires Compound(t)
    decreases t, 0
  {
    match t
    case Pipe(l, r) => PrintSimple(l) + [Sym('|')] + PrintPipe(r)
    case List(l, r) => PrintBack(l) + [Sym(';')] + PrintLine(r)
    case Back(c) => PrintBack(c) + [Sym('&')]
  }

  /** Parentheses only where the grammar needs them: around a list, a background or a
      pipeline that stands where a simple command must. */
  function PrintSimple(t: Cmd<string>): seq<Lexeme>
    decreases t, 1
  {
    match t
    case Exec(args) => Words(args)
    case Redir(c, file, out) => PrintSimple(c) + [Sym(Operator(out)), Word(file)]
    case _ => [Sym('(')] + Bare(t) + [Sym(')')]
  }

  function PrintPipe(t: Cmd<string>): seq<Lexeme>
    decreases t, 2
  {
    if t.Pipe? then Bare(t) else PrintSimple(t)
  }

  function PrintBack(t: Cmd<string>): seq<Lexeme>
    decreases t, 3
  {
    if t.Back? then Bare(t) else PrintPipe(t)
  }

  function PrintLine(t: Cmd<string>): seq<Lexeme>
    decreases t, 4
  {
    if t.List? then Bare(t) else PrintBack(t)
  }

  function Spelled(l: Lexeme): string {
    match l case Word(w) => w case Sym(c) => [c]
  }

  /** The text of a lexeme list, each followed by a blank. */
  function Render(ls: seq<Lexeme>): string {
    if ls == [] then "" else Spelled(ls[0]) + " " + Render(ls[1..])
  }

  // Reading words back -----------------------------------------------------------------------------

  function WordText(s: string, w: Span): string { if w.q <= w.eq <= |s| then s[w.q..w.eq] else "" }

  /** The tree with its words spelled out. */
  function Texts(s: string, c: Cmd<Span>): Cmd<string> {
    match c
    case Exec(args) => Exec(seq(|args|, i requires 0 <= i < |args| => WordText(s, args[i])))
    case Redir(d, file, out) => Redir(Texts(s, d), WordText(s, file), out)
    case Pipe(l, r) => Pipe(Texts(s, l), Texts(s, r))
    case List(l, r) => List(Texts(s, l), Texts(s, r))
    case Back(d) => Back(Texts(s, d))
  }

  // Tokens that spell a lexeme list ----------------------------------------------------------------

  predicate Spells(s: string, t: Token, l: Lexeme) {
    match l
    case Word(w) => t.kind == 'a' && t.q <= t.eq <= |s| && s[t.q..t.eq] == w
    case Sym(c) => t.kind == c
  }

  /** ts begins with tokens for ls. */
  predicate Starts(s: string, ts: seq<Token>, ls: seq<Lexeme>) {
    |ls| <= |ts| && forall i :: 0 <= i < |ls| ==> Spells(s, ts[i], ls[i])
  }

  lemma StartsTwo(s: string, ts: seq<Token>, a: seq<Lexeme>, b: seq<Lexeme>)
    requires Starts(s, ts, a + b)
    ensures Starts(s, ts, a) && Starts(s, ts[|a|..], b)
  {
    hide Spells;
    forall i | 0 <= i < |a|
      ensures Spells(s, ts[i], a[i])
    {
      assert (a + b)[i] == a[i];
    }
    forall i | 0 <= i < |b|
      ensures Spells(s, ts[|a|..][i], b[i])
    {
      assert (a + b)[|a| + i] == b[i] && ts[|a|..][i] == ts[|a| + i];
    }
  }

  /** A lexeme list, a symbol, and another. */
  lemma StartsThree(s: string, ts: seq<Token>, a: seq<Lexeme>, c: char, b: seq<Lexeme>)
    requires Starts(s, ts, a + [Sym(c)] + b)
    ensures Starts(s, ts, a) && |ts| > |a| && ts[|a|..][0].kind == c && Starts(s, ts[|a| + 1..], b)
    ensures ts[|a|..][1..] == ts[|a| + 1..]
  {
    assert a + [Sym(c)] + b == a + ([Sym(c)] + b);
    StartsTwo(s, ts, a, [Sym(c)] + b);
    StartsTwo(s, ts[|a|..], [Sym(c)], b);
    assert Spells(s, ts[|a|..][0], Sym(c));
  }

  // Where each level stops --------------------------------------------------------------------------

  predicate StopsSimple(ts: seq<Token>) { ts == [] || ts[0].kind in {'|', ')', '&', ';'} }

  predicate StopsPipe(ts: seq<Token>) { ts == [] || ts[0].kind in {')', '&', ';'} }

  predicate StopsLine(ts: seq<Token>) { ts == [] || ts[0].kind == ')' }

  /** r is tree t, read from the first n tokens of ts. */
  predicate Reads(s: string, r: Result, t: Cmd<string>, ts: seq<Token>, n: nat) {
    n <= |ts| && r.Ok? && Texts(s, r.cmd) == t && r.rest == ts[n..]
  }

  // Redirections ---------------------------------------------------------------------------------

  /** The redirections around a command, innermost first, and the command. */
  function Base(t: Cmd<string>): Cmd<string> { if t.Redir? then Base(t.cmd) else t }

  function Chain(t: Cmd<string>): seq<(string, bool)> {
    if t.Redir? then Chain(t.cmd) + [(t.file, t.out)] else []
  }

  function Wrap(t: Cmd<string>, ch: seq<(string, bool)>): Cmd<string>
    decreases |ch|
  {
    if ch == [] then t else Wrap(Redir(t, ch[0].0, ch[0].1), ch[1..])
  }

  function PrintChain(ch: seq<(string, bool)>): seq<Lexeme> {
    if ch == [] then [] else [Sym(Operator(ch[0].1)), Word(ch[0].0)] + PrintChain(ch[1..])
  }

  lemma {:induction false} WrapLast(t: Cmd<string>, ch: seq<(string, bool)>, f: string, out: bool)
    ensures Wrap(t, ch + [(f, out)]) == Redir(Wrap(t, ch), f, out)
    ensures PrintChain(ch + [(f, out)]) == PrintChain(ch) + [Sym(Operator(out)), Word(f)]
    decreases |ch|
  {
    if ch == [] {
    } else {
      assert (ch + [(f, out)])[1..] == ch[1..] + [(f, out)];
      WrapLast(Redir(t, ch[0].0, ch[0].1), ch[1..], f, out);
    }
  }

  lemma {:induction false} Unwrapped(t: Cmd<string>)
    ensures Wrap(Base(t), Chain(t)) == t && !Base(t).Redir?
    ensures PrintSimple(t) == PrintSimple(Base(t)) + PrintChain(Chain(t))
  {
    if t.Redir? {
      Unwrapped(t.cmd);
      WrapLast(Base(t), Chain(t.cmd), t.file, t.out);
    }
  }

  lemma {:induction false} RedirsRead(s: string, c: Cmd<Span>, ch: seq<(string, bool)>, ts: seq<Token>)
    requires Starts(s, ts, PrintChain(ch)) && !Begins(ts[|PrintChain(ch)|..], REDIR)
    ensures Reads(s, Redirs(c, ts), Wrap(Texts(s, c), ch), ts, |PrintChain(ch)|)
    decreases |ch|
  {
    if ch == [] {
      assert ts[0..] == ts;
    } else {
      var two := [Sym(Operator(ch[0].1)), Word(ch[0].0)];
      StartsTwo(s, ts, two, PrintChain(ch[1..]));
      assert Spells(s, ts[0], two[0]) && Spells(s, ts[1], two[1]);
      assert ts[2..][|PrintChain(ch[1..])|..] == ts[|PrintChain(ch)|..];
      RedirsRead(s, Redir(c, WordOf(ts[1]), ch[0].1), ch[1..], ts[2..]);
    }
  }

  // The round trip, level by level -----------------------------------------------------------------

  /** The first of several words, and what is left to read. */
  lemma FirstWord(s: string, args: seq<string>, ls: seq<Lexeme>, ts: seq<Token>)
    requires args != [] && Starts(s, ts, Words(args) + ls)
    ensures |ts| > 0 && ts[0].kind == 'a' && WordText(s, WordOf(ts[0])) == args[0]
    ensures Starts(s, ts[1..], Words(args[1..]) + ls) && |ts| >= |args| + |ls|
    ensures ts[1..][|args[1..]| + |ls|..] == ts[|args| + |ls|..]
  {
    assert Words(args) + ls == [Word(args[0])] + (Words(args[1..]) + ls);
    assert Spells(s, ts[0], (Words(args) + ls)[0]);
    StartsTwo(s, ts, [Word(args[0])], Words(args[1..]) + ls);
  }

  lemma TextsMore(s: string, prev: seq<Span>, w: Span, args: seq<string>)
    requires args != [] && WordText(s, w) == args[0]
    ensures Texts(s, Exec(prev + [w])).args + args[1..] == Texts(s, Exec(prev)).args + args
  {
    assert Texts(s, Exec(prev + [w])).args == Texts(s, Exec(prev)).args + [args[0]];
  }

  lemma {:induction false} ArgsRead(s: string, prev: seq<Span>, args: seq<string>, ch: seq<(string, bool)>,
                                    ts: seq<Token>)
    requires args != [] && |prev| + |args| < MAXARGS
    requires Starts(s, ts, Words(args) + PrintChain(ch)) && StopsSimple(ts[|args| + |PrintChain(ch)|..])
    ensures Reads(s, Args(Exec(prev), |prev|, ts), Wrap(Exec(Texts(s, Exec(prev)).args + args), ch), ts,
              |args| + |PrintChain(ch)|)
    decreases |args|
  {
    hide Spells, Starts, PrintChain, Wrap, Texts, WordText, Redirs, Args;
    var ls := PrintChain(ch);
    FirstWord(s, args, ls, ts);
    var more := prev + [WordOf(ts[0])];
    TextsMore(s, prev, WordOf(ts[0]), args);
    if |args| == 1 {
      assert Words(args[1..]) + ls == ls;
      RedirsRead(s, Exec(more), ch, ts[1..]);
      ExecTexts(s, more);
      assert Texts(s, Exec(more)).args + args[1..] == Texts(s, Exec(more)).args;
      ArgsStep(Exec(prev), |prev|, ts);
      ArgsStop(Redirs(Exec(more), ts[1..]).cmd, |prev| + 1, Redirs(Exec(more), ts[1..]).rest);
    } else {
      FirstWord(s, args[1..], ls, ts[1..]);
      RedirsStop(Exec(more), ts[1..]);
      ArgsStep(Exec(prev), |prev|, ts);
      ArgsRead(s, more, args[1..], ch, ts[1..]);
    }
  }

  lemma ArgsStep(c: Cmd<Span>, argc: nat, ts: seq<Token>)
    requires |ts| > 0 && ts[0].kind == 'a' && argc + 1 < MAXARGS && Redirs(AddArg(c, WordOf(ts[0])), ts[1..]).Ok?
    ensures var r := Redirs(AddArg(c, WordOf(ts[0])), ts[1..]); Args(c, argc, ts) == Args(r.cmd, argc + 1, r.rest)
  {
  }

  lemma ArgsStop(c: Cmd<Span>, argc: nat, ts: seq<Token>)
    requires StopsSimple(ts)
    ensures Args(c, argc, ts) == Ok(c, ts)
  {
  }

  lemma RedirsStop(c: Cmd<Span>, ts: seq<Token>)
    requires |ts| > 0 && ts[0].kind == 'a'
    ensures Redirs(c, ts) == Ok(c, ts)
  {
  }

  lemma ExecTexts(s: string, args: seq<Span>)
    ensures Texts(s, Exec(args)) == Exec(Texts(s, Exec(args)).args)
  {
  }

  /** Which level a tree is taken apart at, and how far a level is above it. */
  function Rank(level: nat, t: Cmd<string>): nat {
    var own :=
      match t
      case Exec(_) => 0
      case Redir(_, _, _) => 0
      case Pipe(_, _) => 1
      case Back(_) => 2
      case List(_, _) => 3;
    (level + 4 - own) % 4
  }

  lemma ChainBegins(s: string, ch: seq<(string, bool)>, ts: seq<Token>)
    requires Starts(s, ts, PrintChain(ch)) && StopsSimple(ts[|PrintChain(ch)|..])
    ensures !Begins(ts, {'('}) && !Begins(ts[|PrintChain(ch)|..], REDIR)
  {
    if ch == [] {
      assert ts[0..] == ts;
    } else {
      assert Spells(s, ts[0], PrintChain(ch)[0]);
    }
  }

  lemma SimpleExecRead(s: string, args: seq<string>, ch: seq<(string, bool)>, ts: seq<Token>)
    requires |args| < MAXARGS
    requires Starts(s, ts, Words(args) + PrintChain(ch)) && StopsSimple(ts[|args| + |PrintChain(ch)|..])
    ensures Reads(s, Simple(ts), Wrap(Exec(args), ch), ts, |args| + |PrintChain(ch)|)
  {
    var ls := PrintChain(ch);
    assert Texts(s, Exec([])) == Exec([]);
    if args == [] {
      assert Words(args) + ls == ls;
      ChainBegins(s, ch, ts);
      hide Spells, Starts, PrintChain, Wrap, Texts, Redirs;
      RedirsRead(s, Exec([]), ch, ts);
    } else {
      FirstWord(s, args, ls, ts);
      hide Spells, Starts, PrintChain, Wrap, Texts;
      assert Redirs(Exec([]), ts) == Ok(Exec([]), ts);
      hide Redirs, Args;
      ArgsRead(s, [], args, ch, ts);
      assert Texts(s, Exec([])).args + args == args;
    }
  }

  lemma {:induction false} SimpleRead(s: string, t: Cmd<string>, ts: seq<Token>)
    requires Buildable(t) && Starts(s, ts, PrintSimple(t)) && StopsSimple(ts[|PrintSimple(t)|..])
    ensures Reads(s, Simple(ts), t, ts, |PrintSimple(t)|)
    decreases t, Rank(0, t)
  {
    hide PrintSimple, PrintLine, PrintChain, Wrap, Texts, Base, Chain, Buildable, Redirs, Simple, Line, Starts, Spells;
    var b, ch := Base(t), Chain(t);
    Unwrapped(t);
    BaseBuildable(t);
    if b.Exec? {
      ExecIs(b);
      SimpleExecRead(s, b.args, ch, ts);
    } else {
      var inner, ls := PrintLine(b), PrintChain(ch);
      CompoundIs(b);
      assert PrintSimple(t) == [Sym('(')] + (inner + [Sym(')')] + ls);
      Parenthesised(s, inner, ls, ts);
      LineRead(s, b, ts[1..]);
      BlockIs(ts);
      RedirsRead(s, Line(ts[1..]).cmd, ch, ts[|inner| + 2..]);
    }
  }

  lemma CompoundIs(t: Cmd<string>)
    requires Compound(t)
    ensures PrintLine(t) == Bare(t) && PrintSimple(t) == [Sym('(')] + PrintLine(t) + [Sym(')')]
  {
    assert PrintPipe(t) == if t.Pipe? then Bare(t) else PrintSimple(t);
    assert PrintBack(t) == if t.Back? then Bare(t) else PrintPipe(t);
    assert PrintLine(t) == if t.List? then Bare(t) else PrintBack(t);
  }

  lemma ExecIs(t: Cmd<string>)
    requires t.Exec? && Buildable(t)
    ensures PrintSimple(t) == Words(t.args) && |t.args| < MAXARGS && t == Exec(t.args)
  {
  }

  lemma BlockIs(ts: seq<Token>)
    requires |ts| > 0
    requires ts[0].kind == '(' && Line(ts[1..]).Ok? && Line(ts[1..]).rest != [] && Line(ts[1..]).rest[0].kind == ')'
    ensures Simple(ts) == Redirs(Line(ts[1..]).cmd, Line(ts[1..]).rest[1..])
  {
  }

  /** Tokens for "(", inner, ")" and ls. */
  lemma Parenthesised(s: string, inner: seq<Lexeme>, ls: seq<Lexeme>, ts: seq<Token>)
    requires Starts(s, ts, [Sym('(')] + (inner + [Sym(')')] + ls))
    ensures |ts| >= |inner| + 2 + |ls| && ts[0].kind == '(' && Starts(s, ts[1..], inner)
    ensures ts[1..][|inner|..][0].kind == ')' && ts[1..][|inner|..][1..] == ts[|inner| + 2..]
              && Starts(s, ts[|inner| + 2..], ls)
    ensures ts[|inner| + 2..][|ls|..] == ts[|[Sym('(')] + (inner + [Sym(')')] + ls)|..]
  {
    StartsTwo(s, ts, [Sym('(')], inner + [Sym(')')] + ls);
    StartsThree(s, ts[1..], inner, ')', ls);
    assert Spells(s, ts[0], ([Sym('(')] + (inner + [Sym(')')] + ls))[0]);
    assert ts[1..][|inner| + 1..] == ts[|inner| + 2..];
  }

  lemma {:induction false} BaseBuildable(t: Cmd<string>)
    requires Buildable(t)
    ensures Buildable(Base(t)) && (Base(t) == t || Base(t) < t)
  {
    if t.Redir? {
      BaseBuildable(t.cmd);
    }
  }

  lemma {:induction false} PipeRead(s: string, t: Cmd<string>, ts: seq<Token>)
    requires Buildable(t) && Starts(s, ts, PrintPipe(t)) && StopsPipe(ts[|PrintPipe(t)|..])
    ensures Reads(s, PipeLine(ts), t, ts, |PrintPipe(t)|)
    decreases t, Rank(1, t)
  {
    if t.Pipe? {
      var a, b := PrintSimple(t.left), PrintPipe(t.right);
      assert PrintPipe(t) == Bare(t);
      assert Bare(t) == a + [Sym('|')] + b;
      StartsThree(s, ts, a, '|', b);
      SimpleRead(s, t.left, ts);
      assert ts[|a| + 1..][|b|..] == ts[|PrintPipe(t)|..];
      PipeRead(s, t.right, ts[|a| + 1..]);
    } else {
      SimpleRead(s, t, ts);
    }
  }

  /** parsepipe and the loop over "&". */
  function BackLevel(ts: seq<Token>): Result {
    var p := PipeLine(ts);
    if p.Panic? then p else Backs(p.cmd, p.rest)
  }

  lemma {:induction false} BackRead(s: string, t: Cmd<string>, ts: seq<Token>) returns (c: Cmd<Span>)
    requires Buildable(t) && Starts(s, ts, PrintBack(t)) && StopsPipe(ts[|PrintBack(t)|..])
    ensures Texts(s, c) == t && BackLevel(ts) == Backs(c, ts[|PrintBack(t)|..])
    decreases t, Rank(2, t)
  {
    if t.Back? {
      var a := PrintBack(t.cmd);
      assert PrintBack(t) == Bare(t);
      assert Bare(t) == a + [Sym('&')] + [];
      StartsThree(s, ts, a, '&', []);
      var d := BackRead(s, t.cmd, ts);
      c := Back(d);
    } else {
      PipeRead(s, t, ts);
      c := PipeLine(ts).cmd;
    }
  }

  lemma {:induction false} LineRead(s: string, t: Cmd<string>, ts: seq<Token>)
    requires Buildable(t) && Starts(s, ts, PrintLine(t)) && StopsLine(ts[|PrintLine(t)|..])
    ensures Reads(s, Line(ts), t, ts, |PrintLine(t)|)
    decreases t, Rank(3, t)
  {
    if t.List? {
      var a, b := PrintBack(t.left), PrintLine(t.right);
      assert PrintLine(t) == Bare(t);
      assert Bare(t) == a + [Sym(';')] + b;
      StartsThree(s, ts, a, ';', b);
      var c := BackRead(s, t.left, ts);
      assert ts[|a| + 1..][|b|..] == ts[|PrintLine(t)|..];
      LineRead(s, t.right, ts[|a| + 1..]);
    } else {
      var c := BackRead(s, t, ts);
    }
  }
}
