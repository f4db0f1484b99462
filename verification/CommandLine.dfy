/** What a simple command and its redirections are, read off the tokens from left to right. */
module CommandLine {
  import opened Lexer
  import opened Grammar

  /** The words that are arguments, in order: those that no redirection takes for its file. */
  function ArgWords(ts: seq<Token>): seq<Span>
    decreases |ts|
  {
    if Begins(ts, REDIR) then
      if |ts| >= 2 && ts[1].kind == 'a' then ArgWords(ts[2..]) else []
    else if ts != [] && ts[0].kind == 'a' then [WordOf(ts[0])] + ArgWords(ts[1..])
    else []
  }

  /** The redirections, in order: file, and whether it is for output. */
  function FileWords(ts: seq<Token>): seq<(Span, bool)>
    decreases |ts|
  {
    if Begins(ts, REDIR) then
      if |ts| >= 2 && ts[1].kind == 'a' then [(WordOf(ts[1]), ts[0].kind != '<')] + FileWords(ts[2..]) else []
    else if ts != [] && ts[0].kind == 'a' then FileWords(ts[1..])
    else []
  }

  /** What is left after the words and redirections. */
  function Beyond(ts: seq<Token>): seq<Token>
    decreases |ts|
  {
    if Begins(ts, REDIR) then
      if |ts| >= 2 && ts[1].kind == 'a' then Beyond(ts[2..]) else ts
    else if ts != [] && ts[0].kind == 'a' then Beyond(ts[1..])
    else ts
  }

  /** A command to execute, with redirections around it. */
  predicate IsSimple<W>(c: Cmd<W>) { if c.Redir? then IsSimple(c.cmd) else c.Exec? }

  function Argv<W>(c: Cmd<W>): seq<W>
    requires IsSimple(c)
  {
    if c.Redir? then Argv(c.cmd) else c.args
  }

  /** The redirections in the order in which they were given, the innermost first. */
  function Files<W>(c: Cmd<W>): seq<(W, bool)> {
    if c.Redir? then Files(c.cmd) + [(c.file, c.out)] else []
  }

  function Inside<W>(c: Cmd<W>): Cmd<W> { if c.Redir? then Inside(c.cmd) else c }

  lemma {:induction false} ArgAdded<W>(c: Cmd<W>, a: W)
    requires IsSimple(c)
    ensures IsSimple(AddArg(c, a)) && Argv(AddArg(c, a)) == Argv(c) + [a] && Files(AddArg(c, a)) == Files(c)
  {
    if c.Redir? {
      ArgAdded(c.cmd, a);
    }
  }

  /** parseredirs leaves every word that is not a file's name. */
  lemma {:induction false} RedirsLeave(c: Cmd<Span>, ts: seq<Token>)
    ensures var r := Redirs(c, ts);
            && (r.Ok? ==> !Begins(r.rest, REDIR) && ArgWords(r.rest) == ArgWords(ts) && Beyond(r.rest) == Beyond(ts))
            && (r.Panic? ==> ArgWords(ts) == [] && Begins(Beyond(ts), REDIR))
    decreases |ts|
  {
    if !Begins(ts, REDIR) || |ts| < 2 || ts[1].kind != 'a' {
    } else {
      RedirsLeave(Redir(c, WordOf(ts[1]), ts[0].kind != '<'), ts[2..]);
    }
  }

  lemma FileFirst(ts: seq<Token>, before: seq<(Span, bool)>)
    requires Begins(ts, REDIR) && |ts| >= 2 && ts[1].kind == 'a'
    ensures (before + [(WordOf(ts[1]), ts[0].kind != '<')]) + FileWords(ts[2..]) == before + FileWords(ts)
  {
  }

  /** It takes all the redirections that come next, in order, and leaves the command inside alone. */
  lemma {:induction false} RedirsTake(c: Cmd<Span>, ts: seq<Token>)
    requires Redirs(c, ts).Ok?
    ensures var r := Redirs(c, ts);
            && Inside(r.cmd) == Inside(c) && (IsSimple(c) ==> IsSimple(r.cmd) && Argv(r.cmd) == Argv(c))
            && Files(r.cmd) + FileWords(r.rest) == Files(c) + FileWords(ts)
    decreases |ts|
  {
    hide FileWords;
    if !Begins(ts, REDIR) {
    } else {
      RedirsTake(Redir(c, WordOf(ts[1]), ts[0].kind != '<'), ts[2..]);
      FileFirst(ts, Files(c));
    }
  }

  /** A word begins neither a redirection nor anything that ends the command. */
  lemma WordFirst(ts: seq<Token>)
    requires ts != [] && ts[0].kind == 'a'
    ensures !Begins(ts, STOP) && !Begins(ts, REDIR)
  {
  }

  lemma {:induction false} ArgsTake(c: Cmd<Span>, argc: nat, ts: seq<Token>)
    requires !Begins(ts, REDIR) && IsSimple(c) && argc < MAXARGS
    ensures var r := Args(c, argc, ts);
            && (r.Ok? <==> argc + |ArgWords(ts)| < MAXARGS && (Beyond(ts) == [] || Begins(Beyond(ts), STOP)))
            && (r.Ok? ==>
                  && IsSimple(r.cmd) && r.rest == Beyond(ts)
                  && Argv(r.cmd) == Argv(c) + ArgWords(ts) && Files(r.cmd) == Files(c) + FileWords(ts))
    decreases |ts|
  {
    hide Redirs, Inside, AddArg;
    if ts == [] || ts[0].kind != 'a' {
    } else {
      WordFirst(ts);
      var d := AddArg(c, WordOf(ts[0]));
      ArgAdded(c, WordOf(ts[0]));
      RedirsLeave(d, ts[1..]);
      var r := Redirs(d, ts[1..]);
      if r.Ok? && argc + 1 < MAXARGS {
        RedirsTake(d, ts[1..]);
        ArgsTake(r.cmd, argc + 1, r.rest);
      }
    }
  }

  /** A simple command: its arguments are the words in the order of the text, wherever its
      redirections stand among them, and its redirections are in order too. It is accepted exactly
      when there are fewer than ten arguments and what comes next ends a command. */
  lemma SimpleIs(ts: seq<Token>)
    requires !Begins(ts, {'('})
    ensures var r := Simple(ts);
            && (r.Ok? <==> |ArgWords(ts)| < MAXARGS && (Beyond(ts) == [] || Begins(Beyond(ts), STOP)))
            && (r.Ok? ==>
                  && IsSimple(r.cmd) && r.rest == Beyond(ts)
                  && Argv(r.cmd) == ArgWords(ts) && Files(r.cmd) == FileWords(ts))
  {
    RedirsLeave(Exec([]), ts);
    var r := Redirs(Exec([]), ts);
    if r.Ok? {
      RedirsTake(Exec([]), ts);
      ArgsTake(r.cmd, 0, r.rest);
    }
  }

  /** A parenthesised line: the line inside, with the redirections that follow it around it. */
  lemma BlockIs(ts: seq<Token>)
    requires Begins(ts, {'('}) && Block(ts).Ok?
    ensures var line, r := Line(ts[1..]), Block(ts);
            && line.Ok? && Begins(line.rest, {')'})
            && Inside(r.cmd) == Inside(line.cmd)
            && Files(r.cmd) + FileWords(r.rest) == Files(line.cmd) + FileWords(line.rest[1..])
  {
    var line := Line(ts[1..]);
    RedirsTake(line.cmd, line.rest[1..]);
  }
}
