/** The shell's tokens: gettoken and peek of sh.c. */
module Lexer {

  predicate Space(c: char) { c in {' ', '\t', '\r', '\n', '\U{B}'} }

  predicate Symbol(c: char) { c in {'<', '|', '>', '&', ';', '(', ')'} }

  /** A character of a word. */
  predicate Plain(c: char) { !Space(c) && !Symbol(c) && c != '\0' }

  /** A C string without its terminator. */
  predicate Text(s: string) { forall i :: 0 <= i < |s| ==> s[i] != '\0' }

  /** kind is the symbol itself, '+' for ">>", or 'a' for a word; it is s[q..eq]. */
  datatype Token = Token(kind: char, q: nat, eq: nat)

  function Skip(s: string, p: nat): (r: nat)
    requires p <= |s|
    ensures p <= r <= |s| && (r < |s| ==> !Space(s[r]))
    ensures forall i :: p <= i < r ==> Space(s[i])
    decreases |s| - p
  {
    if p < |s| && Space(s[p]) then Skip(s, p + 1) else p
  }

  function WordEnd(s: string, p: nat): (r: nat)
    requires p <= |s|
    ensures p <= r <= |s| && (r < |s| ==> Space(s[r]) || Symbol(s[r]))
    ensures forall i :: p <= i < r ==> !Space(s[i]) && !Symbol(s[i])
    decreases |s| - p
  {
    if p < |s| && !Space(s[p]) && !Symbol(s[p]) then WordEnd(s, p + 1) else p
  }

  /** The token that starts at q. */
  function TokenAt(s: string, q: nat): (t: Token)
    requires q < |s| && !Space(s[q])
    ensures t.q == q < t.eq <= |s|
  {
    if s[q] == '>' && q + 1 < |s| && s[q + 1] == '>' then Token('+', q, q + 2)
    else if Symbol(s[q]) then Token(s[q], q, q + 1)
    else Token('a', q, WordEnd(s, q))
  }

  /** The tokens from position p on. */
  function Lex(s: string, p: nat): seq<Token>
    requires p <= |s|
    decreases |s| - p
  {
    var q := Skip(s, p);
    if q == |s| then [] else [TokenAt(s, q)] + Lex(s, TokenAt(s, q).eq)
  }

  lemma {:induction false} SkipIs(s: string, p: nat, r: nat)
    requires p <= r <= |s| && (r < |s| ==> !Space(s[r])) && forall i :: p <= i < r ==> Space(s[i])
    ensures Skip(s, p) == r
    decreases r - p
  {
    if p >= r {
    } else {
      SkipIs(s, p + 1, r);
    }
  }

  lemma {:induction false} WordEndIs(s: string, p: nat, r: nat)
    requires p <= r <= |s| && (r < |s| ==> Space(s[r]) || Symbol(s[r]))
    requires forall i :: p <= i < r ==> !Space(s[i]) && !Symbol(s[i])
    ensures WordEnd(s, p) == r
    decreases r - p
  {
    if p >= r {
    } else {
      WordEndIs(s, p + 1, r);
    }
  }

  /** Blanks before a token do not matter. */
  lemma LexSkips(s: string, p: nat, r: nat)
    requires p <= r <= |s| && forall i :: p <= i < r ==> Space(s[i])
    ensures Lex(s, r) == Lex(s, p)
  {
    SkipOver(s, p, r);
  }

  lemma {:induction false} SkipOver(s: string, p: nat, r: nat)
    requires p <= r <= |s| && forall i :: p <= i < r ==> Space(s[i])
    ensures Skip(s, p) == Skip(s, r)
    decreases r - p
  {
    if p >= r {
    } else {
      SkipOver(s, p + 1, r);
    }
  }

  /** gettoken: the next token and the position past it and the blanks after it. */
  method Gettoken(s: string, p: nat) returns (kind: char, q: nat, eq: nat, next: nat)
    requires Text(s) && p <= |s|
    ensures q <= eq <= next <= |s|
    ensures Lex(s, p) == [] ==> kind == '\0' && next == |s|
    ensures Lex(s, p) != [] ==> Token(kind, q, eq) == Lex(s, p)[0] && Lex(s, next) == Lex(s, p)[1..]
  {
    var i := SkipBlanks(s, p);
    q := i;
    if i == |s| {
      return '\0', i, i, i;
    }
    kind := s[i];
    if kind in {'|', '(', ')', ';', '&', '<'} {
      i := i + 1;
    } else if kind == '>' {
      i := i + 1;
      if i < |s| && s[i] == '>' {
        kind := '+';
        i := i + 1;
      }
    } else {
      kind := 'a';
      while i < |s| && !Space(s[i]) && !Symbol(s[i])
        invariant q <= i <= |s| && forall k :: q <= k < i ==> !Space(s[k]) && !Symbol(s[k])
      {
        i := i + 1;
      }
      WordEndIs(s, q, i);
    }
    eq := i;
    assert TokenAt(s, q) == Token(kind, q, eq);
    next := SkipBlanks(s, eq);
    LexSkips(s, eq, next);
  }

  method SkipBlanks(s: string, p: nat) returns (i: nat)
    requires p <= |s|
    ensures p <= i <= |s| && i == Skip(s, p)
  {
    i := p;
    while i < |s| && Space(s[i])
      invariant p <= i <= |s| && forall k :: p <= k < i ==> Space(s[k])
    {
      i := i + 1;
    }
    SkipIs(s, p, i);
  }

  /** Whether a token starts with one of these symbols. */
  predicate Begins(ts: seq<Token>, toks: set<char>) {
    ts != [] && (ts[0].kind in toks || (ts[0].kind == '+' && '>' in toks))
  }

  method Peek(s: string, p: nat, toks: set<char>) returns (r: bool, next: nat)
    requires Text(s) && p <= |s| && forall c :: c in toks ==> Symbol(c)
    ensures p <= next <= |s| && Lex(s, next) == Lex(s, p) && (next < |s| ==> !Space(s[next]))
    ensures r <==> Begins(Lex(s, p), toks)
  {
    next := SkipBlanks(s, p);
    LexSkips(s, p, next);
    r := next < |s| && s[next] in toks;
  }

  /** A word's bytes are plain, and what follows it is not. */
  lemma {:induction false} LexWords(s: string, p: nat, k: nat)
    requires Text(s) && p <= |s| && k < |Lex(s, p)|
    ensures var t := Lex(s, p)[k]; p <= t.q < t.eq <= |s|
    ensures var t := Lex(s, p)[k];
            t.kind == 'a' ==> (forall i :: t.q <= i < t.eq ==> Plain(s[i])) && (t.eq < |s| ==> !Plain(s[t.eq]))
    decreases |s| - p
  {
    if k == 0 {
    } else {
      LexWords(s, TokenAt(s, Skip(s, p)).eq, k - 1);
    }
  }
}
