/** grep.c's matcher against the language its patterns denote. */
module Grep {

  /** One character, or any run of one; '.' stands for every character. */
  datatype Item = One(c: char) | Star(c: char)

  predicate Hits(c: char, x: char) { c == '.' || c == x }

  // What a pattern means --------------------------------------------------------------------------

  /** A starred character, then a closing '$', then a plain character: in this order, so that
      "$*" is a run of dollars. */
  function Items(re: string): seq<Item> {
    if re == "" then []
    else if |re| >= 2 && re[1] == '*' then [Star(re[0])] + Items(re[2..])
    else if re == "$" then []
    else [One(re[0])] + Items(re[1..])
  }

  predicate Anchored(re: string) {
    if re == "" then false
    else if |re| >= 2 && re[1] == '*' then Anchored(re[2..])
    else if re == "$" then true
    else Anchored(re[1..])
  }

  ghost predicate AllHit(c: char, u: string) { forall i :: 0 <= i < |u| ==> Hits(c, u[i]) }

  /** u is in the language of the items: a concatenation of one word of each. */
  ghost predicate Denotes(items: seq<Item>, u: string) {
    if items == [] then u == ""
    else exists k :: 0 <= k <= |u| && Piece(items[0], u[..k]) && Denotes(items[1..], u[k..])
  }

  ghost predicate Piece(item: Item, u: string) {
    match item
    case One(c) => |u| == 1 && Hits(c, u[0])
    case Star(c) => AllHit(c, u)
  }

  /** A prefix of the text is in the language, the whole of it if the pattern ends in '$'. */
  ghost predicate Here(re: string, text: string) {
    exists n :: 0 <= n <= |text| && Denotes(Items(re), text[..n]) && (Anchored(re) ==> n == |text|)
  }

  /** Some stretch of the text is, from its start if the pattern begins with '^'. */
  ghost predicate Matches(re: string, text: string) {
    if re != "" && re[0] == '^' then Here(re[1..], text)
    else exists k :: 0 <= k <= |text| && Here(re, text[k..])
  }

  // Unfolding one item ------------------------------------------------------------------------------

  lemma HereEmpty(text: string)
    ensures Here("", text)
  {
    assert Denotes(Items(""), text[..0]);
  }

  lemma HereDollar(text: string)
    ensures Here("$", text) <==> text == ""
  {
    assert Items("$") == [] && Anchored("$");
    assert text[..|text|] == text;
  }

  predicate PlainHead(re: string) {
    re != "" && !(|re| >= 2 && re[1] == '*') && re != "$"
  }

  /** The prefix of length n that Here asks for. */
  ghost predicate Reaches(re: string, text: string, n: nat) {
    n <= |text| && Denotes(Items(re), text[..n]) && (Anchored(re) ==> n == |text|)
  }

  lemma HereIff(re: string, text: string)
    ensures Here(re, text) <==> exists n: nat :: Reaches(re, text, n)
  {
    if n: nat :| Reaches(re, text, n) {
      assert Here(re, text);
    }
    if Here(re, text) {
      var n :| 0 <= n <= |text| && Denotes(Items(re), text[..n]) && (Anchored(re) ==> n == |text|);
      assert Reaches(re, text, n);
    }
  }

  /** Taking the first item apart: k characters for it, n - k for the rest. */
  lemma ReachesIff(re: string, rest: string, text: string, n: nat)
    requires Items(re) != [] && Items(re)[1..] == Items(rest) && Anchored(re) == Anchored(rest)
    ensures Reaches(re, text, n) <==> exists k: nat :: Split(Items(re)[0], rest, text, n, k)
  {
    var items := Items(re);
    hide Items, Anchored;
    if Reaches(re, text, n) {
      var k :| 0 <= k <= n && Piece(items[0], text[..n][..k]) && Denotes(items[1..], text[..n][k..]);
      assert text[..n][..k] == text[..k] && text[..n][k..] == text[k..][..n - k];
      hide Denotes;
      assert Split(items[0], rest, text, n, k);
    }
    if k: nat :| Split(items[0], rest, text, n, k) {
      assert text[..n][..k] == text[..k] && text[..n][k..] == text[k..][..n - k];
      assert Piece(items[0], text[..n][..k]) && Denotes(items[1..], text[..n][k..]);
    }
  }

  ghost predicate Split(item: Item, rest: string, text: string, n: nat, k: nat) {
    k <= n <= |text| && Piece(item, text[..k]) && Reaches(rest, text[k..], n - k)
  }

  lemma HereOne(re: string, text: string)
    requires PlainHead(re)
    ensures Here(re, text) <==> text != "" && Hits(re[0], text[0]) && Here(re[1..], text[1..])
  {
    assert Items(re)[0] == One(re[0]) && Items(re)[1..] == Items(re[1..]);
    HereIff(re, text);
    HereIff(re[1..], if text == "" then "" else text[1..]);
    forall n: nat
      ensures Reaches(re, text, n) <==> exists k: nat :: Split(One(re[0]), re[1..], text, n, k)
    {
      ReachesIff(re, re[1..], text, n);
    }
    hide Here, Reaches;
    if n: nat, k: nat :| Split(One(re[0]), re[1..], text, n, k) {
      assert Reaches(re[1..], text[1..], n - 1);
    }
    if text != "" && Hits(re[0], text[0]) && Here(re[1..], text[1..]) {
      var n: nat :| Reaches(re[1..], text[1..], n);
      ReachesWithin(re[1..], text[1..], n);
      assert Split(One(re[0]), re[1..], text, n + 1, 1);
      assert Reaches(re, text, n + 1);
    }
  }

  lemma ReachesWithin(re: string, text: string, n: nat)
    requires Reaches(re, text, n)
    ensures n <= |text|
  {
  }

  /** A run of k characters that c stands for, and the rest of the pattern after it. */
  ghost predicate Run(c: char, re: string, text: string, k: nat) {
    k <= |text| && AllHit(c, text[..k]) && Here(re, text[k..])
  }

  lemma HereStar(re: string, text: string)
    requires |re| >= 2 && re[1] == '*'
    ensures Here(re, text) <==> exists k: nat :: Run(re[0], re[2..], text, k)
  {
    assert Items(re)[0] == Star(re[0]) && Items(re)[1..] == Items(re[2..]);
    HereIff(re, text);
    forall n: nat
      ensures Reaches(re, text, n) <==> exists k: nat :: Split(Star(re[0]), re[2..], text, n, k)
    {
      ReachesIff(re, re[2..], text, n);
    }
    hide Here, Reaches, AllHit;
    if n: nat, k: nat :| Split(Star(re[0]), re[2..], text, n, k) {
      HereIff(re[2..], text[k..]);
      assert Run(re[0], re[2..], text, k);
    }
    if k: nat :| Run(re[0], re[2..], text, k) {
      HereIff(re[2..], text[k..]);
      var n: nat :| Reaches(re[2..], text[k..], n);
      ReachesWithin(re[2..], text[k..], n);
      assert Split(Star(re[0]), re[2..], text, k + n, k);
      assert Reaches(re, text, k + n);
    }
  }

  // The matcher ---------------------------------------------------------------------------------------

  method Match(re: string, text: string) returns (r: bool)
    ensures r <==> Matches(re, text)
  {
    if re != "" && re[0] == '^' {
      r := MatchHere(re[1..], text);
      return;
    }
    var i := 0;
    while true
      invariant 0 <= i <= |text| && forall k :: 0 <= k < i ==> !Here(re, text[k..])
      decreases |text| - i
    {
      var here := MatchHere(re, text[i..]);
      if here {
        return true;
      }
      if i == |text| {
        return false;
      }
      i := i + 1;
    }
  }

  method MatchHere(re: string, text: string) returns (r: bool)
    ensures r <==> Here(re, text)
    decreases |re|, 0
  {
    hide Here, Items, Anchored;
    if re == "" {
      HereEmpty(text);
      return true;
    }
    if |re| >= 2 && re[1] == '*' {
      HereStar(re, text);
      r := MatchStar(re[0], re[2..], text);
      return;
    }
    if re == "$" {
      HereDollar(text);
      return text == "";
    }
    HereOne(re, text);
    if text != "" && (re[0] == '.' || re[0] == text[0]) {
      r := MatchHere(re[1..], text[1..]);
      return;
    }
    return false;
  }

  method MatchStar(c: char, re: string, text: string) returns (r: bool)
    ensures r <==> exists k: nat :: Run(c, re, text, k)
    decreases |re|, 1
  {
    hide Here;
    var i := 0;
    while true
      invariant 0 <= i <= |text| && AllHit(c, text[..i])
      invariant forall k :: 0 <= k < i ==> !Here(re, text[k..])
      decreases |text| - i
    {
      var here := MatchHere(re, text[i..]);
      if here {
        assert Run(c, re, text, i);
        return true;
      }
      if i == |text| || !(text[i] == c || c == '.') {
        NoRun(c, re, text, i);
        return false;
      }
      i := i + 1;
    }
  }

  lemma NoRun(c: char, re: string, text: string, i: nat)
    requires i <= |text| && (i < |text| ==> !Hits(c, text[i])) && forall k :: 0 <= k <= i ==> !Here(re, text[k..])
    ensures forall k: nat :: !Run(c, re, text, k)
  {
    hide Here;
    forall k: nat
      ensures !Run(c, re, text, k)
    {
      if k > i && k <= |text| {
        assert !Hits(c, text[..k][i]);
      }
    }
  }
}
