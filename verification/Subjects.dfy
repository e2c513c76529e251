/** Subject patterns: tokens, matching and overlap. */
module Subjects {
  predicate HasPrefix(s: string, prefix: string) {
    prefix <= s
  }

  predicate NoDot(token: string) {
    '.' !in token
  }

  /** The tokens between the dots; the empty string has one empty token. */
  function Split(s: string): (tokens: seq<string>)
    ensures tokens != [] && forall k :: 0 <= k < |tokens| ==> NoDot(tokens[k])
  {
    if s == "" then [""]
    else
      var rest := Split(s[1..]);
      if s[0] == '.' then [""] + rest else [[s[0]] + rest[0]] + rest[1..]
  }

  function Join(tokens: seq<string>): string
    requires tokens != []
  {
    if |tokens| == 1 then tokens[0] else tokens[0] + "." + Join(tokens[1..])
  }

  lemma {:induction false} SplitPrefix(token: string, rest: string)
    requires NoDot(token)
    ensures Split(token + "." + rest) == [token] + Split(rest)
  {
    var s := token + "." + rest;
    if token == "" {
      assert s[0] == '.' && s[1..] == rest;
    } else {
      assert s[0] == token[0] && s[1..] == token[1..] + "." + rest;
      assert token[0] in token && [token[0]] + token[1..] == token;
      SplitPrefix(token[1..], rest);
    }
  }

  lemma {:induction false} SplitToken(token: string)
    requires NoDot(token)
    ensures Split(token) == [token]
  {
    if token != "" {
      assert token[0] in token && [token[0]] + token[1..] == token;
      SplitToken(token[1..]);
    }
  }

  /** Every non-empty list of dot-free tokens is the split of a subject. */
  lemma {:induction false} SplitOfJoin(tokens: seq<string>)
    requires tokens != [] && forall k :: 0 <= k < |tokens| ==> NoDot(tokens[k])
    ensures Split(Join(tokens)) == tokens
  {
    if |tokens| == 1 {
      SplitToken(tokens[0]);
    } else {
      SplitOfJoin(tokens[1..]);
      SplitPrefix(tokens[0], Join(tokens[1..]));
    }
  }

  /** One token may stand for the other. */
  predicate Stands(pattern: string, token: string) {
    pattern == "*" || pattern == token
  }

  /** The tail wildcard takes one token or more. */
  predicate TokensMatch(pattern: seq<string>, subject: seq<string>) {
    if pattern == [] then subject == []
    else if subject == [] then false
    else pattern[0] == ">" || (Stands(pattern[0], subject[0]) && TokensMatch(pattern[1..], subject[1..]))
  }

  predicate Matches(pattern: string, subject: string) {
    TokensMatch(Split(pattern), Split(subject))
  }

  predicate TokensOverlap(left: seq<string>, right: seq<string>) {
    if left == [] || right == [] then left == right
    else if left[0] == ">" || right[0] == ">" then true
    else (left[0] == "*" || right[0] == "*" || left[0] == right[0]) && TokensOverlap(left[1..], right[1..])
  }

  predicate Overlap(first: string, second: string) {
    TokensOverlap(Split(first), Split(second))
  }

  method SubjectMatches(pattern: string, subject: string) returns (matched: bool)
    ensures matched == Matches(pattern, subject)
  {
    var patternTokens, subjectTokens := Split(pattern), Split(subject);
    var i := 0;
    while i < |patternTokens|
      invariant 0 <= i <= |patternTokens| && i <= |subjectTokens|
      invariant Matches(pattern, subject) == TokensMatch(patternTokens[i..], subjectTokens[i..])
    {
      if patternTokens[i] == ">" {
        return |subjectTokens| > i;
      }
      if i >= |subjectTokens| {
        return false;
      }
      if patternTokens[i] != "*" && patternTokens[i] != subjectTokens[i] {
        return false;
      }
      assert patternTokens[i..][1..] == patternTokens[i + 1..] && subjectTokens[i..][1..] == subjectTokens[i + 1..];
      i := i + 1;
    }
    return |patternTokens| == |subjectTokens|;
  }

  method SubjectsOverlap(first: string, second: string) returns (overlap: bool)
    ensures overlap == Overlap(first, second)
  {
    var left, right := Split(first), Split(second);
    var i := 0;
    while i < |left| && i < |right|
      invariant 0 <= i <= |left| && i <= |right|
      invariant Overlap(first, second) == TokensOverlap(left[i..], right[i..])
    {
      if left[i] == ">" || right[i] == ">" {
        return true;
      }
      if left[i] != "*" && right[i] != "*" && left[i] != right[i] {
        return false;
      }
      assert left[i..][1..] == left[i + 1..] && right[i..][1..] == right[i + 1..];
      i := i + 1;
    }
    return |left| == |right|;
  }

  method MatchesAnyPattern(subject: string, patterns: seq<string>) returns (matched: bool)
    ensures matched == exists k :: 0 <= k < |patterns| && Matches(patterns[k], subject)
  {
    var n := 0;
    while n < |patterns|
      invariant 0 <= n <= |patterns|
      invariant forall k :: 0 <= k < n ==> !Matches(patterns[k], subject)
    {
      var hit := SubjectMatches(patterns[n], subject);
      if hit {
        return true;
      }
      n := n + 1;
    }
    return false;
  }

  predicate Wildcard(token: string) {
    token == "*" || token == ">"
  }

  /** A subject to publish on: no token is a wildcard. */
  ghost predicate Concrete(subject: string) {
    forall k :: 0 <= k < |Split(subject)| ==> !Wildcard(Split(subject)[k])
  }

  function Plain(token: string): (plain: string)
    ensures !Wildcard(plain) && (NoDot(token) ==> NoDot(plain)) && (token != "" ==> plain != "")
  {
    if Wildcard(token) then "x" else token
  }

  /** A concrete subject of one pattern. */
  function Sample(pattern: seq<string>): seq<string> {
    if pattern == [] then []
    else if pattern[0] == ">" then ["x"]
    else [Plain(pattern[0])] + Sample(pattern[1..])
  }

  /** A concrete subject of two overlapping patterns. */
  function Witness(left: seq<string>, right: seq<string>): seq<string> {
    if left == [] || right == [] then []
    else if left[0] == ">" then Sample(right)
    else if right[0] == ">" then Sample(left)
    else [Plain(if left[0] == "*" then right[0] else left[0])] + Witness(left[1..], right[1..])
  }

  ghost predicate Clean(tokens: seq<string>) {
    forall k :: 0 <= k < |tokens| ==> NoDot(tokens[k]) && !Wildcard(tokens[k])
  }

  ghost predicate NoDots(tokens: seq<string>) {
    forall k :: 0 <= k < |tokens| ==> NoDot(tokens[k])
  }

  ghost predicate NoneEmpty(tokens: seq<string>) {
    forall k :: 0 <= k < |tokens| ==> tokens[k] != ""
  }

  lemma {:induction false} SampleMatches(pattern: seq<string>)
    requires NoDots(pattern)
    ensures TokensMatch(pattern, Sample(pattern)) && Clean(Sample(pattern))
    ensures pattern != [] ==> Sample(pattern) != []
    ensures NoneEmpty(pattern) ==> NoneEmpty(Sample(pattern))
  {
    if pattern != [] {
      SampleMatches(pattern[1..]);
    }
  }

  lemma {:induction false} WitnessMatches(left: seq<string>, right: seq<string>)
    requires TokensOverlap(left, right) && NoDots(left) && NoDots(right)
    ensures TokensMatch(left, Witness(left, right)) && TokensMatch(right, Witness(left, right))
    ensures Clean(Witness(left, right))
    ensures left != [] ==> Witness(left, right) != []
    ensures NoneEmpty(left) && NoneEmpty(right) ==> NoneEmpty(Witness(left, right))
  {
    if left != [] && right != [] {
      if left[0] == ">" {
        SampleMatches(right);
      } else if right[0] == ">" {
        SampleMatches(left);
      } else {
        WitnessMatches(left[1..], right[1..]);
        assert Witness(left, right)[1..] == Witness(left[1..], right[1..]);
      }
    }
  }

  lemma {:induction false} MatchingTokensOverlap(left: seq<string>, right: seq<string>, subject: seq<string>)
    requires TokensMatch(left, subject) && TokensMatch(right, subject)
    ensures TokensOverlap(left, right)
  {
    if left != [] && right != [] && left[0] != ">" && right[0] != ">" {
      MatchingTokensOverlap(left[1..], right[1..], subject[1..]);
    }
  }

  /** Patterns that both match some subject overlap, whatever the subject looks like. */
  lemma MatchedOverlap(first: string, second: string, subject: string)
    requires Matches(first, subject) && Matches(second, subject)
    ensures Overlap(first, second)
  {
    MatchingTokensOverlap(Split(first), Split(second), Split(subject));
  }

  /** Overlap is exact: it holds if and only if some concrete subject matches both patterns; patterns
      without empty tokens share a subject without empty tokens. */
  lemma OverlapIsExact(first: string, second: string)
    ensures Overlap(first, second) <==> exists s: string :: Concrete(s) && Matches(first, s) && Matches(second, s)
    ensures Overlap(first, second) && NoneEmpty(Split(first)) && NoneEmpty(Split(second)) ==>
      exists s: string :: Concrete(s) && NoneEmpty(Split(s)) && Matches(first, s) && Matches(second, s)
  {
    if Overlap(first, second) {
      var tokens := Witness(Split(first), Split(second));
      WitnessMatches(Split(first), Split(second));
      SplitOfJoin(tokens);
      var s := Join(tokens);
      assert Concrete(s) && Matches(first, s) && Matches(second, s);
    }
    if s: string :| Concrete(s) && Matches(first, s) && Matches(second, s) {
      MatchedOverlap(first, second, s);
    }
  }
}
