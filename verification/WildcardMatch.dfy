/**
 The wildcard matcher for proxy override rules: it splits the pattern at `*` and searches
 greedily, taking the leftmost occurrence of every middle part. `Glob` is the declarative
 meaning; the method returns exactly it.
 */
module WildcardMatch {
  import opened Text

  /** `*` matches any string, every other character matches itself. */
  ghost predicate Glob(pattern: string, value: string) {
    if pattern == "" then value == ""
    else if pattern[0] == '*' then exists k :: 0 <= k <= |value| && Glob(pattern[1..], value[k..])
    else value != "" && value[0] == pattern[0] && Glob(pattern[1..], value[1..])
  }

  /** A literal front matches exactly itself. */
  lemma {:induction false} GlobLiteral(literal: string, pattern: string, value: string)
    requires '*' !in literal
    ensures Glob(literal + pattern, value) <==> literal <= value && Glob(pattern, value[|literal|..])
  {
    if literal == "" {
      assert literal + pattern == pattern;
    } else {
      assert (literal + pattern)[1..] == literal[1..] + pattern;
      if value != "" && value[0] == literal[0] {
        GlobLiteral(literal[1..], pattern, value[1..]);
        assert literal <= value <==> literal[1..] <= value[1..];
        if literal <= value {
          assert value[1..][|literal| - 1..] == value[|literal|..];
        }
      }
    }
  }

  /** A star may swallow any front. */
  lemma GlobStar(pattern: string, value: string)
    ensures Glob("*" + pattern, value) <==> exists k :: 0 <= k <= |value| && Glob(pattern, value[k..])
  {
    assert ("*" + pattern)[1..] == pattern;
  }

  /** What a starred pattern matches behind some position it also matches before it. */
  lemma GlobStarEarlier(pattern: string, value: string, k: nat)
    requires k <= |value| && Glob("*" + pattern, value[k..])
    ensures Glob("*" + pattern, value)
  {
    GlobStar(pattern, value[k..]);
    var j :| 0 <= j <= |value| - k && Glob(pattern, value[k..][j..]);
    assert value[k..][j..] == value[k + j..];
    GlobStar(pattern, value);
  }

  predicate OccursAt(part: string, value: string, i: nat) {
    i + |part| <= |value| && value[i..i + |part|] == part
  }

  /** The leftmost occurrence, as the library's `find` returns it. */
  method Find(value: string, part: string) returns (found: bool, index: nat)
    ensures found ==> OccursAt(part, value, index) && forall j :: 0 <= j < index ==> !OccursAt(part, value, j)
    ensures !found ==> forall j: nat :: !OccursAt(part, value, j)
  {
    index := 0;
    while index + |part| <= |value|
      invariant forall j :: 0 <= j < index ==> !OccursAt(part, value, j)
    {
      if value[index..index + |part|] == part {
        return true, index;
      }
      index := index + 1;
    }
    found := false;
  }

  lemma OccursAsPrefix(part: string, value: string, k: nat)
    requires k <= |value|
    ensures part <= value[k..] <==> OccursAt(part, value, k)
  {
    if part <= value[k..] {
      assert value[k..k + |part|] == value[k..][..|part|];
    }
    if OccursAt(part, value, k) {
      assert value[k..][..|part|] == value[k..k + |part|];
    }
  }

  /** Taking the leftmost occurrence of a middle part is never worse than any other choice. */
  lemma GreedyStep(part: string, pattern: string, value: string, index: nat)
    requires '*' !in part
    requires OccursAt(part, value, index) && forall j :: 0 <= j < index ==> !OccursAt(part, value, j)
    ensures Glob("*" + part + "*" + pattern, value) <==> Glob("*" + pattern, value[index + |part|..])
  {
    hide Glob;
    var rest := "*" + pattern;
    var whole := part + rest;
    var behind := value[index + |part|..];
    assert "*" + part + "*" + pattern == "*" + whole;
    GlobStar(whole, value);
    if Glob(rest, behind) {
      GlobLiteral(part, rest, value[index..]);
      OccursAsPrefix(part, value, index);
      assert value[index..][|part|..] == behind;
      assert Glob(whole, value[index..]);
    }
    if Glob("*" + whole, value) {
      var k :| 0 <= k <= |value| && Glob(whole, value[k..]);
      GlobLiteral(part, rest, value[k..]);
      OccursAsPrefix(part, value, k);
      assert index <= k;
      assert value[k..][|part|..] == behind[k - index..];
      GlobStarEarlier(pattern, behind, k - index);
    }
  }

  lemma NoOccurrence(part: string, pattern: string, value: string)
    requires '*' !in part
    requires forall j: nat :: !OccursAt(part, value, j)
    ensures !Glob("*" + part + pattern, value)
  {
    hide Glob;
    assert "*" + part + pattern == "*" + (part + pattern);
    GlobStar(part + pattern, value);
    forall k | 0 <= k <= |value|
      ensures !Glob(part + pattern, value[k..])
    {
      GlobLiteral(part, pattern, value[k..]);
      OccursAsPrefix(part, value, k);
    }
  }

  lemma OnlyLiteral(literal: string, value: string)
    requires '*' !in literal
    ensures Glob(literal, value) <==> literal == value
  {
    GlobLiteral(literal, "", value);
    assert literal + "" == literal;
  }

  /** A last part behind a star matches exactly as a suffix. */
  lemma {:induction false} LastPart(part: string, value: string)
    requires '*' !in part
    ensures Glob("*" + part, value) <==> |part| <= |value| && value[|value| - |part|..] == part
  {
    hide Glob;
    GlobStar(part, value);
    forall k | 0 <= k <= |value|
      ensures Glob(part, value[k..]) <==> value[k..] == part
    {
      OnlyLiteral(part, value[k..]);
    }
    if |part| <= |value| && value[|value| - |part|..] == part {
      assert Glob(part, value[|value| - |part|..]);
    }
  }

  /** The pattern that is still to be matched when the parts from `i` on remain, behind a star. */
  function Behind(parts: seq<string>, i: nat): string
    requires 1 <= i < |parts|
  {
    "*" + Join(parts[i..], "*")
  }

  lemma BehindStep(parts: seq<string>, i: nat)
    requires 1 <= i < |parts| - 1
    ensures Behind(parts, i) == "*" + parts[i] + Behind(parts, i + 1)
    ensures Behind(parts, i) == "*" + parts[i] + "*" + Join(parts[i + 1..], "*")
  {
    assert parts[i..][1..] == parts[i + 1..];
  }

  /** An empty middle part changes nothing. */
  lemma EmptyPart(pattern: string, value: string)
    ensures Glob("*" + "" + "*" + pattern, value) <==> Glob("*" + pattern, value)
  {
    GreedyStep("", pattern, value, 0);
  }

  /** The greedy matcher. */
  method Matches(pattern: string, value: string) returns (matches: bool)
    ensures matches <==> Glob(pattern, value)
  {
    hide Glob, SplitOn;
    if pattern == "*" {
      LastPart("", value);
      assert "*" + "" == pattern;
      return true;
    }
    var parts := SplitOn(pattern, '*');
    if |parts| == 1 {
      OnlyLiteral(pattern, value);
      return pattern == value;
    }
    var rest := value;
    assert pattern == parts[0] + Behind(parts, 1);
    GlobLiteral(parts[0], Behind(parts, 1), value);
    if parts[0] != "" {
      if !(parts[0] <= rest) {
        return false;
      }
      rest := rest[|parts[0]|..];
    }
    var i := 1;
    while i < |parts| - 1
      invariant 1 <= i <= |parts| - 1
      invariant Glob(pattern, value) <==> Glob(Behind(parts, i), rest)
    {
      var part := parts[i];
      BehindStep(parts, i);
      if part == "" {
        EmptyPart(Join(parts[i + 1..], "*"), rest);
        i := i + 1;
        continue;
      }
      var found, index := Find(rest, part);
      if !found {
        NoOccurrence(part, Behind(parts, i + 1), rest);
        return false;
      }
      GreedyStep(part, Join(parts[i + 1..], "*"), rest, index);
      rest := rest[index + |part|..];
      i := i + 1;
    }
    var last := parts[|parts| - 1];
    LastPart(last, rest);
    if last != "" {
      return |last| <= |rest| && rest[|rest| - |last|..] == last;
    }
    return true;
  }
}
