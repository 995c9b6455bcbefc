/** The text operations the configuration files are read and written with, as Rust's `str` has them. */
module Text {

  /** The White_Space characters of the Unicode Standard. */
  predicate IsWhitespace(c: char) {
    var n := c as int;
    || 0x09 <= n <= 0x0D || n == 0x20 || n == 0x85 || n == 0xA0 || n == 0x1680
    || 0x2000 <= n <= 0x200A || n == 0x2028 || n == 0x2029 || n == 0x202F || n == 0x205F || n == 0x3000
  }

  function TrimStart(s: string): string {
    if s != "" && IsWhitespace(s[0]) then TrimStart(s[1..]) else s
  }

  function TrimEnd(s: string): string {
    if s != "" && IsWhitespace(s[|s| - 1]) then TrimEnd(s[..|s| - 1]) else s
  }

  function Trim(s: string): string {
    TrimEnd(TrimStart(s))
  }

  /** A nonempty string without whitespace. */
  predicate IsWord(s: string) {
    s != "" && forall c :: c in s ==> !IsWhitespace(c)
  }

  /** How many characters of `s` come before its first whitespace. */
  function WordLength(s: string): (n: nat)
    ensures n <= |s|
    ensures forall i :: 0 <= i < n ==> !IsWhitespace(s[i])
    ensures n < |s| ==> IsWhitespace(s[n])
  {
    if s == "" || IsWhitespace(s[0]) then 0 else 1 + WordLength(s[1..])
  }

  /** The maximal runs of other characters between whitespace. */
  function Words(s: string): (words: seq<string>)
    ensures forall w :: w in words ==> IsWord(w)
    decreases |s|
  {
    if s == "" then []
    else if IsWhitespace(s[0]) then Words(s[1..])
    else [s[..WordLength(s)]] + Words(s[WordLength(s)..])
  }

  lemma WordsOfWord(word: string)
    requires IsWord(word)
    ensures Words(word) == [word]
  {
    WordLengthIs(word, word);
    assert word[0] in word && word[..|word|] == word && word[|word|..] == "";
  }

  lemma {:induction false} WordLengthIs(s: string, word: string)
    requires word <= s && (forall c :: c in word ==> !IsWhitespace(c))
    requires |word| < |s| ==> IsWhitespace(s[|word|])
    ensures WordLength(s) == |word|
  {
    if word == "" {
    } else {
      WordLengthIs(s[1..], word[1..]);
    }
  }

  /** A word, one space, and more. */
  lemma WordsPrepend(word: string, rest: string)
    requires IsWord(word)
    ensures Words(word + " " + rest) == [word] + Words(rest)
  {
    var s := word + " " + rest;
    assert word <= s;
    WordLengthIs(s, word);
    assert s[..|word|] == word;
    var tail := s[|word|..];
    assert tail[0] == ' ' && tail[1..] == rest;
  }

  lemma {:induction false} TrimEndSpace(s: string, c: char)
    requires IsWhitespace(c)
    ensures TrimEnd(s + [c]) == TrimEnd(s)
  {
    assert (s + [c])[..|s|] == s;
  }

  lemma {:induction false} TrimStartSpace(s: string, c: char)
    requires IsWhitespace(c)
    ensures TrimStart(s + [c]) == TrimStart(s) + [c] || (TrimStart(s) == "" && TrimStart(s + [c]) == "")
  {
    if s == "" {
      assert s + [c] == [c];
      assert [c][1..] == "";
    } else if IsWhitespace(s[0]) {
      assert (s + [c])[1..] == s[1..] + [c];
      TrimStartSpace(s[1..], c);
    }
  }

  /** Whitespace at the end is not seen after trimming. */
  lemma TrimDropsLast(s: string, c: char)
    requires IsWhitespace(c)
    ensures Trim(s + [c]) == Trim(s)
  {
    TrimStartSpace(s, c);
    TrimEndSpace(TrimStart(s), c);
  }

  /** Trimming keeps a string that neither starts nor ends with whitespace. */
  lemma TrimKeeps(s: string)
    requires s != "" ==> !IsWhitespace(s[0]) && !IsWhitespace(s[|s| - 1])
    ensures Trim(s) == s
  {
  }

  lemma {:induction false} TrimStartShape(s: string)
    ensures var t := TrimStart(s);
            && |t| <= |s| && t == s[|s| - |t|..] && (t != "" ==> !IsWhitespace(t[0]))
            && (t == "" ==> forall c :: c in s ==> IsWhitespace(c))
  {
    if s == "" || !IsWhitespace(s[0]) {
    } else {
      TrimStartShape(s[1..]);
    }
  }

  lemma {:induction false} TrimEndShape(s: string)
    ensures var t := TrimEnd(s);
            && t <= s && (t != "" ==> !IsWhitespace(t[|t| - 1]))
            && (s != "" && !IsWhitespace(s[0]) ==> t != "")
  {
    if s == "" || !IsWhitespace(s[|s| - 1]) {
    } else {
      TrimEndShape(s[..|s| - 1]);
    }
  }

  /** Trimming is idempotent, also when only the start was trimmed first and something precedes. */
  lemma TrimTwice(s: string)
    ensures Trim(Trim(s)) == Trim(s)
    ensures Trim(TrimStart(s)) == Trim(s)
  {
    hide IsWhitespace, TrimStart, TrimEnd;
    var started := TrimStart(s);
    TrimStartShape(s);
    TrimStartKeeps(started);
    TrimEndShape(started);
    TrimKeeps(Trim(s));
  }

  lemma TrimStartKeeps(s: string)
    requires s != "" ==> !IsWhitespace(s[0])
    ensures TrimStart(s) == s
  {
  }

  /** Only ASCII letters change. */
  function LowerChar(c: char): char {
    if 'A' <= c <= 'Z' then c + 32 as char else c
  }

  function Lower(s: string): (r: string)
    ensures |r| == |s| && forall i :: 0 <= i < |s| ==> r[i] == LowerChar(s[i])
  {
    seq(|s|, i requires 0 <= i < |s| => LowerChar(s[i]))
  }

  // ---------------------------------------------------------------- splitting and joining

  function Join(parts: seq<string>, separator: string): string {
    if parts == [] then ""
    else if |parts| == 1 then parts[0]
    else parts[0] + separator + Join(parts[1..], separator)
  }

  /** The parts between the separators, at least one. */
  function SplitOn(s: string, separator: char): (parts: seq<string>)
    ensures parts != []
    ensures forall part :: part in parts ==> separator !in part
    ensures Join(parts, [separator]) == s
  {
    if s == "" then [""]
    else
      var rest := SplitOn(s[1..], separator);
      if s[0] == separator then
        assert ([""] + rest)[1..] == rest;
        [""] + rest
      else
        assert ([[s[0]] + rest[0]] + rest[1..])[1..] == rest[1..];
        [[s[0]] + rest[0]] + rest[1..]
  }

  lemma {:induction false} SplitNone(part: string, separator: char)
    requires separator !in part
    ensures SplitOn(part, separator) == [part]
  {
    if part == "" {
    } else {
      SplitNone(part[1..], separator);
      assert part[0] in part && part == [part[0]] + part[1..];
    }
  }

  /** The first part, and the parts of what is behind its separator. */
  lemma {:induction false} SplitFirst(part: string, separator: char, rest: string)
    requires separator !in part
    ensures SplitOn(part + [separator] + rest, separator) == [part] + SplitOn(rest, separator)
  {
    var s := part + [separator] + rest;
    if part == "" {
      assert s[1..] == rest;
    } else {
      assert s[1..] == part[1..] + [separator] + rest && s[0] == part[0] && part[0] in part;
      SplitFirst(part[1..], separator, rest);
      assert part == [part[0]] + part[1..];
      assert ([part[1..]] + SplitOn(rest, separator))[1..] == SplitOn(rest, separator);
    }
  }

  /** The last part is what is behind the last separator. */
  lemma {:induction false} SplitLast(front: string, separator: char, part: string)
    requires separator !in part
    ensures var parts := SplitOn(front + [separator] + part, separator);
            |parts| >= 2 && parts[|parts| - 1] == part
  {
    hide Join;
    var s := front + [separator] + part;
    SplitNone(part, separator);
    if front == "" {
      SplitFirst("", separator, part);
      assert s == "" + [separator] + part;
    } else {
      assert s[1..] == front[1..] + [separator] + part;
      SplitLast(front[1..], separator, part);
      var rest := SplitOn(s[1..], separator);
      assert SplitOn(s, separator)[1..] == if s[0] == separator then rest else rest[1..];
    }
  }

  // ---------------------------------------------------------------- lines

  function LineLength(s: string): (n: nat)
    ensures n <= |s| && '\n' !in s[..n]
    ensures n < |s| ==> s[n] == '\n'
  {
    if s == "" || s[0] == '\n' then 0
    else
      var n := LineLength(s[1..]);
      assert s[..n + 1] == [s[0]] + s[1..][..n];
      n + 1
  }

  /** A carriage return before the line feed belongs to the line break. */
  function StripCr(line: string): (r: string)
    ensures r == line || line == r + "\r"
  {
    if line != "" && line[|line| - 1] == '\r' then line[..|line| - 1] else line
  }

  /** Lines without their breaks; text behind the last break is a line only when nonempty. */
  function Lines(s: string): (lines: seq<string>)
    ensures forall line :: line in lines ==> '\n' !in line
    decreases |s|
  {
    if s == "" then []
    else
      var n := LineLength(s);
      if n == |s| then assert s[..n] == s; [s]
      else [StripCr(s[..n])] + Lines(s[n + 1..])
  }

  lemma {:induction false} LineLengthIs(line: string, rest: string)
    requires '\n' !in line
    ensures LineLength(line + "\n" + rest) == |line|
  {
    if line == "" {
      assert line + "\n" + rest == "\n" + rest;
    } else {
      assert (line + "\n" + rest)[1..] == line[1..] + "\n" + rest;
      LineLengthIs(line[1..], rest);
    }
  }

  lemma LinesPrepend(line: string, rest: string)
    requires '\n' !in line
    ensures Lines(line + "\n" + rest) == [StripCr(line)] + Lines(rest)
  {
    LineLengthIs(line, rest);
    var s := line + "\n" + rest;
    assert s[..|line|] == line && s[|line| + 1..] == rest;
  }

  lemma LinesOfLast(line: string)
    requires '\n' !in line
    ensures Lines(line) == if line == "" then [] else [line]
  {
  }

  /** Every line followed by a line feed. */
  function Unlines(lines: seq<string>): string {
    if lines == [] then "" else lines[0] + "\n" + Unlines(lines[1..])
  }

  function StripAll(lines: seq<string>): (r: seq<string>)
    ensures |r| == |lines| && forall i :: 0 <= i < |r| ==> r[i] == StripCr(lines[i])
  {
    if lines == [] then [] else [StripCr(lines[0])] + StripAll(lines[1..])
  }

  /** Writing lines and reading them back yields them, up to a carriage return at a line's end. */
  lemma {:induction false} LinesOfUnlines(lines: seq<string>)
    requires forall line :: line in lines ==> '\n' !in line
    ensures Lines(Unlines(lines)) == StripAll(lines)
  {
    if lines == [] {
    } else {
      LinesPrepend(lines[0], Unlines(lines[1..]));
      LinesOfUnlines(lines[1..]);
    }
  }

  lemma {:induction false} UnlinesAppend(lines: seq<string>, line: string)
    ensures Unlines(lines + [line]) == Unlines(lines) + line + "\n"
  {
    if lines == [] {
      assert [] + [line] == [line];
    } else {
      assert (lines + [line])[1..] == lines[1..] + [line];
      UnlinesAppend(lines[1..], line);
    }
  }

  /** The same with more text behind. */
  lemma {:induction false} LinesOfUnlinesThen(lines: seq<string>, rest: string)
    requires forall line :: line in lines ==> '\n' !in line
    ensures Lines(Unlines(lines) + rest) == StripAll(lines) + Lines(rest)
  {
    hide Lines, StripCr;
    if lines == [] {
      assert "" + rest == rest;
      assert StripAll(lines) == [];
    } else {
      var tail := Unlines(lines[1..]) + rest;
      assert Unlines(lines) + rest == lines[0] + "\n" + tail;
      LinesPrepend(lines[0], tail);
      LinesOfUnlinesThen(lines[1..], rest);
      assert StripAll(lines) == [StripCr(lines[0])] + StripAll(lines[1..]);
    }
  }

  predicate EndsInBreak(s: string) {
    s != "" && s[|s| - 1] == '\n'
  }

  predicate CrLfAt(s: string, i: int) {
    0 <= i < |s| - 1 && s[i] == '\r' && s[i + 1] == '\n'
  }

  /** Some line break is a carriage return and a line feed. */
  ghost predicate HasCrLf(s: string) {
    exists i :: CrLfAt(s, i)
  }

  /** Such a break is the first one, or lies in the text behind it. */
  lemma CrLfAtFirstBreak(line: string, rest: string, i: int)
    requires '\n' !in line
    ensures CrLfAt(line + "\n" + rest, i) <==>
              || (i == |line| - 1 && StripCr(line) != line)
              || CrLfAt(rest, i - |line| - 1)
  {
    var s, n := line + "\n" + rest, |line| + 1;
    assert 0 <= i < |line| ==> s[i] == line[i];
    assert 0 <= i + 1 < |line| ==> s[i + 1] == line[i + 1] && line[i + 1] in line;
    assert n <= i < |s| ==> s[i] == rest[i - n];
  }

  /** Both conditions seen from the first line and the text behind its break. */
  lemma AtFirstBreak(line: string, rest: string)
    requires '\n' !in line
    ensures var s := line + "\n" + rest;
            && (EndsInBreak(s) <==> rest == "" || EndsInBreak(rest))
            && (HasCrLf(s) <==> StripCr(line) != line || HasCrLf(rest))
  {
    hide StripCr, CrLfAt;
    var s, n := line + "\n" + rest, |line| + 1;
    if StripCr(line) != line {
      CrLfAtFirstBreak(line, rest, n - 2);
    }
    if i :| CrLfAt(rest, i) {
      CrLfAtFirstBreak(line, rest, i + n);
    }
    if i :| CrLfAt(s, i) {
      CrLfAtFirstBreak(line, rest, i);
    }
  }

  /** Reading lines and writing them back keeps the text exactly when every line, the last one
      included, ends in a bare line feed. */
  lemma {:induction false} UnlinesOfLinesIff(s: string)
    ensures Unlines(Lines(s)) == s <==> (s == "" || EndsInBreak(s)) && !HasCrLf(s)
    decreases |s|
  {
    hide HasCrLf;
    var n := LineLength(s);
    if s == "" {
      assert !HasCrLf("") by {
        EmptyHasNoCrLf();
      }
    } else if n == |s| {
      assert s[..n] == s && s[|s| - 1] in s;
      assert Unlines([s]) == s + "\n" + Unlines([]);
      assert |Unlines([s])| == |s| + 1;
    } else {
      var line, rest := s[..n], s[n + 1..];
      assert s == line + "\n" + rest;
      LinesPrepend(line, rest);
      AtFirstBreak(line, rest);
      UnlinesOfLinesIff(rest);
      var stripped, back := StripCr(line), Unlines(Lines(rest));
      assert Unlines(Lines(s)) == stripped + "\n" + back;
      if stripped == line {
        assert (line + "\n" + back)[n + 1..] == back;
      } else {
        assert (stripped + "\n" + back)[n - 1] == '\n' && s[n - 1] == '\r';
      }
    }
  }

  lemma EmptyHasNoCrLf()
    ensures !HasCrLf("")
  {
  }

  // ---------------------------------------------------------------- decimals

  function Digit(n: nat): char
    requires n < 10
  {
    '0' + n as char
  }

  predicate IsDigit(c: char) {
    '0' <= c <= '9'
  }

  function Decimal(n: nat): (s: string)
    ensures s != "" && forall c :: c in s ==> IsDigit(c)
  {
    if n < 10 then [Digit(n)] else Decimal(n / 10) + [Digit(n % 10)]
  }

  lemma {:induction false} DecimalInjective(m: nat, n: nat)
    requires Decimal(m) == Decimal(n)
    ensures m == n
  {
    var s := Decimal(m);
    if m < 10 && n < 10 {
      assert s[0] == Digit(m) == Digit(n);
    } else if m >= 10 && n >= 10 {
      assert Decimal(m / 10) == s[..|s| - 1] == Decimal(n / 10);
      assert Digit(m % 10) == s[|s| - 1] == Digit(n % 10);
      DecimalInjective(m / 10, n / 10);
    }
  }

  /** Behind the last colon nothing but digits: the text before it and the number are determined. */
  lemma ColonDecimalInjective(a: string, m: nat, b: string, n: nat)
    requires a + ":" + Decimal(m) == b + ":" + Decimal(n)
    ensures a == b && m == n
  {
    LastColon(a, Decimal(m));
    LastColon(b, Decimal(n));
    var s := a + ":" + Decimal(m);
    assert |Decimal(m)| == |Decimal(n)|;
    assert s[|a| + 1..] == Decimal(m) && s[|b| + 1..] == Decimal(n);
    assert s[..|a|] == a && s[..|b|] == b;
    DecimalInjective(m, n);
  }

  lemma LastColon(front: string, digits: string)
    requires forall c :: c in digits ==> IsDigit(c)
    ensures var s := front + ":" + digits;
            && s[|s| - |digits| - 1] == ':'
            && forall i :: |s| - |digits| <= i < |s| ==> s[i] != ':'
  {
    var s := front + ":" + digits;
    forall i | |s| - |digits| <= i < |s|
      ensures s[i] != ':'
    {
      assert s[i] == digits[i - (|s| - |digits|)] && s[i] in digits;
    }
  }
}
