/**
 OpenSSH configuration text: folding the directives before the first `Host` under `Host *`, and
 collecting the importable aliases. The rewrite must not change what the text means.
 */
module SshConfig {
  import opened Wrappers
  import opened Text

  /** `key value`, divided at the first whitespace; neither may be empty. */
  function SplitConfigLine(line: string): Option<(string, string)> {
    var n := WordLength(line);
    if n == |line| then None
    else
      var key, value := line[..n], Trim(line[n + 1..]);
      if key == "" || value == "" then None else Some((key, value))
  }

  predicate IsSkipped(trimmed: string) {
    trimmed == "" || trimmed[0] == '#'
  }

  /** The trimmed lines that are neither blank nor comments. */
  function Significant(lines: seq<string>): seq<string> {
    if lines == [] then []
    else (if IsSkipped(Trim(lines[0])) then [] else [Trim(lines[0])]) + Significant(lines[1..])
  }

  /** The trimmed lines that are not blank, comments included. */
  function NonBlank(lines: seq<string>): seq<string> {
    if lines == [] then [] else (if Trim(lines[0]) == "" then [] else [Trim(lines[0])]) + NonBlank(lines[1..])
  }

  /** Of trimmed lines those that are no comments. */
  function Directives(lines: seq<string>): seq<string> {
    if lines == [] then [] else (if IsSkipped(lines[0]) then [] else [lines[0]]) + Directives(lines[1..])
  }

  predicate IsHostKey(key: string) {
    Lower(key) == "host"
  }

  predicate IsHostLine(line: string) {
    var trimmed := Trim(line);
    !IsSkipped(trimmed) && var s := SplitConfigLine(trimmed); s.Some? && IsHostKey(s.value.0)
  }

  // ---------------------------------------------------------------- the rewrite

  /** How many lines come before the first `Host` line. */
  function LeadingLength(lines: seq<string>): (n: nat)
    ensures n <= |lines|
    ensures forall i :: 0 <= i < n ==> !IsHostLine(lines[i])
    ensures n < |lines| ==> IsHostLine(lines[n])
  {
    if lines == [] || IsHostLine(lines[0]) then 0 else 1 + LeadingLength(lines[1..])
  }

  predicate HasDirective(lines: seq<string>) {
    exists line :: line in lines && !IsSkipped(Trim(line))
  }

  function Indented(line: string): string {
    if Trim(line) == "" || TrimStart(line)[0] == '#' then line else "  " + TrimStart(line)
  }

  function IndentAll(lines: seq<string>): seq<string> {
    if lines == [] then [] else [Indented(lines[0])] + IndentAll(lines[1..])
  }

  function Behind(rest: seq<string>): string {
    if rest == [] then "" else "\n" + Join(rest, "\n")
  }

  function Folded(leading: seq<string>, rest: seq<string>): string {
    "Host *" + "\n" + (Unlines(IndentAll(leading)) + Behind(rest))
  }

  function Normalized(content: string): string {
    var lines := Lines(content);
    var n := LeadingLength(lines);
    if HasDirective(lines[..n]) then Folded(lines[..n], lines[n..]) else content
  }

  /** The split is at one whitespace: in front of it a key without any, behind it the value. */
  lemma SplitIff(line: string, key: string, value: string)
    ensures SplitConfigLine(line) == Some((key, value)) <==>
              && IsWord(key) && value != "" && key < line && IsWhitespace(line[|key|])
              && value == Trim(line[|key| + 1..])
  {
    var n := WordLength(line);
    if IsWord(key) && key < line && IsWhitespace(line[|key|]) {
      WordLengthIs(line, key);
      assert line[..|key|] == key;
    }
    if n < |line| && n > 0 {
      assert forall c :: c in line[..n] ==> !IsWhitespace(c);
    }
  }

  /** Divides the lines at the first `Host` line. */
  method DivideLines(lines: seq<string>) returns (leading: seq<string>, rest: seq<string>)
    ensures leading == lines[..LeadingLength(lines)] && rest == lines[LeadingLength(lines)..]
  {
    hide IsHostLine;
    leading, rest := [], [];
    var seenHost := false;
    var i := 0;
    while i < |lines|
      invariant 0 <= i <= |lines|
      invariant leading + rest == lines[..i]
      invariant !seenHost ==> rest == [] && forall j :: 0 <= j < i ==> !IsHostLine(lines[j])
      invariant seenHost ==> |leading| < i && IsHostLine(lines[|leading|])
      invariant seenHost ==> forall j :: 0 <= j < |leading| ==> !IsHostLine(lines[j])
    {
      var raw := lines[i];
      if !seenHost && IsHostLine(raw) {
        seenHost := true;
      }
      if seenHost {
        rest := rest + [raw];
      } else {
        leading := leading + [raw];
      }
      i := i + 1;
    }
    assert lines[..i] == lines;
    assert |leading| == LeadingLength(lines);
    assert leading == lines[..|leading|] && rest == lines[|leading|..];
  }

  method NormalizeConfig(content: string) returns (normalized: string)
    ensures normalized == Normalized(content)
  {
    hide Lines, LeadingLength, HasDirective, Join, Indented, IsHostLine;
    var leading, rest := DivideLines(Lines(content));
    if !HasDirective(leading) {
      return content;
    }
    normalized := "Host *\n";
    var remaining := leading;
    ghost var whole := normalized + Unlines(IndentAll(leading));
    while remaining != []
      invariant normalized + Unlines(IndentAll(remaining)) == whole
      decreases |remaining|
    {
      var line := remaining[0];
      remaining := remaining[1..];
      ghost var behind := Unlines(IndentAll(remaining));
      assert ([Indented(line)] + IndentAll(remaining))[1..] == IndentAll(remaining);
      assert normalized + (Indented(line) + "\n" + behind) == normalized + Indented(line) + "\n" + behind;
      normalized := normalized + Indented(line);
      normalized := normalized + "\n";
    }
    assert normalized == whole;
    if rest != [] {
      normalized := normalized + "\n";
      normalized := normalized + Join(rest, "\n");
    }
    assert normalized == whole + Behind(rest);
    assert "Host *\n" + Unlines(IndentAll(leading)) + Behind(rest) == Folded(leading, rest);
  }

  // ---------------------------------------------------------------- what the rewrite changes

  lemma {:induction false} SignificantConcat(a: seq<string>, b: seq<string>)
    ensures Significant(a + b) == Significant(a) + Significant(b)
  {
    if a == [] {
      assert a + b == b;
    } else {
      assert (a + b)[1..] == a[1..] + b;
      SignificantConcat(a[1..], b);
    }
  }

  lemma StripCrTrims(line: string)
    ensures Trim(StripCr(line)) == Trim(line)
  {
    if StripCr(line) != line {
      TrimDropsLast(StripCr(line), '\r');
    }
  }

  lemma {:induction false} NonBlankConcat(a: seq<string>, b: seq<string>)
    ensures NonBlank(a + b) == NonBlank(a) + NonBlank(b)
  {
    if a == [] {
      assert a + b == b;
    } else {
      assert (a + b)[1..] == a[1..] + b;
      NonBlankConcat(a[1..], b);
    }
  }

  lemma {:induction false} SignificantAreDirectives(lines: seq<string>)
    ensures Significant(lines) == Directives(NonBlank(lines))
  {
    hide Trim;
    if lines == [] {
    } else {
      SignificantAreDirectives(lines[1..]);
      assert ([Trim(lines[0])] + NonBlank(lines[1..]))[1..] == NonBlank(lines[1..]);
      assert [] + Significant(lines[1..]) == Significant(lines[1..]);
      assert [] + NonBlank(lines[1..]) == NonBlank(lines[1..]);
    }
  }

  lemma {:induction false} NonBlankStripped(lines: seq<string>)
    ensures NonBlank(StripAll(lines)) == NonBlank(lines)
  {
    if lines == [] {
    } else {
      StripCrTrims(lines[0]);
      NonBlankStripped(lines[1..]);
    }
  }

  lemma IndentedTrims(line: string)
    ensures Trim(Indented(line)) == Trim(line)
    ensures '\n' !in line ==> '\n' !in Indented(line)
  {
    SpacesTrim(TrimStart(line));
    if Indented(line) != line {
      TrimTwice(line);
      TrimStartShape(line);
    }
  }

  lemma SpacesTrim(s: string)
    ensures Trim("  " + s) == Trim(s)
  {
    assert ("  " + s)[1..] == " " + s && (" " + s)[1..] == s;
    assert TrimStart("  " + s) == TrimStart(" " + s) == TrimStart(s);
  }

  lemma {:induction false} NonBlankIndented(lines: seq<string>)
    ensures NonBlank(IndentAll(lines)) == NonBlank(lines)
    ensures (forall line :: line in lines ==> '\n' !in line) ==>
              forall line :: line in IndentAll(lines) ==> '\n' !in line
  {
    if lines == [] {
    } else {
      IndentedTrims(lines[0]);
      NonBlankIndented(lines[1..]);
    }
  }

  lemma {:induction false} NonBlankJoined(lines: seq<string>)
    requires forall line :: line in lines ==> '\n' !in line
    ensures NonBlank(Lines(Join(lines, "\n"))) == NonBlank(lines)
  {
    if |lines| == 1 {
      LinesOfLast(lines[0]);
      assert lines == [lines[0]];
    } else if |lines| > 1 {
      LinesPrepend(lines[0], Join(lines[1..], "\n"));
      StripCrTrims(lines[0]);
      NonBlankJoined(lines[1..]);
    }
  }

  lemma HostStar()
    ensures Trim("Host *") == "Host *" && !IsSkipped("Host *") && StripCr("Host *") == "Host *"
    ensures SplitConfigLine("Host *") == Some(("Host", "*")) && IsHostLine("Host *")
    ensures Words("*") == ["*"]
  {
    var line := "Host *";
    TrimKeeps(line);
    WordLengthIs(line, "Host");
    assert line[..4] == "Host" && line[5..] == "*";
    TrimKeeps("*");
    WordsOfWord("*");
  }

  /**
   Every line that is not blank stays, comments included, in its order; one `Host *` is put in front
   exactly when something was folded.
   */
  lemma NormalizedLines(content: string)
    ensures var lines := Lines(content);
            var folded := if HasDirective(lines[..LeadingLength(lines)]) then ["Host *"] else [];
            && NonBlank(Lines(Normalized(content))) == folded + NonBlank(lines)
            && Significant(Lines(Normalized(content))) == folded + Significant(lines)
  {
    hide Lines, LeadingLength, HasDirective, Trim, NonBlank, Significant;
    var lines := Lines(content);
    var n := LeadingLength(lines);
    SignificantAreDirectives(lines);
    SignificantAreDirectives(Lines(Normalized(content)));
    HostStar();
    if HasDirective(lines[..n]) {
      FoldedLines(lines[..n], lines[n..]);
      assert lines == lines[..n] + lines[n..];
      assert (["Host *"] + NonBlank(lines))[1..] == NonBlank(lines);
    } else {
      assert [] + NonBlank(lines) == NonBlank(lines) && [] + Significant(lines) == Significant(lines);
    }
  }

  lemma FoldedLines(leading: seq<string>, rest: seq<string>)
    requires forall line :: line in leading + rest ==> '\n' !in line
    ensures NonBlank(Lines(Folded(leading, rest))) == ["Host *"] + NonBlank(leading + rest)
  {
    hide Lines, Trim, StripCr, Unlines, Indented, Behind;
    assert forall line :: line in leading ==> line in leading + rest;
    assert forall line :: line in rest ==> line in leading + rest;
    var indented, tail := IndentAll(leading), Behind(rest);
    HostStar();
    LinesPrepend("Host *", Unlines(indented) + tail);
    NonBlankIndented(leading);
    LinesOfUnlinesThen(indented, tail);
    NonBlankConcat(StripAll(indented), Lines(tail));
    NonBlankStripped(indented);
    BehindLines(rest);
    NonBlankConcat(leading, rest);
    var others := StripAll(indented) + Lines(tail);
    assert (["Host *"] + others)[1..] == others;
  }

  lemma BehindLines(rest: seq<string>)
    requires forall line :: line in rest ==> '\n' !in line
    ensures NonBlank(Lines(Behind(rest))) == NonBlank(rest)
  {
    if rest != [] {
      assert "\n" + Join(rest, "\n") == "" + "\n" + Join(rest, "\n");
      LinesPrepend("", Join(rest, "\n"));
      NonBlankJoined(rest);
    }
  }

  predicate FirstIsHost(lines: seq<string>) {
    lines == [] || IsHostLine(lines[0])
  }

  lemma {:induction false} SignificantHasDirective(lines: seq<string>)
    ensures HasDirective(lines) <==> Significant(lines) != []
  {
    hide Trim, IsSkipped;
    if lines == [] {
    } else {
      SignificantHasDirective(lines[1..]);
      assert lines[0] in lines && forall line :: line in lines[1..] ==> line in lines;
      assert forall line :: line in lines ==> line == lines[0] || line in lines[1..];
    }
  }

  /** A significant line is a trimmed one, and says the same as before it was trimmed. */
  lemma {:induction false} HostLineFirst(lines: seq<string>, n: nat)
    requires n <= |lines| && (n < |lines| ==> IsHostLine(lines[n])) && Significant(lines[..n]) == []
    ensures FirstIsHost(Significant(lines))
  {
    hide Trim, IsSkipped, SplitConfigLine, IsHostKey;
    assert lines == lines[..n] + lines[n..];
    SignificantConcat(lines[..n], lines[n..]);
    assert [] + Significant(lines[n..]) == Significant(lines[n..]);
    if n < |lines| {
      TrimTwice(lines[n]);
    }
  }

  lemma {:induction false} NoHostBefore(lines: seq<string>)
    requires forall i :: 0 <= i < |lines| ==> !IsHostLine(lines[i])
    ensures Significant(lines) != [] ==> !IsHostLine(Significant(lines)[0])
  {
    hide Trim, IsSkipped, SplitConfigLine, IsHostKey;
    if lines == [] {
    } else {
      TrimTwice(lines[0]);
      NoHostBefore(lines[1..]);
    }
  }

  /**
   What the rewrite is for: in its result no directive stands before the first `Host`. And it leaves
   a text alone exactly when that was so already.
   */
  lemma NormalizedStartsWithHost(content: string)
    ensures FirstIsHost(Significant(Lines(Normalized(content))))
    ensures Normalized(content) == content <==> FirstIsHost(Significant(Lines(content)))
  {
    hide Lines, HasDirective, Trim, IsHostLine, Folded, Significant, NonBlank, LeadingLength, StripCr, Words;
    var lines := Lines(content);
    var n := LeadingLength(lines);
    NormalizedLines(content);
    HostStar();
    SignificantHasDirective(lines[..n]);
    assert lines == lines[..n] + lines[n..];
    SignificantConcat(lines[..n], lines[n..]);
    if HasDirective(lines[..n]) {
      NoHostBefore(lines[..n]);
      assert (["Host *"] + Significant(lines))[0] == "Host *";
    } else {
      HostLineFirst(lines, n);
      assert [] + Significant(lines) == Significant(lines);
    }
  }

  /** Folding twice is folding once. */
  lemma NormalizeIdempotent(content: string)
    ensures Normalized(Normalized(content)) == Normalized(content)
  {
    hide Lines, HasDirective, IsHostLine;
    var lines := Lines(content);
    var leading, rest := lines[..LeadingLength(lines)], lines[LeadingLength(lines)..];
    if HasDirective(leading) {
      HostStar();
      LinesPrepend("Host *", Unlines(IndentAll(leading)) + Behind(rest));
      var again := Lines(Normalized(content));
      assert again[0] == "Host *" && LeadingLength(again) == 0 && again[..0] == [];
      NoDirective();
    }
  }

  lemma NoDirective()
    ensures !HasDirective([])
  {
  }

  /** The rewrite of a small file: the directive moves under `Host *`, indented, before a blank line. */
  lemma FoldsLeadingDirective()
    ensures Normalized("User bob\nHost a\n") == "Host *\n  User bob\n\nHost a"
  {
    hide Lines, Folded, LeadingLength, HasDirective;
    LinesOfTwo();
    LeadingOfTwo();
    FoldedTwo();
    SpelledOut();
  }

  lemma SpelledOut()
    ensures "Host *" + "\n" + ("  " + "User bob" + "\n" + "" + ("\n" + "Host a")) == "Host *\n  User bob\n\nHost a"
  {
  }

  lemma LeadingOfTwo()
    ensures var lines := ["User bob", "Host a"];
            && LeadingLength(lines) == 1 && lines[..1] == ["User bob"] && lines[1..] == ["Host a"]
            && HasDirective(["User bob"])
  {
    hide Trim, IsSkipped, IsHostLine;
    KindsOfTwo();
    var lines := ["User bob", "Host a"];
    assert lines[1..] == ["Host a"];
    assert LeadingLength(["Host a"]) == 0;
    assert "User bob" in ["User bob"];
  }

  lemma UnlinesOfOne(line: string)
    ensures Unlines(IndentAll([line])) == Indented(line) + "\n" + ""
  {
    hide Indented;
    assert [line][1..] == [] && ([Indented(line)] + [])[1..] == [];
  }

  lemma FoldedTwo()
    ensures Folded(["User bob"], ["Host a"]) == "Host *" + "\n" + ("  " + "User bob" + "\n" + "" + ("\n" + "Host a"))
  {
    hide Trim, TrimStart, IsSkipped;
    KindsOfTwo();
    assert "User bob"[0] == 'U';
    assert Indented("User bob") == "  " + "User bob";
    UnlinesOfOne("User bob");
  }

  lemma LinesOfTwo()
    ensures Lines("User bob\nHost a\n") == ["User bob", "Host a"]
  {
    hide Lines;
    assert "User bob\nHost a\n" == "User bob" + "\n" + ("Host a" + "\n" + "");
    LinesPrepend("User bob", "Host a" + "\n" + "");
    LinesPrepend("Host a", "");
    LinesOfLast("");
  }

  lemma KindsOfTwo()
    ensures Trim("User bob") == "User bob" == TrimStart("User bob") && !IsSkipped("User bob")
    ensures !IsHostLine("User bob") && IsHostLine("Host a")
  {
    hide WordLength;
    TrimKeeps("User bob");
    TrimKeeps("Host a");
    TrimKeeps("bob");
    TrimKeeps("a");
    WordLengthIs("User bob", "User");
    WordLengthIs("Host a", "Host");
    assert "User bob"[..4] == "User" && "User bob"[5..] == "bob";
    assert "Host a"[..4] == "Host" && "Host a"[5..] == "a";
    assert Lower("User")[0] == 'u' && Lower("Host") == "host";
  }

  // ---------------------------------------------------------------- meaning, after ssh_config(5)

  /** The keyword ends at whitespace or at an equals sign. */
  function KeywordLength(line: string): (n: nat)
    ensures n <= |line|
  {
    if line == "" || IsWhitespace(line[0]) || line[0] == '=' then 0 else 1 + KeywordLength(line[1..])
  }

  /** Keyword (in lower case) and arguments of a directive; one equals sign may stand between them. */
  function Directive(line: string): (string, string) {
    var n := KeywordLength(line);
    var rest := TrimStart(line[n..]);
    (Lower(line[..n]), if rest != "" && rest[0] == '=' then TrimStart(rest[1..]) else rest)
  }

  /** `*` matches any string, `?` any one character. */
  ghost predicate PatternMatches(pattern: string, host: string) {
    if pattern == "" then host == ""
    else if pattern[0] == '*' then exists k :: 0 <= k <= |host| && PatternMatches(pattern[1..], host[k..])
    else host != "" && (pattern[0] == '?' || pattern[0] == host[0]) && PatternMatches(pattern[1..], host[1..])
  }

  /** Some pattern matches and no negated one does. */
  ghost predicate HostApplies(patterns: seq<string>, host: string) {
    && (exists p :: p in patterns && p != "" && p[0] != '!' && PatternMatches(p, host))
    && (forall p :: p in patterns && p != "" && p[0] == '!' ==> !PatternMatches(p[1..], host))
  }

  /** What decides a `Match` block: its arguments, the host and the directives that applied so far. */
  type Criteria = (string, string, seq<(string, string)>) -> bool

  /** The directives that apply to `host`, in order, behind those obtained from earlier lines. */
  ghost function Effective(lines: seq<string>, host: string, criteria: Criteria, active: bool,
      obtained: seq<(string, string)>): seq<(string, string)>
    decreases |lines|
  {
    if lines == [] then obtained
    else
      var (keyword, args) := Directive(lines[0]);
      if keyword == "host" then Effective(lines[1..], host, criteria, HostApplies(Words(args), host), obtained)
      else if keyword == "match" then Effective(lines[1..], host, criteria, criteria(args, host, obtained), obtained)
      else Effective(lines[1..], host, criteria, active, if active then obtained + [(keyword, args)] else obtained)
  }

  /** The first obtained value of a keyword. */
  function FirstValue(directives: seq<(string, string)>, keyword: string): Option<string> {
    if directives == [] then None
    else if directives[0].0 == keyword then Some(directives[0].1)
    else FirstValue(directives[1..], keyword)
  }

  ghost function Configured(content: string, host: string, criteria: Criteria): seq<(string, string)> {
    Effective(Significant(Lines(content)), host, criteria, true, [])
  }

  lemma StarAppliesToAll(host: string)
    ensures HostApplies(["*"], host)
  {
    assert "*"[1..] == "" && host[|host|..] == "";
    assert PatternMatches("*"[1..], host[|host|..]);
    assert PatternMatches("*", host);
    assert "*" in ["*"];
  }

  lemma HostStarDirective()
    ensures Directive("Host *") == ("host", "*")
  {
    var line := "Host *";
    assert line[1..] == "ost *" && "ost *"[1..] == "st *" && "st *"[1..] == "t *" && "t *"[1..] == " *";
    assert KeywordLength(" *") == 0 && KeywordLength("t *") == 1;
    assert KeywordLength("st *") == 2 && KeywordLength("ost *") == 3;
    assert KeywordLength(line) == 4;
    assert line[..4] == "Host" && Lower("Host") == "host";
    assert line[4..] == " *" && " *"[1..] == "*";
    assert TrimStart(" *") == TrimStart("*") == "*";
  }

  /**
   Main result: every host gets exactly the same directives in the same order, so every keyword has
   the same first value, whatever a `Match` block decides from its arguments, the host and the
   directives obtained so far.
   */
  lemma NormalizePreservesMeaning(content: string, host: string, criteria: Criteria, keyword: string)
    ensures Configured(Normalized(content), host, criteria) == Configured(content, host, criteria)
    ensures FirstValue(Configured(Normalized(content), host, criteria), keyword)
         == FirstValue(Configured(content, host, criteria), keyword)
  {
    hide Lines, Significant, PatternMatches, HostApplies, Directive, Normalized;
    NormalizedLines(content);
    var lines := Significant(Lines(content));
    FoldedAppliesAlike(lines, host, criteria);
    assert [] + lines == lines;
  }

  lemma FoldedAppliesAlike(lines: seq<string>, host: string, criteria: Criteria)
    ensures Effective(["Host *"] + lines, host, criteria, true, []) == Effective(lines, host, criteria, true, [])
  {
    hide HostApplies, Directive, Words;
    HostStarDirective();
    HostStar();
    StarAppliesToAll(host);
    assert (["Host *"] + lines)[1..] == lines;
  }
}
