/**
 The application's own known_hosts file: a text of `host algorithm key` lines, with comments and
 anything unparsable kept as it is. The file refines a map from (host, port, algorithm) to key.
 */
module KnownHosts {
  import opened Text
  import opened Wrappers
  import Connections

  type Port = Connections.Port

  /** The default port writes the bare host, any other `[host]:port`. */
  function HostPattern(host: string, port: Port): string {
    if port == 22 then host else "[" + host + "]:" + Decimal(port)
  }

  datatype Record = Record(pattern: string, algorithm: string, key: string)

  function ParseLine(line: string): Option<Record> {
    var trimmed := Trim(line);
    if trimmed == "" || trimmed[0] == '#' then None
    else
      var words := Words(trimmed);
      if |words| < 3 then None else Some(Record(words[0], words[1], words[2]))
  }

  predicate Concerns(line: string, pattern: string, algorithm: string) {
    var r := ParseLine(line);
    r.Some? && r.value.pattern == pattern && r.value.algorithm == algorithm
  }

  /** The key of the first line about the pattern and algorithm. */
  function Lookup(lines: seq<string>, pattern: string, algorithm: string): Option<string> {
    if lines == [] then None
    else if Concerns(lines[0], pattern, algorithm) then Some(ParseLine(lines[0]).value.key)
    else Lookup(lines[1..], pattern, algorithm)
  }

  /** The lines that are not about the pattern and algorithm. */
  function Others(lines: seq<string>, pattern: string, algorithm: string): (r: seq<string>)
    ensures forall line :: line in r ==> line in lines && !Concerns(line, pattern, algorithm)
  {
    if lines == [] then []
    else (if Concerns(lines[0], pattern, algorithm) then [] else [lines[0]]) + Others(lines[1..], pattern, algorithm)
  }

  function Entry(pattern: string, algorithm: string, key: string): string {
    pattern + " " + algorithm + " " + key
  }

  /** The file after trusting a key: the other lines as they are, then the new entry. */
  function Trusted(content: string, pattern: string, algorithm: string, key: string): string {
    Unlines(Others(Lines(content), pattern, algorithm) + [Entry(pattern, algorithm, key)])
  }

  datatype Status = IsTrusted | IsUnknown | IsMismatch(previousFingerprint: string)
  datatype MatchError = InvalidStoredKey

  /** What a lookup means for the offered key; an undecodable stored key is an error. */
  function Judge(found: Option<string>, key: string, fingerprint: string -> Option<string>)
    : Result<Status, MatchError>
  {
    match found
    case None => Ok(IsUnknown)
    case Some(stored) =>
      if stored == key then Ok(IsTrusted)
      else match fingerprint(stored)
        case None => Err(InvalidStoredKey)
        case Some(f) => Ok(IsMismatch(f))
  }

  lemma NoLines()
    ensures Lines("") == []
  {
  }

  /** The file; None while it does not exist. */
  class KnownHostsFile {
    var content: Option<string>

    constructor ()
      ensures content == None
    {
      content := None;
    }

    function Stored(): string
      reads this
    {
      if content.Some? then content.value else ""
    }

    method Trust(host: string, port: Port, algorithm: string, key: string)
      modifies this
      ensures content == Some(Trusted(old(Stored()), HostPattern(host, port), algorithm, key))
    {
      hide ParseLine, Lines, Unlines, HostPattern, Entry;
      var pattern := HostPattern(host, port);
      var preserved: seq<string> := [];
      if content.Some? {
        var rest := Lines(content.value);
        ghost var all := Others(rest, pattern, algorithm);
        while rest != []
          invariant all == preserved + Others(rest, pattern, algorithm)
          invariant content == old(content)
          decreases |rest|
        {
          var line := rest[0];
          rest := rest[1..];
          ghost var others := Others(rest, pattern, algorithm);
          assert preserved + ([line] + others) == preserved + [line] + others;
          assert preserved + ([] + others) == preserved + others;
          var parsed := ParseLine(line);
          if parsed.None? {
            preserved := preserved + [line];
            continue;
          }
          if parsed.value.pattern == pattern && parsed.value.algorithm == algorithm {
            continue;
          }
          preserved := preserved + [line];
        }
      } else {
        NoLines();
      }
      assert preserved == Others(Lines(old(Stored())), pattern, algorithm);
      preserved := preserved + [Entry(pattern, algorithm, key)];
      content := Some(Unlines(preserved));
    }

    method Match(host: string, port: Port, algorithm: string, key: string, fingerprint: string -> Option<string>)
      returns (r: Result<Status, MatchError>)
      ensures r == Judge(Lookup(Lines(Stored()), HostPattern(host, port), algorithm), key, fingerprint)
    {
      var pattern := HostPattern(host, port);
      var lines := Lines(Stored());
      var i := 0;
      while i < |lines|
        invariant 0 <= i <= |lines|
        invariant Lookup(lines, pattern, algorithm) == Lookup(lines[i..], pattern, algorithm)
      {
        var parsed := ParseLine(lines[i]);
        i := i + 1;
        assert lines[i - 1..][1..] == lines[i..];
        if parsed.None? || parsed.value.pattern != pattern || parsed.value.algorithm != algorithm {
          continue;
        }
        if parsed.value.key == key {
          return Ok(IsTrusted);
        }
        var previous := fingerprint(parsed.value.key);
        return if previous.None? then Err(InvalidStoredKey) else Ok(IsMismatch(previous.value));
      }
      r := Ok(IsUnknown);
    }
  }

  // ---------------------------------------------------------------- one entry

  /** What a line can carry: three words, the first not looking like a comment. */
  predicate Storable(pattern: string, algorithm: string, key: string) {
    IsWord(pattern) && pattern[0] != '#' && IsWord(algorithm) && IsWord(key)
  }

  lemma EntryParses(pattern: string, algorithm: string, key: string)
    requires Storable(pattern, algorithm, key)
    ensures ParseLine(Entry(pattern, algorithm, key)) == Some(Record(pattern, algorithm, key))
    ensures '\n' !in Entry(pattern, algorithm, key)
    ensures StripCr(Entry(pattern, algorithm, key)) == Entry(pattern, algorithm, key)
  {
    hide Words, Trim;
    var line := Entry(pattern, algorithm, key);
    var rest := algorithm + " " + key;
    assert line == pattern + " " + rest;
    assert line[0] == pattern[0] && pattern[0] in pattern;
    assert line[|line| - 1] == key[|key| - 1] && key[|key| - 1] in key;
    TrimKeeps(line);
    WordsPrepend(pattern, rest);
    WordsPrepend(algorithm, key);
    WordsOfWord(key);
  }

  /** A carriage return at the end of a line does not matter to its meaning. */
  lemma StripCrParses(line: string)
    ensures ParseLine(StripCr(line)) == ParseLine(line)
  {
    if StripCr(line) != line {
      TrimDropsLast(StripCr(line), '\r');
    }
  }

  lemma {:induction false} LookupStripped(lines: seq<string>, pattern: string, algorithm: string)
    ensures Lookup(StripAll(lines), pattern, algorithm) == Lookup(lines, pattern, algorithm)
  {
    if lines == [] {
    } else {
      StripCrParses(lines[0]);
      LookupStripped(lines[1..], pattern, algorithm);
    }
  }

  lemma {:induction false} LookupConcat(lines: seq<string>, more: seq<string>, pattern: string, algorithm: string)
    ensures Lookup(lines + more, pattern, algorithm)
         == if Lookup(lines, pattern, algorithm).Some? then Lookup(lines, pattern, algorithm)
            else Lookup(more, pattern, algorithm)
  {
    if lines == [] {
      assert [] + more == more;
    } else {
      assert (lines + more)[1..] == lines[1..] + more;
      LookupConcat(lines[1..], more, pattern, algorithm);
    }
  }

  /** The first line about a record decides. */
  lemma {:induction false} FirstLineDecides(lines: seq<string>, pattern: string, algorithm: string, i: nat)
    requires i < |lines| && Concerns(lines[i], pattern, algorithm)
    requires forall j :: 0 <= j < i ==> !Concerns(lines[j], pattern, algorithm)
    ensures Lookup(lines, pattern, algorithm) == Some(ParseLine(lines[i]).value.key)
  {
    hide ParseLine;
    if i == 0 {
    } else {
      FirstLineDecides(lines[1..], pattern, algorithm, i - 1);
    }
  }

  /** Dropping one record's lines leaves every other record's answer as it was. */
  lemma {:induction false} LookupOthers(lines: seq<string>, pattern: string, algorithm: string, p: string, a: string)
    ensures Lookup(Others(lines, pattern, algorithm), p, a)
         == if p == pattern && a == algorithm then None else Lookup(lines, p, a)
  {
    if lines == [] {
    } else {
      LookupOthers(lines[1..], pattern, algorithm, p, a);
      var rest := Others(lines[1..], pattern, algorithm);
      if !Concerns(lines[0], pattern, algorithm) {
        assert ([lines[0]] + rest)[1..] == rest;
      } else {
        assert [] + rest == rest;
      }
    }
  }

  predicate EndsInCr(line: string) {
    line != "" && line[|line| - 1] == '\r'
  }

  lemma StripAllKeepsIff(lines: seq<string>)
    ensures StripAll(lines) == lines <==> forall i :: 0 <= i < |lines| ==> !EndsInCr(lines[i])
  {
    var stripped := StripAll(lines);
    assert forall i :: 0 <= i < |lines| ==> (stripped[i] == lines[i] <==> !EndsInCr(lines[i]));
    if forall i :: 0 <= i < |lines| ==> !EndsInCr(lines[i]) {
      assert forall i :: 0 <= i < |lines| ==> stripped[i] == lines[i];
    }
  }

  /**
   The lines of the new file: the other lines in place, then those of the entry. A kept line loses
   one carriage return at its end, because the file is rewritten with bare line feeds.
   */
  lemma TrustKeepsOtherLines(content: string, pattern: string, algorithm: string, key: string)
    ensures var others, entry := Others(Lines(content), pattern, algorithm), Entry(pattern, algorithm, key);
            && Lines(Trusted(content, pattern, algorithm, key)) == StripAll(others) + Lines(entry + "\n")
            && (Storable(pattern, algorithm, key) ==> Lines(entry + "\n") == [entry])
            && (StripAll(others) == others <==> forall i :: 0 <= i < |others| ==> !EndsInCr(others[i]))
  {
    hide Lines, ParseLine, Storable, Entry;
    var others, entry := Others(Lines(content), pattern, algorithm), Entry(pattern, algorithm, key);
    UnlinesAppend(others, entry);
    assert Unlines(others) + entry + "\n" == Unlines(others) + (entry + "\n");
    LinesOfUnlinesThen(others, entry + "\n");
    StripAllKeepsIff(others);
    if Storable(pattern, algorithm, key) {
      EntryParses(pattern, algorithm, key);
      NoLines();
      LinesPrepend(entry, "");
      assert entry + "\n" + "" == entry + "\n";
    }
  }

  /** Every answer after a trust: the old one unless its record was dropped, else what the entry itself says. */
  lemma TrustAnswers(content: string, pattern: string, algorithm: string, key: string, p: string, a: string)
    ensures var kept := if p == pattern && a == algorithm then None else Lookup(Lines(content), p, a);
            Lookup(Lines(Trusted(content, pattern, algorithm, key)), p, a)
            == if kept.Some? then kept else Lookup(Lines(Entry(pattern, algorithm, key) + "\n"), p, a)
  {
    hide Lines, ParseLine, Others, Trusted, Entry, StripAll, Storable;
    var others := Others(Lines(content), pattern, algorithm);
    TrustKeepsOtherLines(content, pattern, algorithm, key);
    LookupConcat(StripAll(others), Lines(Entry(pattern, algorithm, key) + "\n"), p, a);
    LookupStripped(others, p, a);
    LookupOthers(Lines(content), pattern, algorithm, p, a);
  }

  /** Another record's answer stays exactly when it had one or the entry does not read as one. */
  lemma OtherAnswerKeptIff(content: string, pattern: string, algorithm: string, key: string, p: string, a: string)
    requires p != pattern || a != algorithm
    ensures Lookup(Lines(Trusted(content, pattern, algorithm, key)), p, a) == Lookup(Lines(content), p, a)
            <==> || Lookup(Lines(content), p, a).Some?
                 || Lookup(Lines(Entry(pattern, algorithm, key) + "\n"), p, a).None?
  {
    hide Lines, Lookup, Trusted, Entry;
    TrustAnswers(content, pattern, algorithm, key, p, a);
  }

  /** The map law: trusting a storable record sets it and leaves all others, whatever the file contained. */
  lemma TrustSetsOneRecord(content: string, pattern: string, algorithm: string, key: string, p: string, a: string)
    requires Storable(pattern, algorithm, key)
    ensures Lookup(Lines(Trusted(content, pattern, algorithm, key)), p, a)
         == if p == pattern && a == algorithm then Some(key) else Lookup(Lines(content), p, a)
  {
    hide Lines, ParseLine, Others, Trusted, Entry, StripAll, Storable;
    TrustAnswers(content, pattern, algorithm, key, p, a);
    TrustKeepsOtherLines(content, pattern, algorithm, key);
    EntryParses(pattern, algorithm, key);
  }

  lemma {:induction false} FoundIsStorable(lines: seq<string>, pattern: string, algorithm: string)
    requires Lookup(lines, pattern, algorithm).Some?
    ensures Storable(pattern, algorithm, Lookup(lines, pattern, algorithm).value)
  {
    if Concerns(lines[0], pattern, algorithm) {
      var t := Trim(lines[0]);
      var words := Words(t);
      TrimStartShape(lines[0]);
      TrimEndShape(TrimStart(lines[0]));
      assert words[0] in words && words[1] in words && words[2] in words;
      assert t[0] == TrimStart(lines[0])[0];
      assert words[0] == t[..WordLength(t)];
    } else {
      FoundIsStorable(lines[1..], pattern, algorithm);
    }
  }

  /** Exactly the storable records are recognised after being trusted. */
  lemma TrustedIffStorable(content: string, pattern: string, algorithm: string, key: string,
      fingerprint: string -> Option<string>)
    ensures var found := Lookup(Lines(Trusted(content, pattern, algorithm, key)), pattern, algorithm);
            Judge(found, key, fingerprint) == Ok(IsTrusted) <==> Storable(pattern, algorithm, key)
  {
    var lines := Lines(Trusted(content, pattern, algorithm, key));
    if Storable(pattern, algorithm, key) {
      TrustSetsOneRecord(content, pattern, algorithm, key, pattern, algorithm);
    }
    if Lookup(lines, pattern, algorithm).Some? {
      FoundIsStorable(lines, pattern, algorithm);
    }
  }

  /** The trust changes the answer for its own record, to the key, and for no other. */
  ghost predicate IsMapUpdate(content: string, pattern: string, algorithm: string, key: string) {
    forall p: string, a: string ::
      Lookup(Lines(Trusted(content, pattern, algorithm, key)), p, a)
      == if p == pattern && a == algorithm then Some(key) else Lookup(Lines(content), p, a)
  }

  /** A trust is a map update exactly when the record can be stored. */
  lemma TrustIsMapUpdateIff(content: string, pattern: string, algorithm: string, key: string)
    ensures IsMapUpdate(content, pattern, algorithm, key) <==> Storable(pattern, algorithm, key)
  {
    hide Lines, Lookup, Trusted, Storable;
    var lines := Lines(Trusted(content, pattern, algorithm, key));
    if Storable(pattern, algorithm, key) {
      forall p: string, a: string
        ensures Lookup(lines, p, a)
             == if p == pattern && a == algorithm then Some(key) else Lookup(Lines(content), p, a)
      {
        TrustSetsOneRecord(content, pattern, algorithm, key, p, a);
      }
    }
    if IsMapUpdate(content, pattern, algorithm, key) {
      assert Lookup(lines, pattern, algorithm) == Some(key);
      FoundIsStorable(lines, pattern, algorithm);
    }
  }

  lemma {:induction false} NothingDropped(lines: seq<string>, pattern: string, algorithm: string)
    requires Lookup(lines, pattern, algorithm).None?
    ensures Others(lines, pattern, algorithm) == lines
  {
    if lines == [] {
    } else {
      NothingDropped(lines[1..], pattern, algorithm);
      assert lines == [lines[0]] + lines[1..];
    }
  }

  /**
   A trust that replaces no record only appends to the file, byte for byte, exactly when the file
   is empty or ends in a line feed, and no break is a carriage return and a line feed.
   */
  lemma TrustAppendsIff(content: string, pattern: string, algorithm: string, key: string)
    requires Lookup(Lines(content), pattern, algorithm).None?
    ensures Trusted(content, pattern, algorithm, key) == content + Entry(pattern, algorithm, key) + "\n"
            <==> (content == "" || EndsInBreak(content)) && !HasCrLf(content)
  {
    hide Lines, Lookup, Others, Entry, HasCrLf, EndsInBreak, Unlines;
    var lines, entry := Lines(content), Entry(pattern, algorithm, key);
    NothingDropped(lines, pattern, algorithm);
    UnlinesAppend(lines, entry);
    UnlinesOfLinesIff(content);
    SameFront(Unlines(lines), content, entry + "\n");
    assert Unlines(lines) + entry + "\n" == Unlines(lines) + (entry + "\n");
    assert content + entry + "\n" == content + (entry + "\n");
  }

  lemma SameFront(a: string, b: string, end: string)
    ensures a + end == b + end <==> a == b
  {
    if a + end == b + end {
      assert a == (a + end)[..|a|] == (b + end)[..|b|] == b;
    }
  }

  // ---------------------------------------------------------------- host patterns

  lemma BracketInjective(h1: string, p1: Port, h2: string, p2: Port)
    requires "[" + h1 + "]:" + Decimal(p1) == "[" + h2 + "]:" + Decimal(p2)
    ensures h1 == h2 && p1 == p2
  {
    assert "[" + h1 + "]:" + Decimal(p1) == "[" + h1 + "]" + ":" + Decimal(p1);
    assert "[" + h2 + "]:" + Decimal(p2) == "[" + h2 + "]" + ":" + Decimal(p2);
    ColonDecimalInjective("[" + h1 + "]", p1, "[" + h2 + "]", p2);
    assert ("[" + h1 + "]")[1..|h1| + 1] == h1 && ("[" + h2 + "]")[1..|h2| + 1] == h2;
  }

  /** Two hosts share a pattern exactly when they are equal, or one is spelled as the other's bracket form. */
  lemma PatternsCollideIff(h1: string, p1: Port, h2: string, p2: Port)
    ensures HostPattern(h1, p1) == HostPattern(h2, p2) <==>
              || (h1 == h2 && p1 == p2)
              || (p1 == 22 && p2 != 22 && h1 == "[" + h2 + "]:" + Decimal(p2))
              || (p2 == 22 && p1 != 22 && h2 == "[" + h1 + "]:" + Decimal(p1))
  {
    if p1 != 22 && p2 != 22 && HostPattern(h1, p1) == HostPattern(h2, p2) {
      BracketInjective(h1, p1, h2, p2);
    }
  }

  /** A host as connections use it: no whitespace, no brackets, not looking like a comment. */
  predicate PlainHost(host: string) {
    IsWord(host) && '[' !in host && ']' !in host && host[0] != '#'
  }

  lemma PlainHostsAreStorable(host: string, port: Port, algorithm: string, key: string)
    requires PlainHost(host) && IsWord(algorithm) && IsWord(key)
    ensures Storable(HostPattern(host, port), algorithm, key)
  {
  }

  lemma PlainPatternsDiffer(h1: string, p1: Port, h2: string, p2: Port)
    requires PlainHost(h1) && PlainHost(h2)
    ensures HostPattern(h1, p1) == HostPattern(h2, p2) <==> h1 == h2 && p1 == p2
  {
    PatternsCollideIff(h1, p1, h2, p2);
    BracketFormHasBracket(h1, p1);
    BracketFormHasBracket(h2, p2);
  }

  lemma BracketFormHasBracket(host: string, port: Port)
    ensures '[' in "[" + host + "]:" + Decimal(port)
  {
    assert ("[" + host + "]:" + Decimal(port))[0] == '[';
  }

  // ---------------------------------------------------------------- whole runs

  datatype HostKey = HostKey(host: string, port: Port, algorithm: string)
  datatype TrustCall = TrustCall(at: HostKey, key: string)

  predicate PlainCall(c: TrustCall) {
    PlainHost(c.at.host) && IsWord(c.at.algorithm) && IsWord(c.key)
  }

  function KeyOf(content: string, at: HostKey): Option<string> {
    Lookup(Lines(content), HostPattern(at.host, at.port), at.algorithm)
  }

  function FileAfter(content: string, calls: seq<TrustCall>): string
    decreases |calls|
  {
    if calls == [] then content
    else
      var c := calls[0];
      FileAfter(Trusted(content, HostPattern(c.at.host, c.at.port), c.at.algorithm, c.key), calls[1..])
  }

  function MapAfter(m: map<HostKey, string>, calls: seq<TrustCall>): map<HostKey, string>
    decreases |calls|
  {
    if calls == [] then m else MapAfter(m[calls[0].at := calls[0].key], calls[1..])
  }

  /** The file answers as the map does. */
  ghost predicate Refines(content: string, m: map<HostKey, string>) {
    forall at: HostKey :: PlainHost(at.host) ==> KeyOf(content, at) == if at in m then Some(m[at]) else None
  }

  lemma EmptyRefines()
    ensures Refines("", map[])
  {
    NoLines();
  }

  /** After any sequence of trusts the file is still the map those trusts describe. */
  lemma {:induction false} FileRefinesMap(content: string, m: map<HostKey, string>, calls: seq<TrustCall>)
    requires Refines(content, m) && forall c :: c in calls ==> PlainCall(c)
    ensures Refines(FileAfter(content, calls), MapAfter(m, calls))
    decreases |calls|
  {
    if calls == [] {
    } else {
      var c := calls[0];
      assert c in calls;
      var pattern := HostPattern(c.at.host, c.at.port);
      var next := Trusted(content, pattern, c.at.algorithm, c.key);
      PlainHostsAreStorable(c.at.host, c.at.port, c.at.algorithm, c.key);
      forall at: HostKey | PlainHost(at.host)
        ensures KeyOf(next, at) == if at == c.at then Some(c.key) else KeyOf(content, at)
      {
        TrustSetsOneRecord(content, pattern, c.at.algorithm, c.key, HostPattern(at.host, at.port), at.algorithm);
        PlainPatternsDiffer(at.host, at.port, c.at.host, c.at.port);
      }
      FileRefinesMap(next, m[c.at := c.key], calls[1..]);
    }
  }

  /** Main result: whatever was trusted since the file was empty, it answers as the map does. */
  lemma FileIsMap(calls: seq<TrustCall>, at: HostKey, key: string, fingerprint: string -> Option<string>)
    requires PlainHost(at.host) && forall c :: c in calls ==> PlainCall(c)
    ensures var found := KeyOf(FileAfter("", calls), at);
            var m := MapAfter(map[], calls);
            && found == (if at in m then Some(m[at]) else None)
            && (Judge(found, key, fingerprint) == Ok(IsTrusted) <==> at in m && m[at] == key)
            && (Judge(found, key, fingerprint) == Ok(IsUnknown) <==> at !in m)
            && (forall f: string :: Judge(found, key, fingerprint) == Ok(IsMismatch(f)) <==>
                  at in m && m[at] != key && fingerprint(m[at]) == Some(f))
            && (Judge(found, key, fingerprint) == Err(InvalidStoredKey) <==>
                  at in m && m[at] != key && fingerprint(m[at]) == None)
  {
    EmptyRefines();
    FileRefinesMap("", map[], calls);
  }

  // ---------------------------------------------------------------- inputs that fail

  lemma UnstorableIsUnknown(content: string, pattern: string, algorithm: string, key: string)
    requires !IsWord(pattern)
    ensures Lookup(Lines(Trusted(content, pattern, algorithm, key)), pattern, algorithm) == None
  {
    var lines := Lines(Trusted(content, pattern, algorithm, key));
    if Lookup(lines, pattern, algorithm).Some? {
      FoundIsStorable(lines, pattern, algorithm);
    }
  }

  /** A host with a blank in its name is trusted and then unknown. */
  lemma BlankHostStaysUnknown(fingerprint: string -> Option<string>)
    ensures var file := Trusted("", HostPattern("a b", 22), "ssh-ed25519", "AAAA");
            Judge(KeyOf(file, HostKey("a b", 22, "ssh-ed25519")), "AAAA", fingerprint) == Ok(IsUnknown)
  {
    assert "a b"[1] == ' ' && "a b"[1] in "a b";
    UnstorableIsUnknown("", "a b", "ssh-ed25519", "AAAA");
  }

  /** Trusting the host named `[h]:23` at port 22 also trusts the host `h` at port 23. */
  lemma BracketHostIsTrustedElsewhere(fingerprint: string -> Option<string>)
    ensures var file := Trusted("", HostPattern("[h]:23", 22), "ssh-ed25519", "AAAA");
            Judge(KeyOf(file, HostKey("h", 23, "ssh-ed25519")), "AAAA", fingerprint) == Ok(IsTrusted)
  {
    var pattern := "[h]:23";
    assert Decimal(2) == "2" && Decimal(23) == "23";
    assert HostPattern("h", 23) == pattern == HostPattern(pattern, 22);
    assert IsWord(pattern) && IsWord("ssh-ed25519") && IsWord("AAAA");
    TrustSetsOneRecord("", pattern, "ssh-ed25519", "AAAA", pattern, "ssh-ed25519");
  }

  lemma CommentIsKept(line: string, pattern: string, algorithm: string)
    requires line == "#" || line == "#\r"
    ensures Others([line], pattern, algorithm) == [line] && StripAll([line]) == ["#"]
  {
    assert "#" + ['\r'] == "#\r";
    TrimDropsLast("#", '\r');
    TrimKeeps("#");
    assert ParseLine(line).None?;
    assert "#\r"[..1] == "#";
  }

  lemma WordsAreStorable()
    ensures Storable("h", "ssh-ed25519", "AAAA")
  {
  }

  /** A comment line that ends in two carriage returns and a line feed keeps neither of them. */
  lemma CommentLosesCarriageReturn()
    ensures var file := Trusted("#\r\r\n", "h", "ssh-ed25519", "AAAA");
            Lines("#\r\r\n") == ["#\r"] && Lines(file) == ["#", Entry("h", "ssh-ed25519", "AAAA")]
  {
    hide Lines, Unlines, Trusted, ParseLine, Storable, Others, Entry;
    NoLines();
    LinesPrepend("#\r\r", "");
    assert "#\r\r" + "\n" + "" == "#\r\r\n" && "#\r\r"[..2] == "#\r";
    WordsAreStorable();
    CommentIsKept("#\r", "h", "ssh-ed25519");
    TrustKeepsOtherLines("#\r\r\n", "h", "ssh-ed25519", "AAAA");
  }

  /** A line break with a carriage return is rewritten as a bare line feed. */
  lemma CommentBreakChanges()
    ensures var file, entry := Trusted("#\r\n", "h", "ssh-ed25519", "AAAA"), Entry("h", "ssh-ed25519", "AAAA");
            file == "#\n" + entry + "\n" && file != "#\r\n" + entry + "\n"
  {
    hide Lines, ParseLine, Others, Entry;
    NoLines();
    LinesPrepend("#\r", "");
    assert "#\r" + "\n" + "" == "#\r\n" && "#\r"[..1] == "#";
    CommentIsKept("#", "h", "ssh-ed25519");
    CommentThenEntry();
    NothingFound("#");
    assert CrLfAt("#\r\n", 1);
    TrustAppendsIff("#\r\n", "h", "ssh-ed25519", "AAAA");
  }

  /** A file without a final line feed gets one. */
  lemma MissingBreakIsAdded()
    ensures var file, entry := Trusted("#", "h", "ssh-ed25519", "AAAA"), Entry("h", "ssh-ed25519", "AAAA");
            file == "#\n" + entry + "\n" && file != "#" + entry + "\n"
  {
    hide Lines, ParseLine, Others, Entry;
    LinesOfLast("#");
    CommentIsKept("#", "h", "ssh-ed25519");
    CommentThenEntry();
    NothingFound("#");
    TrustAppendsIff("#", "h", "ssh-ed25519", "AAAA");
  }

  lemma CommentThenEntry()
    ensures var entry := Entry("h", "ssh-ed25519", "AAAA");
            Unlines(["#"] + [entry]) == "#\n" + entry + "\n"
  {
    UnlinesAppend(["#"], Entry("h", "ssh-ed25519", "AAAA"));
    assert Unlines(["#"]) == "#" + "\n" + Unlines([]);
  }

  lemma NothingFound(line: string)
    requires line == "#"
    ensures Lookup([line], "h", "ssh-ed25519") == None
  {
    TrimKeeps(line);
    assert [line][1..] == [];
  }

  /** Trusting the host `a b` makes the file answer for the host `a` and the algorithm `b`. */
  lemma BlankHostAnswersForAnother()
    ensures var file := Trusted("", HostPattern("a b", 22), "ssh-ed25519", "AAAA");
            KeyOf("", HostKey("a", 22, "b")) == None && KeyOf(file, HostKey("a", 22, "b")) == Some("ssh-ed25519")
  {
    hide Lines, ParseLine, Trusted;
    var entry := Entry("a b", "ssh-ed25519", "AAAA");
    NoLines();
    TrustAnswers("", "a b", "ssh-ed25519", "AAAA", "a", "b");
    LinesPrepend(entry, "");
    assert entry + "\n" + "" == entry + "\n";
    BlankEntryParses();
    assert StripCr(entry) == entry;
  }

  lemma BlankEntryParses()
    ensures ParseLine(Entry("a b", "ssh-ed25519", "AAAA")) == Some(Record("a", "b", "ssh-ed25519"))
    ensures '\n' !in Entry("a b", "ssh-ed25519", "AAAA")
  {
    hide Words, Trim;
    var line := Entry("a b", "ssh-ed25519", "AAAA");
    assert line == "a" + " " + ("b" + " " + ("ssh-ed25519" + " " + "AAAA"));
    TrimKeeps(line);
    WordsPrepend("a", "b" + " " + ("ssh-ed25519" + " " + "AAAA"));
    WordsPrepend("b", "ssh-ed25519" + " " + "AAAA");
    WordsPrepend("ssh-ed25519", "AAAA");
    WordsOfWord("AAAA");
  }
}
