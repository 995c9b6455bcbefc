/**
 Collecting importable aliases from an OpenSSH configuration, and importing them into the
 profile store without overwriting anything.
 */
module SshConfigImport {
  import opened Wrappers
  import opened Text
  import opened SshConfig

  // ---------------------------------------------------------------- import targets

  datatype Parsed = Parsed(targets: seq<string>, unsupported: nat)
  datatype ParseError = MalformedLine

  predicate IsNegated(pattern: string) {
    pattern != "" && pattern[0] == '!'
  }

  predicate IsExactAlias(pattern: string) {
    Trim(pattern) != "" && '*' !in pattern && '?' !in pattern && '!' !in pattern
  }

  function ExactAliases(patterns: seq<string>): (aliases: seq<string>)
    ensures |aliases| <= |patterns|
    ensures forall a :: a in aliases <==> a in patterns && IsExactAlias(a)
  {
    if patterns == [] then []
    else (if IsExactAlias(patterns[0]) then [patterns[0]] else []) + ExactAliases(patterns[1..])
  }

  /** Appends the aliases not yet seen. */
  function AddNew(targets: seq<string>, aliases: seq<string>): (r: seq<string>)
    ensures targets <= r
    ensures forall t :: t in r <==> t in targets || t in aliases
    ensures Distinct(targets) ==> Distinct(r)
    decreases |aliases|
  {
    if aliases == [] then targets
    else AddNew(if aliases[0] in targets then targets else targets + [aliases[0]], aliases[1..])
  }

  predicate Distinct(s: seq<string>) {
    forall i, j :: 0 <= i < j < |s| ==> s[i] != s[j]
  }

  /** One `Host` rule: a lone star is the defaults, any negation makes the rule unsupported. */
  function AddHost(p: Parsed, patterns: seq<string>): Parsed {
    if patterns == ["*"] then p
    else if
      || patterns == [] || ExactAliases(patterns) == []
      || (exists pattern :: pattern in patterns && IsNegated(pattern))
    then p.(unsupported := p.unsupported + 1)
    else
      var aliases := ExactAliases(patterns);
      Parsed(AddNew(p.targets, aliases), p.unsupported + if |aliases| == |patterns| then 0 else 1)
  }

  function ParseLines(p: Parsed, lines: seq<string>): Result<Parsed, ParseError>
    decreases |lines|
  {
    if lines == [] then Ok(p)
    else match SplitConfigLine(lines[0])
      case None => Err(MalformedLine)
      case Some((key, value)) => ParseLines(if IsHostKey(key) then AddHost(p, Words(value)) else p, lines[1..])
  }

  function ParsedConfig(content: string): Result<Parsed, ParseError> {
    ParseLines(Parsed([], 0), Significant(Lines(content)))
  }

  method ParseOpensshConfig(content: string) returns (r: Result<Parsed, ParseError>)
    ensures r == ParsedConfig(content)
  {
    hide Lines, Words, Trim, IsSkipped, SplitConfigLine, AddHost, IsHostKey;
    var parsed := Parsed([], 0);
    var lines := Lines(content);
    while lines != []
      invariant ParseLines(parsed, Significant(lines)) == ParsedConfig(content)
      decreases |lines|
    {
      var line := Trim(lines[0]);
      lines := lines[1..];
      assert IsSkipped(line) ==> [] + Significant(lines) == Significant(lines);
      assert !IsSkipped(line) ==> ([line] + Significant(lines))[1..] == Significant(lines);
      if IsSkipped(line) {
        continue;
      }
      var divided := SplitConfigLine(line);
      if divided.None? {
        return Err(MalformedLine);
      }
      if !IsHostKey(divided.value.0) {
        continue;
      }
      var patterns := Words(divided.value.1);
      parsed := CollectHost(parsed, patterns);
    }
    return Ok(parsed);
  }

  method CollectHost(p: Parsed, patterns: seq<string>) returns (r: Parsed)
    ensures r == AddHost(p, patterns)
  {
    if patterns == [] {
      return p.(unsupported := p.unsupported + 1);
    }
    if |patterns| == 1 && patterns[0] == "*" {
      return p;
    }
    if exists pattern :: pattern in patterns && IsNegated(pattern) {
      return p.(unsupported := p.unsupported + 1);
    }
    var aliases := ExactAliases(patterns);
    if aliases == [] {
      return p.(unsupported := p.unsupported + 1);
    }
    r := p;
    if |aliases| != |patterns| {
      r := r.(unsupported := r.unsupported + 1);
    }
    ghost var unsupported := r.unsupported;
    var rest := aliases;
    while rest != []
      invariant AddNew(r.targets, rest) == AddNew(p.targets, aliases)
      invariant r.unsupported == unsupported
      decreases |rest|
    {
      if rest[0] !in r.targets {
        r := r.(targets := r.targets + [rest[0]]);
      }
      rest := rest[1..];
    }
  }

  /** The rewrite for the resolver does not change what is imported: same targets, count or error. */
  lemma NormalizePreservesParsing(content: string)
    ensures ParsedConfig(Normalized(content)) == ParsedConfig(content)
  {
    hide Lines, Normalized;
    NormalizedLines(content);
    HostStar();
    var lines := Significant(Lines(content));
    assert (["Host *"] + lines)[1..] == lines && [] + lines == lines;
    assert Lower("Host") == "host";
    assert AddHost(Parsed([], 0), ["*"]) == Parsed([], 0);
  }

  /** The line is a supported `Host` rule naming `alias`. */
  predicate Names(line: string, alias: string) {
    var s := SplitConfigLine(line);
    s.Some? && IsHostKey(s.value.0)
    && var patterns := Words(s.value.1);
       alias in patterns && IsExactAlias(alias) && forall p :: p in patterns ==> !IsNegated(p)
  }

  lemma AddHostTargets(p: Parsed, patterns: seq<string>, alias: string)
    ensures alias in AddHost(p, patterns).targets <==>
              || alias in p.targets
              || (alias in patterns && IsExactAlias(alias) && forall q :: q in patterns ==> !IsNegated(q))
    ensures Distinct(p.targets) ==> Distinct(AddHost(p, patterns).targets)
  {
    if patterns == ["*"] {
      assert alias in patterns ==> alias == "*";
    }
  }

  /** The targets are distinct, and an alias is a target exactly when some supported rule names it. */
  lemma {:induction false} TargetsAreNamedAliases(p: Parsed, lines: seq<string>, alias: string)
    requires ParseLines(p, lines).Ok?
    ensures var targets := ParseLines(p, lines).value.targets;
            && (alias in targets <==> alias in p.targets || exists i :: 0 <= i < |lines| && Names(lines[i], alias))
            && (Distinct(p.targets) ==> Distinct(targets))
    decreases |lines|
  {
    hide AddHost, IsExactAlias, Words, SplitConfigLine, IsHostKey, Distinct;
    if lines == [] {
    } else {
      var (key, value) := SplitConfigLine(lines[0]).value;
      var q := if IsHostKey(key) then AddHost(p, Words(value)) else p;
      AddHostTargets(p, Words(value), alias);
      TargetsAreNamedAliases(q, lines[1..], alias);
      assert alias in q.targets <==> alias in p.targets || Names(lines[0], alias);
      assert forall i :: 1 <= i < |lines| ==> lines[i] == lines[1..][i - 1];
      if i :| 0 <= i < |lines[1..]| && Names(lines[1..][i], alias) {
        assert Names(lines[i + 1], alias);
      }
    }
  }

  /** Parsing fails exactly when some significant line has no key and value. */
  lemma {:induction false} FailsIffMalformed(p: Parsed, lines: seq<string>)
    ensures ParseLines(p, lines).Err? <==> exists i :: 0 <= i < |lines| && SplitConfigLine(lines[i]).None?
    decreases |lines|
  {
    hide AddHost, Words, SplitConfigLine, IsHostKey;
    if lines == [] {
    } else {
      assert forall i :: 1 <= i < |lines| ==> lines[i] == lines[1..][i - 1];
      if SplitConfigLine(lines[0]).Some? {
        var (key, value) := SplitConfigLine(lines[0]).value;
        FailsIffMalformed(if IsHostKey(key) then AddHost(p, Words(value)) else p, lines[1..]);
        if i :| 0 <= i < |lines[1..]| && SplitConfigLine(lines[1..][i]).None? {
          assert SplitConfigLine(lines[i + 1]).None?;
        }
      }
    }
  }

  /** A `Host` rule counts as unsupported when it is not the lone star and not all of it are aliases. */
  predicate IsUnsupported(line: string) {
    var s := SplitConfigLine(line);
    && s.Some? && IsHostKey(s.value.0)
    && var patterns := Words(s.value.1);
       patterns != ["*"] && (patterns == [] || exists p :: p in patterns && !IsExactAlias(p))
  }

  function CountUnsupported(lines: seq<string>): nat {
    if lines == [] then 0 else (if IsUnsupported(lines[0]) then 1 else 0) + CountUnsupported(lines[1..])
  }

  lemma {:induction false} AllExactIff(patterns: seq<string>)
    ensures |ExactAliases(patterns)| == |patterns| <==> forall p :: p in patterns ==> IsExactAlias(p)
    ensures (forall p :: p in patterns ==> IsExactAlias(p)) ==> ExactAliases(patterns) == patterns
  {
    hide IsExactAlias;
    if patterns == [] {
    } else {
      AllExactIff(patterns[1..]);
      assert patterns == [patterns[0]] + patterns[1..];
      assert forall p :: p in patterns <==> p == patterns[0] || p in patterns[1..];
    }
  }

  /** The count is that of the unsupported rules, one each whatever is wrong with them. */
  lemma {:induction false} UnsupportedAreCounted(p: Parsed, lines: seq<string>)
    requires ParseLines(p, lines).Ok?
    ensures ParseLines(p, lines).value.unsupported == p.unsupported + CountUnsupported(lines)
    decreases |lines|
  {
    hide SplitConfigLine, IsHostKey, Words, AddHost;
    if lines == [] {
    } else {
      var (key, value) := SplitConfigLine(lines[0]).value;
      var patterns := Words(value);
      OneUnsupported(p, patterns);
      UnsupportedAreCounted(if IsHostKey(key) then AddHost(p, patterns) else p, lines[1..]);
    }
  }

  lemma OneUnsupported(p: Parsed, patterns: seq<string>)
    ensures AddHost(p, patterns).unsupported == p.unsupported
            + if patterns != ["*"] && (patterns == [] || exists q :: q in patterns && !IsExactAlias(q)) then 1 else 0
  {
    AllExactIff(patterns);
    assert forall q :: q in patterns && IsNegated(q) ==> !IsExactAlias(q);
  }

  /** All aliases that supported rules mention, in the order of the text. */
  function Mentions(lines: seq<string>): seq<string> {
    if lines == [] then []
    else
      var s := SplitConfigLine(lines[0]);
      var patterns := if s.Some? && IsHostKey(s.value.0) then Words(s.value.1) else [];
      (if exists p :: p in patterns && IsNegated(p) then [] else ExactAliases(patterns)) + Mentions(lines[1..])
  }

  lemma {:induction false} AddNewConcat(targets: seq<string>, a: seq<string>, b: seq<string>)
    ensures AddNew(targets, a + b) == AddNew(AddNew(targets, a), b)
    decreases |a|
  {
    if a == [] {
      assert a + b == b;
    } else {
      assert (a + b)[1..] == a[1..] + b;
      AddNewConcat(if a[0] in targets then targets else targets + [a[0]], a[1..], b);
    }
  }

  lemma AddHostAddsMentions(p: Parsed, patterns: seq<string>)
    ensures AddHost(p, patterns).targets
         == AddNew(p.targets, if exists q :: q in patterns && IsNegated(q) then [] else ExactAliases(patterns))
  {
    if patterns == ["*"] {
      assert ExactAliases(patterns) == [];
    }
  }

  lemma {:induction false} TargetsAreAdded(p: Parsed, lines: seq<string>)
    requires ParseLines(p, lines).Ok?
    ensures ParseLines(p, lines).value.targets == AddNew(p.targets, Mentions(lines))
    decreases |lines|
  {
    hide SplitConfigLine, IsHostKey, Words, AddHost, ExactAliases;
    if lines == [] {
    } else {
      var (key, value) := SplitConfigLine(lines[0]).value;
      var patterns := if IsHostKey(key) then Words(value) else [];
      var now := if exists q :: q in patterns && IsNegated(q) then [] else ExactAliases(patterns);
      AddHostAddsMentions(p, Words(value));
      NoAliases();
      TargetsAreAdded(if IsHostKey(key) then AddHost(p, Words(value)) else p, lines[1..]);
      AddNewConcat(p.targets, now, Mentions(lines[1..]));
    }
  }

  lemma NoAliases()
    ensures ExactAliases([]) == []
  {
  }

  /** The position of the first occurrence. */
  function FirstAt(s: seq<string>, x: string): (i: nat)
    requires x in s
    ensures i < |s| && s[i] == x && x !in s[..i]
  {
    if s[0] == x then 0
    else
      assert s == [s[0]] + s[1..];
      var i := FirstAt(s[1..], x) + 1;
      assert s[..i] == [s[0]] + s[1..][..i - 1];
      i
  }

  lemma {:induction false} AddNewInOrder(targets: seq<string>, aliases: seq<string>, i: nat, j: nat)
    requires Distinct(targets) && |targets| <= i < j < |AddNew(targets, aliases)|
    ensures var r := AddNew(targets, aliases);
            r[i] in aliases && r[j] in aliases && FirstAt(aliases, r[i]) < FirstAt(aliases, r[j])
    decreases |aliases|
  {
    var r := AddNew(targets, aliases);
    assert Distinct(r) && targets <= r;
    NewAreMentioned(targets, aliases, i);
    NewAreMentioned(targets, aliases, j);
    if aliases[0] in targets {
      AddNewInOrder(targets, aliases[1..], i, j);
      SeenBefore(targets, r, aliases, i);
      SeenBefore(targets, r, aliases, j);
    } else {
      var next := targets + [aliases[0]];
      assert r == AddNew(next, aliases[1..]) && r[|targets|] == aliases[0];
      if i > |targets| {
        AddNewInOrder(next, aliases[1..], i, j);
      }
    }
  }

  lemma SeenBefore(targets: seq<string>, r: seq<string>, aliases: seq<string>, i: nat)
    requires aliases != [] && aliases[0] in targets && targets <= r && Distinct(r) && |targets| <= i < |r|
    ensures r[i] != aliases[0]
  {
  }

  lemma NewAreMentioned(targets: seq<string>, aliases: seq<string>, i: nat)
    requires |targets| <= i < |AddNew(targets, aliases)| && Distinct(targets)
    ensures AddNew(targets, aliases)[i] in aliases
  {
    var r := AddNew(targets, aliases);
    assert r[i] in r && Distinct(r) && targets <= r;
  }

  /** The targets stand in the order in which the text first mentions them. */
  lemma TargetsInOrder(content: string, i: nat, j: nat)
    requires ParsedConfig(content).Ok? && i < j < |ParsedConfig(content).value.targets|
    ensures var targets, mentions := ParsedConfig(content).value.targets, Mentions(Significant(Lines(content)));
            && targets[i] in mentions && targets[j] in mentions
            && FirstAt(mentions, targets[i]) < FirstAt(mentions, targets[j])
  {
    hide Lines, Significant, AddNew;
    TargetsAreAdded(Parsed([], 0), Significant(Lines(content)));
    AddNewInOrder([], Mentions(Significant(Lines(content))), i, j);
  }

  // ---------------------------------------------------------------- the profile store

  const IMPORT_GROUP := "OpenSSH"
  const NAME_MAX := 14

  datatype Profile = Profile(
    id: string,
    name: string,
    host: string,
    port: nat,
    username: string,
    proxyJump: Option<string>,
    jumpIds: Option<seq<string>>,
    tags: Option<seq<string>>,
    extra: string)

  /** What the resolver computes for an alias; it depends on the configuration text alone. */
  datatype Resolved = Resolved(host: string, port: nat, username: string, proxyJump: Option<string>, extra: string)

  datatype Summary = Summary(added: nat, skipped: nat, conflict: nat, errors: nat)

  function ShortName(alias: string): string {
    Trim(alias[..if |alias| < NAME_MAX then |alias| else NAME_MAX])
  }

  /** The profile of an alias; None when the resolver fails or the name is empty. */
  function Mapped(alias: string, resolve: string -> Option<Resolved>, id: string): Option<Profile> {
    match resolve(alias)
    case None => None
    case Some(r) =>
      if ShortName(alias) == "" then None
      else
        Some(Profile(id, ShortName(alias), r.host, r.port, r.username, r.proxyJump, None, Some([IMPORT_GROUP]),
                     r.extra))
  }

  predicate InGroup(p: Profile) {
    p.tags.Some? && IMPORT_GROUP in p.tags.value
  }

  /** The first profile of the import group with that name. */
  function Existing(profiles: seq<Profile>, name: string): Option<Profile> {
    if profiles == [] then None
    else if profiles[0].name == name && InGroup(profiles[0]) then Some(profiles[0])
    else Existing(profiles[1..], name)
  }

  predicate SameTarget(p: Profile, q: Profile) {
    p.host == q.host && p.port == q.port && p.username == q.username
  }

  datatype State = State(profiles: seq<Profile>, summary: Summary)

  function ImportOne(s: State, mapped: Option<Profile>): State {
    match mapped
    case None => s.(summary := s.summary.(errors := s.summary.errors + 1))
    case Some(p) =>
      match Existing(s.profiles, p.name)
      case None => State(s.profiles + [p], s.summary.(added := s.summary.added + 1))
      case Some(q) =>
        if SameTarget(q, p) then s.(summary := s.summary.(skipped := s.summary.skipped + 1))
        else s.(summary := s.summary.(conflict := s.summary.conflict + 1))
  }

  /** `ids` are the fresh identifiers, one per target. */
  function ImportAll(s: State, targets: seq<string>, resolve: string -> Option<Resolved>, ids: seq<string>): State
    requires |ids| == |targets|
    decreases |targets|
  {
    if targets == [] then s
    else ImportAll(ImportOne(s, Mapped(targets[0], resolve, ids[0])), targets[1..], resolve, ids[1..])
  }

  // ---------------------------------------------------------------- jump hosts

  /** `user@host:port` reduced to the lower-case host. */
  function JumpName(item: string): string {
    var parts := SplitOn(item, '@');
    Lower(SplitOn(parts[|parts| - 1], ':')[0])
  }

  function JumpNames(items: seq<string>): seq<string> {
    if items == [] then []
    else
      var item := Trim(items[0]);
      (if item == "" then [] else [JumpName(item)]) + JumpNames(items[1..])
  }

  /** A later profile of the same lower-case name wins. */
  function NameToId(profiles: seq<Profile>): map<string, string> {
    if profiles == [] then map[]
    else
      var last := profiles[|profiles| - 1];
      NameToId(profiles[..|profiles| - 1])[Lower(last.name) := last.id]
  }

  function AllIds(names: seq<string>, ids: map<string, string>): Option<seq<string>> {
    if names == [] then Some([])
    else if names[0] !in ids then None
    else match AllIds(names[1..], ids)
      case None => None
      case Some(rest) => Some([ids[names[0]]] + rest)
  }

  function WithJumps(p: Profile, ids: map<string, string>): Profile {
    if p.proxyJump.None? then p
    else
      var found := AllIds(JumpNames(SplitOn(p.proxyJump.value, ',')), ids);
      if found.Some? && found.value != [] then p.(jumpIds := found) else p
  }

  function ResolveWith(profiles: seq<Profile>, ids: map<string, string>): (r: seq<Profile>)
    ensures |r| == |profiles| && forall i :: 0 <= i < |r| ==> r[i] == WithJumps(profiles[i], ids)
  {
    if profiles == [] then [] else [WithJumps(profiles[0], ids)] + ResolveWith(profiles[1..], ids)
  }

  function ResolveJumps(profiles: seq<Profile>): seq<Profile> {
    ResolveWith(profiles, NameToId(profiles))
  }

  /** The store; `groups` is the validated group list. */
  class ProfileStore {
    var profiles: seq<Profile>
    var groups: seq<string>

    constructor (profiles: seq<Profile>, groups: seq<string>)
      ensures this.profiles == profiles && this.groups == groups
    {
      this.profiles, this.groups := profiles, groups;
    }

    method ResolveJumpIds()
      modifies `profiles
      ensures profiles == ResolveJumps(old(profiles))
    {
      hide WithJumps, NameToId;
      var ids := NameToId(profiles);
      var i := 0;
      while i < |profiles|
        invariant 0 <= i <= |profiles| == |old(profiles)|
        invariant forall j :: 0 <= j < i ==> profiles[j] == WithJumps(old(profiles)[j], ids)
        invariant forall j :: i <= j < |profiles| ==> profiles[j] == old(profiles)[j]
      {
        profiles := profiles[i := WithJumps(profiles[i], ids)];
        i := i + 1;
      }
      assert profiles == ResolveJumps(old(profiles));
    }

    /** `nextGroups` is the validated group list with the import group, None when validation fails. */
    method ApplyImport(targets: seq<string>, resolve: string -> Option<Resolved>, ids: seq<string>,
        nextGroups: Option<seq<string>>)
      returns (summary: Option<Summary>)
      requires |ids| == |targets|
      modifies this
      ensures summary.None? <==> nextGroups.None?
      ensures nextGroups.None? ==> profiles == old(profiles) && groups == old(groups)
      ensures nextGroups.Some? ==>
                var after := ImportAll(State(old(profiles), Summary(0, 0, 0, 0)), targets, resolve, ids);
                && groups == nextGroups.value
                && profiles == ResolveJumps(after.profiles)
                && summary == Some(after.summary)
    {
      hide Mapped, WithJumps, NameToId;
      if nextGroups.None? {
        return None;
      }
      groups := nextGroups.value;
      var counts := Summary(0, 0, 0, 0);
      var rest, newIds := targets, ids;
      ghost var after := ImportAll(State(profiles, counts), targets, resolve, ids);
      while rest != []
        invariant |newIds| == |rest|
        invariant ImportAll(State(profiles, counts), rest, resolve, newIds) == after
        invariant groups == nextGroups.value
        decreases |rest|
      {
        var mapped := Mapped(rest[0], resolve, newIds[0]);
        rest, newIds := rest[1..], newIds[1..];
        if mapped.None? {
          counts := counts.(errors := counts.errors + 1);
          continue;
        }
        var existing := Existing(profiles, mapped.value.name);
        if existing.Some? {
          if SameTarget(existing.value, mapped.value) {
            counts := counts.(skipped := counts.skipped + 1);
          } else {
            counts := counts.(conflict := counts.conflict + 1);
          }
          continue;
        }
        profiles := profiles + [mapped.value];
        counts := counts.(added := counts.added + 1);
      }
      ResolveJumpIds();
      return Some(counts);
    }
  }

  // ---------------------------------------------------------------- what an import keeps

  /** At most one profile of the import group has a given name. */
  predicate UniqueNames(profiles: seq<Profile>) {
    forall i, j :: 0 <= i < j < |profiles| && InGroup(profiles[i]) && InGroup(profiles[j]) ==>
      profiles[i].name != profiles[j].name
  }

  lemma {:induction false} ExistingMeaning(profiles: seq<Profile>, name: string)
    ensures Existing(profiles, name).None? <==>
              forall i :: 0 <= i < |profiles| ==> !(profiles[i].name == name && InGroup(profiles[i]))
  {
    if profiles == [] {
    } else {
      ExistingMeaning(profiles[1..], name);
      assert forall i :: 1 <= i < |profiles| ==> profiles[i] == profiles[1..][i - 1];
      if Existing(profiles, name).None? {
        forall i | 0 <= i < |profiles|
          ensures !(profiles[i].name == name && InGroup(profiles[i]))
        {
          if i > 0 {
            assert profiles[i] == profiles[1..][i - 1];
          }
        }
      } else if Existing(profiles[1..], name).Some? {
        var i :| 0 <= i < |profiles[1..]| && profiles[1..][i].name == name && InGroup(profiles[1..][i]);
        assert profiles[i + 1].name == name;
      }
    }
  }

  lemma {:induction false} ExistingPrefix(front: seq<Profile>, back: seq<Profile>, name: string)
    ensures Existing(front + back, name)
         == if Existing(front, name).Some? then Existing(front, name) else Existing(back, name)
  {
    if front == [] {
      assert front + back == back;
    } else {
      assert (front + back)[1..] == front[1..] + back;
      ExistingPrefix(front[1..], back, name);
    }
  }

  /** The name an imported profile gets: fourteen characters at most, without whitespace around. */
  lemma ShortNameIs(alias: string)
    ensures |alias| <= 14 ==> ShortName(alias) == Trim(alias)
    ensures |alias| > 14 ==> ShortName(alias) == Trim(alias[..14])
    ensures |ShortName(alias)| <= 14
  {
    var cut := alias[..if |alias| < NAME_MAX then |alias| else NAME_MAX];
    TrimStartShape(cut);
    TrimEndShape(TrimStart(cut));
    assert |alias| <= 14 ==> cut == alias;
  }

  /**
   One target. It fails exactly when it cannot be resolved or its name is empty; it is added at the
   end, with the resolved values, exactly when the import group has no profile of that name;
   otherwise it is a skip when the first such profile has the same host, port and user, and a
   conflict when not.
   */
  lemma OneTarget(s: State, alias: string, resolve: string -> Option<Resolved>, id: string)
    ensures var t := ImportOne(s, Mapped(alias, resolve, id));
            var name := ShortName(alias);
            if resolve(alias) == None || name == "" then
              t == State(s.profiles, s.summary.(errors := s.summary.errors + 1))
            else
              var r := resolve(alias).value;
              && ((forall i :: 0 <= i < |s.profiles| ==> !IsNamed(s.profiles[i], name)) ==>
                    && t.summary == s.summary.(added := s.summary.added + 1)
                    && t.profiles == s.profiles + [Profile(id, name, r.host, r.port, r.username, r.proxyJump, None,
                                                           Some(["OpenSSH"]), r.extra)])
              && (forall i :: IsFirstNamed(s.profiles, name, i) ==>
                    && t.profiles == s.profiles
                    && var p := s.profiles[i];
                       t.summary == if p.host == r.host && p.port == r.port && p.username == r.username
                                    then s.summary.(skipped := s.summary.skipped + 1)
                                    else s.summary.(conflict := s.summary.conflict + 1))
  {
    hide ShortName;
    var name := ShortName(alias);
    ExistingMeaning(s.profiles, name);
    forall i | IsFirstNamed(s.profiles, name, i)
      ensures Existing(s.profiles, name) == Some(s.profiles[i])
    {
      FirstIsExisting(s.profiles, name, i);
    }
  }

  predicate IsNamed(p: Profile, name: string) {
    p.name == name && p.tags.Some? && "OpenSSH" in p.tags.value
  }

  predicate IsFirstNamed(profiles: seq<Profile>, name: string, i: int) {
    0 <= i < |profiles| && IsNamed(profiles[i], name) && forall j :: 0 <= j < i ==> !IsNamed(profiles[j], name)
  }

  lemma {:induction false} FirstIsExisting(profiles: seq<Profile>, name: string, i: nat)
    requires IsFirstNamed(profiles, name, i)
    ensures Existing(profiles, name) == Some(profiles[i])
  {
    if i == 0 {
    } else {
      FirstIsExisting(profiles[1..], name, i - 1);
    }
  }

  function Total(s: Summary): nat {
    s.added + s.skipped + s.conflict + s.errors
  }

  /** Every target is counted once; earlier profiles stay as and where they are; names in the
      import group stay unique, whatever aliases truncation makes equal. */
  lemma {:induction false} ImportKeeps(s: State, targets: seq<string>, resolve: string -> Option<Resolved>,
      ids: seq<string>)
    requires |ids| == |targets|
    ensures var t := ImportAll(s, targets, resolve, ids);
            && Total(t.summary) == Total(s.summary) + |targets|
            && s.profiles <= t.profiles
            && |t.profiles| - |s.profiles| == t.summary.added - s.summary.added
            && (UniqueNames(s.profiles) ==> UniqueNames(t.profiles))
    decreases |targets|
  {
    hide Mapped, InGroup;
    if targets == [] {
    } else {
      var mapped := Mapped(targets[0], resolve, ids[0]);
      var next := ImportOne(s, mapped);
      if mapped.Some? {
        ExistingMeaning(s.profiles, mapped.value.name);
      }
      ImportKeeps(next, targets[1..], resolve, ids[1..]);
    }
  }

  /** Resolving jump hosts changes no profile's other fields. */
  predicate Alike(p: Profile, q: Profile) {
    p.(jumpIds := None) == q.(jumpIds := None)
  }

  ghost predicate AllAlike(a: seq<Profile>, b: seq<Profile>) {
    |a| == |b| && forall i :: 0 <= i < |a| ==> Alike(a[i], b[i])
  }

  lemma ResolveIsAlike(profiles: seq<Profile>)
    ensures AllAlike(profiles, ResolveJumps(profiles))
  {
  }

  lemma {:induction false} AlikeNames(a: seq<Profile>, b: seq<Profile>)
    requires AllAlike(a, b)
    ensures NameToId(a) == NameToId(b)
  {
    if a == [] {
    } else {
      assert AllAlike(a[..|a| - 1], b[..|b| - 1]);
      AlikeNames(a[..|a| - 1], b[..|b| - 1]);
      assert Alike(a[|a| - 1], b[|b| - 1]);
    }
  }

  /** Resolving twice is resolving once. */
  lemma ResolveIdempotent(profiles: seq<Profile>)
    ensures ResolveJumps(ResolveJumps(profiles)) == ResolveJumps(profiles)
  {
    hide NameToId, JumpNames, SplitOn, AllIds;
    ResolveIsAlike(profiles);
    AlikeNames(profiles, ResolveJumps(profiles));
  }

  predicate IsLastNamed(profiles: seq<Profile>, name: string, j: int) {
    && 0 <= j < |profiles| && Lower(profiles[j].name) == name
    && forall k :: j < k < |profiles| ==> Lower(profiles[k].name) != name
  }

  /** `id` is that of the last profile whose lower-case name this is. */
  ghost predicate IsIdOf(profiles: seq<Profile>, name: string, id: string) {
    exists j :: IsLastNamed(profiles, name, j) && profiles[j].id == id
  }

  lemma {:induction false} IdOfName(profiles: seq<Profile>, name: string, id: string)
    ensures (name in NameToId(profiles) && NameToId(profiles)[name] == id) <==> IsIdOf(profiles, name, id)
  {
    hide Lower;
    if profiles == [] {
    } else {
      var front, last := profiles[..|profiles| - 1], profiles[|profiles| - 1];
      IdOfName(front, name, id);
      if Lower(last.name) == name {
        assert IsLastNamed(profiles, name, |profiles| - 1);
      } else {
        LastDiffers(front, last, name, id);
        assert profiles == front + [last];
      }
    }
  }

  lemma LastDiffers(front: seq<Profile>, last: Profile, name: string, id: string)
    requires Lower(last.name) != name
    ensures IsIdOf(front + [last], name, id) <==> IsIdOf(front, name, id)
  {
    hide Lower;
    var all := front + [last];
    forall j
      ensures IsLastNamed(all, name, j) <==> IsLastNamed(front, name, j)
      ensures IsLastNamed(front, name, j) ==> all[j] == front[j]
    {
      assert forall k :: 0 <= k < |front| ==> all[k] == front[k];
    }
  }

  /** The ids of all named profiles, in the order of the names. */
  ghost predicate AreIdsOf(profiles: seq<Profile>, names: seq<string>, ids: seq<string>) {
    |ids| == |names| && forall k :: 0 <= k < |names| ==> IsIdOf(profiles, names[k], ids[k])
  }

  lemma {:induction false} AllIdsIff(profiles: seq<Profile>, names: seq<string>, ids: seq<string>)
    ensures AllIds(names, NameToId(profiles)) == Some(ids) <==> AreIdsOf(profiles, names, ids)
  {
    hide NameToId, IsIdOf;
    if names == [] {
    } else if ids == [] {
    } else {
      IdOfName(profiles, names[0], ids[0]);
      AllIdsIff(profiles, names[1..], ids[1..]);
      IdsInTurn(profiles, names, ids);
      assert ids == [ids[0]] + ids[1..];
    }
  }

  lemma IdsInTurn(profiles: seq<Profile>, names: seq<string>, ids: seq<string>)
    requires names != [] && ids != []
    ensures AreIdsOf(profiles, names, ids)
            <==> IsIdOf(profiles, names[0], ids[0]) && AreIdsOf(profiles, names[1..], ids[1..])
  {
    hide IsIdOf;
    if AreIdsOf(profiles, names, ids) {
      forall k | 0 <= k < |names[1..]|
        ensures IsIdOf(profiles, names[1..][k], ids[1..][k])
      {
        assert IsIdOf(profiles, names[k + 1], ids[k + 1]);
      }
    }
    if IsIdOf(profiles, names[0], ids[0]) && AreIdsOf(profiles, names[1..], ids[1..]) {
      forall k | 0 <= k < |names|
        ensures IsIdOf(profiles, names[k], ids[k])
      {
        assert k > 0 ==> IsIdOf(profiles, names[1..][k - 1], ids[1..][k - 1]);
      }
    }
  }

  /**
   Jump hosts: a profile whose list names at least one host gets the ids of all of them, in order,
   when every name is known; otherwise it stays as it is.
   */
  lemma JumpsAreResolved(profiles: seq<Profile>, i: nat)
    requires i < |profiles|
    ensures var p, r := profiles[i], ResolveJumps(profiles)[i];
            var names := if p.proxyJump.Some? then JumpNames(SplitOn(p.proxyJump.value, ',')) else [];
            && (forall ids :: names != [] && AreIdsOf(profiles, names, ids) ==> r == p.(jumpIds := Some(ids)))
            && ((names == [] || forall ids :: !AreIdsOf(profiles, names, ids)) ==> r == p)
  {
    hide NameToId, JumpNames, SplitOn, AreIdsOf;
    var p := profiles[i];
    if p.proxyJump.Some? {
      var names := JumpNames(SplitOn(p.proxyJump.value, ','));
      forall ids
        ensures AllIds(names, NameToId(profiles)) == Some(ids) <==> AreIdsOf(profiles, names, ids)
      {
        AllIdsIff(profiles, names, ids);
      }
      SomeIds(names, NameToId(profiles));
    }
  }

  lemma SomeIds(names: seq<string>, ids: map<string, string>)
    ensures AllIds(names, ids).Some? ==> (AllIds(names, ids).value != [] <==> names != [])
  {
  }

  /** Of an item of the list the lower-case host counts; user and port are cut off. */
  lemma JumpNameIs(user: string, host: string, port: string)
    requires '@' !in host && ':' !in host && '@' !in port
    ensures JumpName(host) == Lower(host)
    ensures JumpName(host + ":" + port) == Lower(host)
    ensures JumpName(user + "@" + host) == Lower(host)
    ensures JumpName(user + "@" + (host + ":" + port)) == Lower(host)
  {
    hide SplitOn;
    SplitNone(host, '@');
    SplitNone(host, ':');
    SplitNone(host + ":" + port, '@');
    SplitFirst(host, ':', port);
    SplitLast(user, '@', host);
    SplitLast(user, '@', host + ":" + port);
  }

  /** The items of the list are between its commas; whitespace around them and empty items do not count. */
  lemma JumpListIs(item: string, rest: string)
    requires ',' !in item
    ensures JumpNames(SplitOn(item, ',')) == if Trim(item) == "" then [] else [JumpName(Trim(item))]
    ensures JumpNames(SplitOn(item + "," + rest, ','))
         == (if Trim(item) == "" then [] else [JumpName(Trim(item))]) + JumpNames(SplitOn(rest, ','))
  {
    hide SplitOn, Trim, JumpName;
    SplitNone(item, ',');
    SplitFirst(item, ',', rest);
    assert [item][1..] == [];
    assert ([item] + SplitOn(rest, ','))[1..] == SplitOn(rest, ',');
  }

  lemma {:induction false} AlikeExisting(a: seq<Profile>, b: seq<Profile>, name: string)
    requires AllAlike(a, b)
    ensures Existing(a, name).Some? <==> Existing(b, name).Some?
    ensures Existing(a, name).Some? ==> Alike(Existing(a, name).value, Existing(b, name).value)
  {
    if a == [] {
    } else {
      assert Alike(a[0], b[0]);
      assert AllAlike(a[1..], b[1..]);
      AlikeExisting(a[1..], b[1..], name);
    }
  }

  /** How the second pass counts what the first pass counted: an addition becomes a skip. */
  predicate Recounts(s: Summary, t: Summary, u: Summary, v: Summary) {
    && v.added == u.added
    && v.skipped + s.skipped + s.added == u.skipped + t.skipped + t.added
    && v.conflict + s.conflict == u.conflict + t.conflict
    && v.errors + s.errors == u.errors + t.errors
  }

  lemma SecondStep(s: State, first: Option<Profile>, second: Option<Profile>, u: State, end: seq<Profile>)
    requires first.Some? <==> second.Some?
    requires first.Some? ==> first.value.(id := second.value.id) == second.value && InGroup(first.value)
    requires ImportOne(s, first).profiles <= end && AllAlike(end, u.profiles)
    ensures ImportOne(u, second).profiles == u.profiles
    ensures Recounts(s.summary, ImportOne(s, first).summary, u.summary, ImportOne(u, second).summary)
  {
    if first.Some? {
      var next, name := ImportOne(s, first), first.value.name;
      AlikeExisting(end, u.profiles, name);
      ExistingPrefix(next.profiles, end[|next.profiles|..], name);
      assert next.profiles + end[|next.profiles|..] == end;
      ExistingPrefix(s.profiles, [first.value], name);
      assert Existing([first.value], name) == Some(first.value);
    }
  }

  /**
   Importing the same targets into what the first import left (up to resolved jump ids) adds
   nothing: added targets are now skipped, all others fall into the same class as before.
   */
  lemma {:induction false} SecondPassAddsNothing(
    s: State, targets: seq<string>, resolve: string -> Option<Resolved>, ids: seq<string>,
    u: State, newIds: seq<string>)
    requires |ids| == |targets| == |newIds|
    requires AllAlike(ImportAll(s, targets, resolve, ids).profiles, u.profiles)
    ensures var t, v := ImportAll(s, targets, resolve, ids), ImportAll(u, targets, resolve, newIds);
            v.profiles == u.profiles && Recounts(s.summary, t.summary, u.summary, v.summary)
    decreases |targets|
  {
    hide AllAlike, Existing;
    if targets == [] {
    } else {
      var first, second := Mapped(targets[0], resolve, ids[0]), Mapped(targets[0], resolve, newIds[0]);
      var next, end := ImportOne(s, first), ImportAll(s, targets, resolve, ids).profiles;
      ImportKeeps(next, targets[1..], resolve, ids[1..]);
      SecondStep(s, first, second, u, end);
      SecondPassAddsNothing(next, targets[1..], resolve, ids[1..], ImportOne(u, second), newIds[1..]);
    }
  }

  /** Main result: importing the same configuration twice adds nothing and leaves every profile,
      resolved jump ids included, as the first import left it. */
  lemma {:induction false} ImportTwice(profiles: seq<Profile>, targets: seq<string>,
      resolve: string -> Option<Resolved>, ids: seq<string>, newIds: seq<string>)
    requires |ids| == |targets| == |newIds|
    ensures var first := ImportAll(State(profiles, Summary(0, 0, 0, 0)), targets, resolve, ids);
            var stored := ResolveJumps(first.profiles);
            var second := ImportAll(State(stored, Summary(0, 0, 0, 0)), targets, resolve, newIds);
            && ResolveJumps(second.profiles) == second.profiles == stored
            && var s := first.summary;
               second.summary == Summary(0, s.skipped + s.added, s.conflict, s.errors)
  {
    var zero := Summary(0, 0, 0, 0);
    var first := ImportAll(State(profiles, zero), targets, resolve, ids);
    var stored := ResolveJumps(first.profiles);
    ResolveIsAlike(first.profiles);
    SecondPassAddsNothing(State(profiles, zero), targets, resolve, ids, State(stored, zero), newIds);
    ResolveIdempotent(first.profiles);
  }
}
