/**
 The configuration directory of the running process and the bootstrap file that decides the next
 start. The process keeps its root; `pendingRoot` tells the user what the next start will use.
 */
module ConfigPaths {
  import opened Wrappers

  /** A path compares by its components. */
  datatype Path = Path(absolute: bool, components: seq<string>)

  function Join(base: Path, tail: Path): Path {
    if tail.absolute then tail else Path(base.absolute, base.components + tail.components)
  }

  const CUSTOM_NAME := Path(false, ["fluxterm"])

  datatype Source = Environment | User | Default

  /** The bootstrap file: absent, not parsable, or its three fields. */
  datatype File = Absent | Unparsable | Parsed(version: nat, configDir: Option<Path>, locale: Option<string>)

  datatype Bootstrap = Bootstrap(configDir: Option<Path>, locale: Option<string>)

  /** Another version or a relative directory is an error, an absent file is not. */
  function ReadBootstrap(file: File): Option<Bootstrap> {
    match file
    case Absent => Some(Bootstrap(None, None))
    case Unparsable => None
    case Parsed(version, configDir, locale) =>
      if version != 1 || (configDir.Some? && !configDir.value.absolute) then None
      else Some(Bootstrap(configDir, locale))
  }

  function NormalLocale(locale: Option<string>): Option<string> {
    if locale in [Some("zh-CN"), Some("en-US")] then locale else None
  }

  /** What does not change while the process runs; `environment` is the variable's nonblank value. */
  datatype Setting = Setting(home: Path, defaultRoot: Path, environment: Option<Path>)

  datatype Startup = Startup(root: Path, source: Source, failed: bool)

  function StartupRoot(c: Setting, file: File): Startup {
    if c.environment.Some? then Startup(Join(c.home, c.environment.value), Environment, false)
    else match ReadBootstrap(file)
      case None => Startup(c.defaultRoot, User, true)
      case Some(b) =>
        if b.configDir.Some? then Startup(b.configDir.value, User, false)
        else Startup(c.defaultRoot, Default, false)
  }

  datatype State = State(
    activeRoot: Path,
    source: Source,
    pendingRoot: Option<Path>,
    bootstrapRoot: Option<Path>,
    locale: Option<string>,
    file: File)

  function Initial(c: Setting, file: File): State {
    var start, b := StartupRoot(c, file), ReadBootstrap(file);
    State(start.root, start.source, None,
          if b.Some? then b.value.configDir else None,
          if b.Some? then NormalLocale(b.value.locale) else None,
          file)
  }

  function ResolvePending(activeRoot: Path, activeSource: Source, targetRoot: Path, targetSource: Source)
    : Option<Path>
  {
    if activeRoot == targetRoot && activeSource == targetSource then None else Some(targetRoot)
  }

  /** A choice made in the settings; `usable` is the outcome of the directory checks, `writes` of
      the atomic file write. */
  datatype Action =
    | SelectParent(parent: Path, usable: bool, writes: bool)
    | ResetToDefault(usable: bool, writes: bool)
    | SetLocale(locale: string, writes: bool)

  predicate Succeeds(s: State, a: Action) {
    match a
    case SelectParent(parent, usable, writes) => s.source != Environment && parent.absolute && usable && writes
    case ResetToDefault(usable, writes) => s.source != Environment && usable && writes
    case SetLocale(locale, writes) => NormalLocale(Some(locale)).Some? && writes
  }

  function Next(c: Setting, s: State, a: Action): State {
    if !Succeeds(s, a) then s
    else match a
      case SelectParent(parent, _, _) =>
        var target := Join(parent, CUSTOM_NAME);
        s.(file := Parsed(1, Some(target), s.locale),
           pendingRoot := ResolvePending(s.activeRoot, s.source, target, User),
           bootstrapRoot := Some(target))
      case ResetToDefault(_, _) =>
        s.(file := Parsed(1, None, s.locale),
           pendingRoot := ResolvePending(s.activeRoot, s.source, c.defaultRoot, Default),
           bootstrapRoot := None)
      case SetLocale(locale, _) =>
        s.(file := Parsed(1, s.bootstrapRoot, Some(locale)), locale := Some(locale))
  }

  function Run(c: Setting, s: State, actions: seq<Action>): State
    decreases |actions|
  {
    if actions == [] then s else Run(c, Next(c, s, actions[0]), actions[1..])
  }

  class ConfigDirectoryState {
    const home: Path
    const defaultRoot: Path
    const environment: Option<Path>
    var activeRoot: Path
    var source: Source
    var pendingRoot: Option<Path>
    var bootstrapRoot: Option<Path>
    var locale: Option<string>
    var bootstrapFile: File

    ghost function Abstract(): State
      reads this
    {
      State(activeRoot, source, pendingRoot, bootstrapRoot, locale, bootstrapFile)
    }

    ghost function Fixed(): Setting {
      Setting(home, defaultRoot, environment)
    }

    constructor (home: Path, defaultRoot: Path, environment: Option<Path>, file: File)
      ensures Fixed() == Setting(home, defaultRoot, environment)
      ensures Abstract() == Initial(Fixed(), file)
    {
      var read := ReadBootstrap(file);
      var start := StartupRoot(Setting(home, defaultRoot, environment), file);
      this.home, this.defaultRoot, this.environment := home, defaultRoot, environment;
      activeRoot, source, pendingRoot := start.root, start.source, None;
      bootstrapRoot := if read.Some? then read.value.configDir else None;
      locale := if read.Some? then NormalLocale(read.value.locale) else None;
      bootstrapFile := file;
    }

    method WriteBootstrap(configDir: Option<Path>, locale: Option<string>, writes: bool) returns (ok: bool)
      modifies `bootstrapFile
      ensures ok == writes
      ensures bootstrapFile == if writes then Parsed(1, configDir, locale) else old(bootstrapFile)
    {
      if writes {
        bootstrapFile := Parsed(1, configDir, locale);
      }
      return writes;
    }

    method Select(parent: Path, usable: bool, writes: bool) returns (ok: bool)
      modifies this
      ensures ok == Succeeds(old(Abstract()), SelectParent(parent, usable, writes))
      ensures Abstract() == Next(Fixed(), old(Abstract()), SelectParent(parent, usable, writes))
    {
      if source == Environment || !parent.absolute || !usable {
        return false;
      }
      var target := Join(parent, CUSTOM_NAME);
      ok := WriteBootstrap(Some(target), locale, writes);
      if ok {
        pendingRoot := ResolvePending(activeRoot, source, target, User);
        bootstrapRoot := Some(target);
      }
    }

    method Reset(usable: bool, writes: bool) returns (ok: bool)
      modifies this
      ensures ok == Succeeds(old(Abstract()), ResetToDefault(usable, writes))
      ensures Abstract() == Next(Fixed(), old(Abstract()), ResetToDefault(usable, writes))
    {
      if source == Environment || !usable {
        return false;
      }
      ok := WriteBootstrap(None, locale, writes);
      if ok {
        pendingRoot := ResolvePending(activeRoot, source, defaultRoot, Default);
        bootstrapRoot := None;
      }
    }

    method ChangeLocale(newLocale: string, writes: bool) returns (ok: bool)
      modifies this
      ensures ok == Succeeds(old(Abstract()), SetLocale(newLocale, writes))
      ensures Abstract() == Next(Fixed(), old(Abstract()), SetLocale(newLocale, writes))
    {
      var normal := NormalLocale(Some(newLocale));
      if normal.None? {
        return false;
      }
      ok := WriteBootstrap(bootstrapRoot, normal, writes);
      if ok {
        locale := normal;
      }
    }
  }

  // ---------------------------------------------------------------- the prediction

  /** `pendingRoot` is None exactly when the next start comes out the same, else its root. */
  ghost predicate PredictsNextStart(c: Setting, s: State) {
    var next := StartupRoot(c, s.file);
    && (s.pendingRoot.None? <==> next.root == s.activeRoot && next.source == s.source)
    && (s.pendingRoot.Some? ==> s.pendingRoot.value == next.root)
  }

  /** Memory and file agree, and the file can be read back. */
  ghost predicate Synced(s: State) {
    var b := ReadBootstrap(s.file);
    && b.Some? && b.value.configDir == s.bootstrapRoot && NormalLocale(b.value.locale) == s.locale
  }

  ghost predicate EnvironmentDecides(c: Setting, s: State) {
    s.source == Environment <==> c.environment.Some?
  }

  lemma SyncedNext(c: Setting, s: State, a: Action)
    requires Synced(s) && PredictsNextStart(c, s) && EnvironmentDecides(c, s)
    ensures var t := Next(c, s, a);
            && Synced(t) && PredictsNextStart(c, t) && EnvironmentDecides(c, t)
            && t.activeRoot == s.activeRoot && t.source == s.source
            && (a.SetLocale? ==> ReadBootstrap(t.file).value.configDir == ReadBootstrap(s.file).value.configDir)
  {
  }

  /**
   Main result: when startup could read the bootstrap file, then after any run of choices,
   including failed ones, the pending root is exactly the next start's, the file reads back, and
   the active root and source never change.
   */
  lemma {:induction false} PendingRootIsNextStart(c: Setting, s: State, actions: seq<Action>)
    requires Synced(s) && PredictsNextStart(c, s) && EnvironmentDecides(c, s)
    ensures var t := Run(c, s, actions);
            && Synced(t) && PredictsNextStart(c, t) && EnvironmentDecides(c, t)
            && t.activeRoot == s.activeRoot && t.source == s.source
    decreases |actions|
  {
    if actions == [] {
    } else {
      SyncedNext(c, s, actions[0]);
      PendingRootIsNextStart(c, Next(c, s, actions[0]), actions[1..]);
    }
  }

  lemma InitialIsSynced(c: Setting, file: File)
    requires ReadBootstrap(file).Some?
    ensures var s := Initial(c, file);
            Synced(s) && PredictsNextStart(c, s) && EnvironmentDecides(c, s)
  {
  }

  lemma PendingRootFromStartup(c: Setting, file: File, actions: seq<Action>)
    requires ReadBootstrap(file).Some?
    ensures var s, t := Initial(c, file), Run(c, Initial(c, file), actions);
            && PredictsNextStart(c, t) && !StartupRoot(c, t.file).failed && ReadBootstrap(t.file).Some?
            && t.activeRoot == s.activeRoot && t.source == s.source
  {
    InitialIsSynced(c, file);
    PendingRootIsNextStart(c, Initial(c, file), actions);
  }

  // ---------------------------------------------------------------- what the next start uses

  /** What the user asked for last: a directory of their own or none, and a language. */
  datatype Wanted = Wanted(directory: Option<Path>, locale: Option<string>)

  /** Each choice that is allowed and can be written replaces the one before; `locked` is a start
      decided by the environment. */
  function WantedAfter(w: Wanted, locked: bool, actions: seq<Action>): Wanted
    decreases |actions|
  {
    if actions == [] then w
    else
      var next :=
        match actions[0]
        case SelectParent(parent, usable, writes) =>
          if !locked && parent.absolute && usable && writes then
            w.(directory := Some(Path(true, parent.components + ["fluxterm"])))
          else w
        case ResetToDefault(usable, writes) => if !locked && usable && writes then w.(directory := None) else w
        case SetLocale(locale, writes) =>
          if locale in ["zh-CN", "en-US"] && writes then w.(locale := Some(locale)) else w;
      WantedAfter(next, locked, actions[1..])
  }

  lemma {:induction false} FileHoldsWanted(c: Setting, s: State, actions: seq<Action>)
    requires Synced(s)
    ensures var w, b := WantedAfter(Wanted(s.bootstrapRoot, s.locale), s.source == Environment, actions),
                        ReadBootstrap(Run(c, s, actions).file);
            b.Some? && b.value.configDir == w.directory && NormalLocale(b.value.locale) == w.locale
    decreases |actions|
  {
    if actions == [] {
    } else {
      FileHoldsWanted(c, Next(c, s, actions[0]), actions[1..]);
    }
  }

  /** Main result: the next start uses the application directory below the parent chosen last, or
      the default one, and the language saved last. */
  lemma NextStartUsesLastChoice(c: Setting, file: File, actions: seq<Action>)
    requires ReadBootstrap(file).Some? && c.environment.None?
    ensures var b := ReadBootstrap(file).value;
            var w := WantedAfter(Wanted(b.configDir, NormalLocale(b.locale)), false, actions);
            var next := Initial(c, Run(c, Initial(c, file), actions).file);
            && next.locale == w.locale
            && next.activeRoot == (if w.directory.Some? then w.directory.value else c.defaultRoot)
            && next.source == (if w.directory.Some? then User else Default)
  {
    hide Run, WantedAfter;
    InitialIsSynced(c, file);
    FileHoldsWanted(c, Initial(c, file), actions);
  }

  /** With the environment variable set, every start uses its directory, below the home directory
      when it is relative, and no choice of a directory is accepted. */
  lemma EnvironmentStart(c: Setting, file: File)
    requires c.environment.Some?
    ensures var start, path := StartupRoot(c, file), c.environment.value;
            && start.source == Environment && !start.failed
            && start.root == if path.absolute then path
                             else Path(c.home.absolute, c.home.components + path.components)
    ensures forall a: Action :: Succeeds(Initial(c, file), a) ==> a.SetLocale?
  {
  }

  // ---------------------------------------------------------------- after a corrupt file

  predicate IsChoice(a: Action) {
    a.SelectParent? || a.ResetToDefault?
  }

  /** Some action of the run succeeded that chooses a directory. */
  ghost predicate Chose(c: Setting, s: State, actions: seq<Action>)
    decreases |actions|
  {
    && actions != []
    && ((IsChoice(actions[0]) && Succeeds(s, actions[0])) || Chose(c, Next(c, s, actions[0]), actions[1..]))
  }

  /** Some action of the run succeeded that saves the language. */
  ghost predicate SavedLocale(c: Setting, s: State, actions: seq<Action>)
    decreases |actions|
  {
    && actions != []
    && ((actions[0].SetLocale? && Succeeds(s, actions[0])) || SavedLocale(c, Next(c, s, actions[0]), actions[1..]))
  }

  /** Started from an unreadable file, and nothing or only the language written since. */
  ghost predicate Unchosen(c: Setting, s: State) {
    && c.environment.None? && s.activeRoot == c.defaultRoot && s.source == User
    && s.pendingRoot.None? && s.bootstrapRoot.None?
    && (ReadBootstrap(s.file).Some? ==> ReadBootstrap(s.file).value.configDir.None?)
  }

  lemma {:induction false} UnchosenRun(c: Setting, s: State, actions: seq<Action>)
    requires Unchosen(c, s)
    ensures PredictsNextStart(c, Run(c, s, actions)) <==>
              Chose(c, s, actions) || (ReadBootstrap(s.file).None? && !SavedLocale(c, s, actions))
    decreases |actions|
  {
    if actions == [] {
    } else {
      var t := Next(c, s, actions[0]);
      if IsChoice(actions[0]) && Succeeds(s, actions[0]) {
        RunPredicts(c, t, actions[1..]);
      } else {
        UnchosenRun(c, t, actions[1..]);
      }
    }
  }

  /** Without the saved language, because only the directory part matters for the prediction. */
  lemma {:induction false} RunPredicts(c: Setting, s: State, actions: seq<Action>)
    requires PredictsNextStart(c, s) && EnvironmentDecides(c, s)
    requires ReadBootstrap(s.file).Some? && ReadBootstrap(s.file).value.configDir == s.bootstrapRoot
    ensures PredictsNextStart(c, Run(c, s, actions))
    decreases |actions|
  {
    if actions == [] {
    } else {
      RunPredicts(c, Next(c, s, actions[0]), actions[1..]);
    }
  }

  /** The environment variable decides this start and every later one. */
  ghost predicate EnvironmentRules(c: Setting, s: State) {
    && c.environment.Some? && s.source == Environment && s.pendingRoot.None?
    && s.activeRoot == Join(c.home, c.environment.value)
  }

  lemma {:induction false} EnvironmentRun(c: Setting, s: State, actions: seq<Action>)
    requires EnvironmentRules(c, s)
    ensures EnvironmentRules(c, Run(c, s, actions)) && PredictsNextStart(c, Run(c, s, actions))
    decreases |actions|
  {
    if actions == [] {
    } else {
      EnvironmentRun(c, Next(c, s, actions[0]), actions[1..]);
    }
  }

  /**
   After an unreadable file the prediction can fail: saving the language replaces the file by a
   readable one without a directory, so the next start uses the default root as its default, while
   this process runs on it as the user's. It fails exactly when the environment variable is not
   set, a language was saved and no directory was chosen.
   */
  lemma PredictionAfterCorruptFile(c: Setting, file: File, actions: seq<Action>)
    requires ReadBootstrap(file).None?
    ensures var s := Initial(c, file);
            PredictsNextStart(c, Run(c, s, actions))
            <==> c.environment.Some? || Chose(c, s, actions) || !SavedLocale(c, s, actions)
  {
    if c.environment.Some? {
      EnvironmentRun(c, Initial(c, file), actions);
    } else {
      UnchosenRun(c, Initial(c, file), actions);
    }
  }

  /** Main result for every file and every run: exactly when the prediction is right. */
  lemma PredictionIff(c: Setting, file: File, actions: seq<Action>)
    ensures var s := Initial(c, file);
            PredictsNextStart(c, Run(c, s, actions))
            <==> || ReadBootstrap(file).Some? || c.environment.Some?
                 || Chose(c, s, actions) || !SavedLocale(c, s, actions)
  {
    if ReadBootstrap(file).Some? {
      PendingRootFromStartup(c, file, actions);
    } else {
      PredictionAfterCorruptFile(c, file, actions);
    }
  }

  lemma SavedLocaleBreaksPrediction(c: Setting)
    requires c.environment.None?
    ensures !PredictsNextStart(c, Run(c, Initial(c, Unparsable), [SetLocale("en-US", true)]))
  {
    assert Run(c, Initial(c, Unparsable), [SetLocale("en-US", true)])
        == Next(c, Initial(c, Unparsable), SetLocale("en-US", true));
  }
}
