/**
 Creating the configuration key: look whether the file exists, otherwise generate a key and
 persist it without clobbering, then read back whatever the file holds. Several processes may do
 this at once; every access to the file is one atomic step.
 */
module ConfigKeyStore {
  import opened Wrappers
  import Utf8

  const KEY_VERSION := 1
  const KEY_PREFIX := "config-"
  const KEY_LENGTH := 32

  datatype ConfigKey = ConfigKey(keyId: string, material: seq<Utf8.Byte>)

  /** The file as its reader sees it: not the expected JSON, or the three stored fields, where
      `material` is None when it is not Base64. */
  datatype Content = Garbage | Stored(version: nat, keyId: string, material: Option<seq<Utf8.Byte>>)

  datatype KeyError = Missing | Invalid | Io

  function Decode(c: Content): Result<ConfigKey, KeyError> {
    if c.Garbage? || c.version != KEY_VERSION || !(KEY_PREFIX <= c.keyId) then Err(Invalid)
    else if c.material.None? || |c.material.value| != KEY_LENGTH then Err(Invalid)
    else Ok(ConfigKey(c.keyId, c.material.value))
  }

  function Encode(key: ConfigKey): Content {
    Stored(KEY_VERSION, key.keyId, Some(key.material))
  }

  /** A key as it is generated: the prefix before a fresh identifier, and 32 random bytes. */
  predicate Generated(key: ConfigKey) {
    KEY_PREFIX <= key.keyId && |key.material| == KEY_LENGTH
  }

  /** What decodes was stored in the one accepted form, and exactly such files decode. */
  lemma DecodeInvertsEncode(c: Content, key: ConfigKey)
    ensures Decode(c) == Ok(key) <==> c == Encode(key) && Generated(key)
  {
  }

  // ---------------------------------------------------------------- one process

  /** Reading: None when the file does not exist. */
  function ReadKey(file: Option<Content>): Result<Option<ConfigKey>, KeyError> {
    match file
    case None => Ok(None)
    case Some(c) =>
      match Decode(c)
      case Ok(key) => Ok(Some(key))
      case Err(e) => Err(e)
  }

  /** Creating without interference: the file afterwards and the result. */
  function CreateKey(file: Option<Content>, newKey: ConfigKey, writes: bool)
    : (Option<Content>, Result<ConfigKey, KeyError>)
  {
    match file
    case Some(c) => (file, Decode(c))
    case None =>
      if writes then (Some(Encode(newKey)), Decode(Encode(newKey))) else (None, Err(Io))
  }

  class KeyFile {
    var content: Option<Content>

    constructor (content: Option<Content>)
      ensures this.content == content
    {
      this.content := content;
    }

    method Read() returns (r: Result<Option<ConfigKey>, KeyError>)
      ensures r == ReadKey(content)
    {
      if content.None? {
        return Ok(None);
      }
      var decoded := Decode(content.value);
      return if decoded.Ok? then Ok(Some(decoded.value)) else Err(decoded.error);
    }

    /** Writes a temporary file and renames it into place unless the name is taken. */
    method WriteNew(raw: Content, writes: bool) returns (ok: bool)
      modifies this
      ensures ok == writes
      ensures content == if writes && old(content).None? then Some(raw) else old(content)
    {
      if !writes {
        return false;
      }
      if content.None? {
        content := Some(raw);
      }
      return true;
    }

    method Create(newKey: ConfigKey, writes: bool) returns (r: Result<ConfigKey, KeyError>)
      modifies this
      ensures (content, r) == CreateKey(old(content), newKey, writes)
    {
      if content.None? {
        var ok := WriteNew(Encode(newKey), writes);
        if !ok {
          return Err(Io);
        }
      }
      var read := Read();
      if read.Err? {
        return Err(read.error);
      }
      return if read.value.Some? then Ok(read.value.value) else Err(Invalid);
    }
  }

  // ---------------------------------------------------------------- many processes

  /** Where one creating process is. */
  datatype Pc =
    | Checking                        // before the exists check
    | Writing(newKey: ConfigKey)       // the file was missing; a key is generated
    | Opening                         // before the second exists check
    | Reading                         // the file was seen
    | Done(result: Result<ConfigKey, KeyError>)

  datatype State = State(file: Option<Content>, processes: seq<Pc>)

  /** Process `i` makes its next file access; `io` says whether the system lets it succeed. */
  datatype Event = Event(i: nat, io: bool, newKey: ConfigKey)

  predicate Valid(s: State, e: Event) {
    e.i < |s.processes| && Generated(e.newKey)
  }

  function Next(s: State, e: Event): State
    requires Valid(s, e)
  {
    match s.processes[e.i]
    case Checking =>
      s.(processes := s.processes[e.i := if s.file.Some? then Opening else Writing(e.newKey)])
    case Writing(newKey) =>
      if !e.io then s.(processes := s.processes[e.i := Done(Err(Io))])
      else State(if s.file.None? then Some(Encode(newKey)) else s.file, s.processes[e.i := Opening])
    case Opening =>
      s.(processes := s.processes[e.i := if s.file.Some? then Reading else Done(Err(Invalid))])
    case Reading =>
      var result := if !e.io then Err(Io) else if s.file.None? then Err(Missing) else Decode(s.file.value);
      s.(processes := s.processes[e.i := Done(result)])
    case Done(_) => s
  }

  ghost predicate IsRun(s: State, events: seq<Event>, t: State)
    decreases |events|
  {
    if events == [] then s == t
    else Valid(s, events[0]) && IsRun(Next(s, events[0]), events[1..], t)
  }

  ghost predicate AtStart(s: State) {
    forall i :: 0 <= i < |s.processes| ==> s.processes[i] == Checking
  }

  /** A process behind its write has a file to read, and a result is what the file holds. */
  ghost predicate Inv(s: State) {
    forall i :: 0 <= i < |s.processes| ==>
      match s.processes[i]
      case Checking => true
      case Writing(newKey) => Generated(newKey)
      case Opening => s.file.Some?
      case Reading => s.file.Some?
      case Done(result) => result.Ok? ==> s.file.Some? && Decode(s.file.value) == result
  }

  lemma InvNext(s: State, e: Event)
    requires Inv(s) && Valid(s, e)
    ensures Inv(Next(s, e))
    ensures s.file.Some? ==> Next(s, e).file == s.file
    ensures s.file.None? && Next(s, e).file.Some? ==> Decode(Next(s, e).file.value).Ok?
  {
  }

  /**
   Main result: in every interleaving the file, once present, never changes, a file created here
   is valid, and every successful caller returns exactly the key the file holds.
   */
  lemma {:induction false} AllCallersAgree(s: State, events: seq<Event>, t: State)
    requires Inv(s) && IsRun(s, events, t)
    ensures Inv(t) && |t.processes| == |s.processes|
    ensures s.file.Some? ==> t.file == s.file
    ensures s.file.None? && t.file.Some? ==> Decode(t.file.value).Ok?
    ensures forall i, j :: 0 <= i < |t.processes| && 0 <= j < |t.processes|
              && t.processes[i].Done? && t.processes[i].result.Ok?
              && t.processes[j].Done? && t.processes[j].result.Ok?
              ==> t.processes[i] == t.processes[j]
    decreases |events|
  {
    if events == [] {
    } else {
      InvNext(s, events[0]);
      AllCallersAgree(Next(s, events[0]), events[1..], t);
    }
  }

  /** The key was generated in one of the steps, or before and is about to be written. */
  ghost predicate Offered(s: State, events: seq<Event>, key: ConfigKey) {
    || (exists i :: 0 <= i < |events| && events[i].newKey == key)
    || (exists i :: 0 <= i < |s.processes| && s.processes[i] == Writing(key))
  }

  lemma OfferedBefore(s: State, events: seq<Event>, key: ConfigKey)
    requires events != [] && Valid(s, events[0]) && Offered(Next(s, events[0]), events[1..], key)
    ensures Offered(s, events, key)
  {
    if i :| 0 <= i < |events[1..]| && events[1..][i].newKey == key {
      assert events[i + 1].newKey == key;
    } else {
      var i :| 0 <= i < |s.processes| && Next(s, events[0]).processes[i] == Writing(key);
      assert i == events[0].i ==> s.processes[i] == Writing(key) || events[0].newKey == key;
    }
  }

  /** A file that comes into being holds a key that one of the processes generated. */
  lemma {:induction false} FileIsOffered(s: State, events: seq<Event>, t: State) returns (key: ConfigKey)
    requires Inv(s) && IsRun(s, events, t) && s.file.None? && t.file.Some?
    ensures t.file == Some(Encode(key)) && Offered(s, events, key)
    decreases |events|
  {
    hide Inv, Offered;
    var e, next := events[0], Next(s, events[0]);
    InvNext(s, e);
    if next.file.Some? {
      AllCallersAgree(next, events[1..], t);
      key := s.processes[e.i].newKey;
      WritingIsOffered(s, events, e.i);
    } else {
      key := FileIsOffered(next, events[1..], t);
      OfferedBefore(s, events, key);
    }
  }

  lemma WritingIsOffered(s: State, events: seq<Event>, i: nat)
    requires i < |s.processes| && s.processes[i].Writing?
    ensures Offered(s, events, s.processes[i].newKey)
  {
  }

  /** From the start: the file holds the key of one of the callers. */
  lemma FileIsACallersKey(s: State, events: seq<Event>, t: State)
    requires AtStart(s) && IsRun(s, events, t) && s.file.None? && t.file.Some?
    ensures exists i :: 0 <= i < |events| && t.file == Some(Encode(events[i].newKey))
  {
    var key := FileIsOffered(s, events, t);
  }

  /** How many file accesses a process has left at most. */
  function AccessesLeft(pc: Pc): nat {
    match pc
    case Checking => 4
    case Writing(_) => 3
    case Opening => 2
    case Reading => 1
    case Done(_) => 0
  }

  function AccessesOf(events: seq<Event>, i: nat): nat {
    if events == [] then 0 else (if events[0].i == i then 1 else 0) + AccessesOf(events[1..], i)
  }

  /** Whatever the others do, every caller is done after four accesses of its own. */
  lemma {:induction false} CallerFinishes(s: State, events: seq<Event>, t: State, i: nat)
    requires IsRun(s, events, t) && i < |s.processes|
    ensures |t.processes| == |s.processes|
    ensures AccessesOf(events, i) >= AccessesLeft(s.processes[i]) ==> t.processes[i].Done?
    decreases |events|
  {
    if events == [] {
    } else {
      CallerFinishes(Next(s, events[0]), events[1..], t, i);
    }
  }

  /** A file that starts invalid makes every caller fail and is left untouched. */
  lemma InvalidFileFailsAll(s: State, events: seq<Event>, t: State, i: nat)
    requires AtStart(s) && IsRun(s, events, t)
    requires s.file.Some? && Decode(s.file.value).Err?
    requires i < |t.processes| && t.processes[i].Done?
    ensures t.processes[i].result.Err? && t.file == s.file
  {
    AllCallersAgree(s, events, t);
  }

  /** Without input or output failures, no other caller fails. */
  ghost predicate AllSucceed(s: State) {
    forall i :: 0 <= i < |s.processes| && s.processes[i].Done? ==> s.processes[i].result.Ok?
  }

  lemma {:induction false} OthersSucceed(s: State, events: seq<Event>, t: State)
    requires Inv(s) && AllSucceed(s) && IsRun(s, events, t)
    requires s.file.Some? ==> Decode(s.file.value).Ok?
    requires forall e :: e in events ==> e.io
    ensures AllSucceed(t)
    decreases |events|
  {
    if events == [] {
    } else {
      assert events[0] in events;
      InvNext(s, events[0]);
      OthersSucceed(Next(s, events[0]), events[1..], t);
    }
  }

  /** A process that runs alone does what the sequential method does. */
  lemma AloneIsSequential(file: Option<Content>, newKey: ConfigKey, writes: bool)
    requires Generated(newKey)
    ensures var start := State(file, [Checking]);
            var e := Event(0, true, newKey);
            var afterWrite := Next(Next(start, e), Event(0, file.Some? || writes, newKey));
            var (after, result) := CreateKey(file, newKey, writes);
            Next(Next(afterWrite, e), e) == State(after, [Done(result)])
  {
  }
}
