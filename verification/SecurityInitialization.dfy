/**
 Initialising the secret storage at startup: the stored key, the active key id in the security
 settings and the key ids of existing ciphertext must agree before anything is created.
 */
module SecurityInitialization {
  import opened Wrappers
  import opened Text
  import opened ConfigKeyStore

  datatype SecretConfig = SecretConfig(provider: string, activeKeyId: Option<string>)

  datatype Settings = NoSettings | Unreadable | Settings(config: SecretConfig)

  datatype InitError =
    | SettingsUnreadable | UnknownProvider | KeyFailure(error: KeyError) | KeyMissing | KeyMismatch
    | SecretMalformed | SettingsNotWritten

  /** The two files, and the key ids found in encrypted values (an error when one is malformed). */
  datatype Disk = Disk(keyFile: Option<Content>, settings: Settings, encrypted: Result<set<string>, ()>)

  function Provider(settings: Settings): string {
    if settings.Settings? then Lower(Trim(settings.config.provider)) else "embedded"
  }

  /** The active key id as the code compares it. */
  function ConfiguredId(settings: Settings): Option<string> {
    if settings.Settings? && settings.config.activeKeyId.Some? then Some(Trim(settings.config.activeKeyId.value))
    else None
  }

  predicate IsConfigId(id: string) {
    KEY_PREFIX <= id
  }

  function BuildEmbedded(keyId: string): Settings {
    Settings(SecretConfig("embedded", Some(keyId)))
  }

  /** The stored key may be used, or none exists and one may be created. */
  function Validate(stored: Option<ConfigKey>, settings: Settings, encrypted: set<string>)
    : Result<Option<ConfigKey>, InitError>
  {
    var id := ConfiguredId(settings);
    var configured := if id.Some? && IsConfigId(id.value) then id else None;
    if stored.None? then
      if (exists k :: k in encrypted && IsConfigId(k)) || configured.Some? then Err(KeyMissing) else Ok(None)
    else if (configured.Some? && configured.value != stored.value.keyId)
            || exists k :: k in encrypted && IsConfigId(k) && k != stored.value.keyId
    then Err(KeyMismatch)
    else Ok(stored)
  }

  /** What one start leaves on disk and reports. `writesKey` and `writesSettings` say whether the
      system lets those writes succeed. */
  function Initialize(d: Disk, newKey: ConfigKey, writesKey: bool, writesSettings: bool)
    : (Disk, Result<(), InitError>)
  {
    if d.settings.Unreadable? then (d, Err(SettingsUnreadable))
    else if Provider(d.settings) !in ["embedded", "", "user_password"] then (d, Err(UnknownProvider))
    else match ReadKey(d.keyFile)
      case Err(e) => (d, Err(KeyFailure(e)))
      case Ok(stored) =>
        if Provider(d.settings) == "user_password" then
          if stored.Some? then (d, Ok(()))
          else
            var (file, r) := CreateKey(d.keyFile, newKey, writesKey);
            (d.(keyFile := file), if r.Ok? then Ok(()) else Err(KeyFailure(r.error)))
        else
          var id := ConfiguredId(d.settings);
          if id.Some? && IsConfigId(id.value) then
            if stored.None? then (d, Err(KeyMissing))
            else if id.value != stored.value.keyId then (d, Err(KeyMismatch))
            else (d, Ok(()))
          else if d.encrypted.Err? then (d, Err(SecretMalformed))
          else match Validate(stored, d.settings, d.encrypted.value)
            case Err(e) => (d, Err(e))
            case Ok(usable) =>
              var (file, r) :=
                if usable.Some? then (d.keyFile, Ok(usable.value)) else CreateKey(d.keyFile, newKey, writesKey);
              if r.Err? then (d.(keyFile := file), Err(KeyFailure(r.error)))
              else if id == Some(r.value.keyId) then (d.(keyFile := file), Ok(()))
              else if !writesSettings then (d.(keyFile := file), Err(SettingsNotWritten))
              else (d.(keyFile := file, settings := BuildEmbedded(r.value.keyId)), Ok(()))
  }

  class SecurityStorage {
    const keyFile: KeyFile
    var settings: Settings
    const encrypted: Result<set<string>, ()>

    constructor (keyFile: KeyFile, settings: Settings, encrypted: Result<set<string>, ()>)
      ensures this.keyFile == keyFile && this.settings == settings && this.encrypted == encrypted
    {
      this.keyFile, this.settings, this.encrypted := keyFile, settings, encrypted;
    }

    ghost function OnDisk(): Disk
      reads this, keyFile
    {
      Disk(keyFile.content, settings, encrypted)
    }

    method ResolveStartupKey(stored: Option<ConfigKey>, keyIds: set<string>, newKey: ConfigKey, writesKey: bool)
      returns (r: Result<ConfigKey, InitError>)
      modifies keyFile
      ensures var v := Validate(stored, settings, keyIds);
              match v
              case Err(e) => r == Err(e) && keyFile.content == old(keyFile.content)
              case Ok(usable) =>
                if usable.Some? then r == Ok(usable.value) && keyFile.content == old(keyFile.content)
                else
                  var (file, c) := CreateKey(old(keyFile.content), newKey, writesKey);
                  keyFile.content == file && r == if c.Ok? then Ok(c.value) else Err(KeyFailure(c.error))
    {
      var usable := Validate(stored, settings, keyIds);
      if usable.Err? {
        return Err(usable.error);
      }
      if usable.value.Some? {
        return Ok(usable.value.value);
      }
      var created := keyFile.Create(newKey, writesKey);
      return if created.Ok? then Ok(created.value) else Err(KeyFailure(created.error));
    }

    method Start(newKey: ConfigKey, writesKey: bool, writesSettings: bool) returns (r: Result<(), InitError>)
      modifies this, keyFile
      ensures (OnDisk(), r) == Initialize(old(OnDisk()), newKey, writesKey, writesSettings)
    {
      hide Validate, Trim, Lower, Decode;
      if settings.Unreadable? {
        return Err(SettingsUnreadable);
      }
      var provider := Provider(settings);
      if provider != "embedded" && provider != "" && provider != "user_password" {
        return Err(UnknownProvider);
      }
      var stored := keyFile.Read();
      if stored.Err? {
        return Err(KeyFailure(stored.error));
      }
      if provider == "user_password" {
        if stored.value.None? {
          var created := keyFile.Create(newKey, writesKey);
          if created.Err? {
            return Err(KeyFailure(created.error));
          }
        }
        return Ok(());
      }
      var configured := ConfiguredId(settings);
      if configured.Some? && IsConfigId(configured.value) {
        if stored.value.None? {
          return Err(KeyMissing);
        }
        if configured.value != stored.value.value.keyId {
          return Err(KeyMismatch);
        }
        return Ok(());
      }
      if encrypted.Err? {
        return Err(SecretMalformed);
      }
      var key := ResolveStartupKey(stored.value, encrypted.value, newKey, writesKey);
      if key.Err? {
        return Err(key.error);
      }
      if configured != Some(key.value.keyId) {
        if !writesSettings {
          return Err(SettingsNotWritten);
        }
        settings := BuildEmbedded(key.value.keyId);
      }
      return Ok(());
    }
  }

  // ---------------------------------------------------------------- encrypted values

  datatype Payload = Plain | Encrypted(keyId: string) | Malformed

  /** The secret references of one profile: password, key passphrase and proxy password. */
  datatype ProfileSecrets =
    ProfileSecrets(password: Option<string>, passphrase: Option<string>, proxyPassword: Option<string>)
  {
    function All(): seq<Option<string>> {
      [password, passphrase, proxyPassword]
    }
  }

  ghost predicate Holds(profiles: seq<ProfileSecrets>, credentials: seq<string>, apiKeys: seq<Option<string>>,
      value: string)
  {
    || (exists i :: 0 <= i < |profiles| && Some(value) in profiles[i].All())
    || value in credentials
    || Some(value) in apiKeys
  }

  /** Gathers every reference, then its key id: exactly the ids in use, or an error when any value is malformed. */
  method CollectEncryptedKeyIds(profiles: seq<ProfileSecrets>, credentials: seq<string>,
      apiKeys: seq<Option<string>>, payload: string -> Payload)
    returns (r: Result<set<string>, ()>)
    ensures r.Err? <==> exists v :: Holds(profiles, credentials, apiKeys, v) && payload(v).Malformed?
    ensures r.Ok? ==>
              forall id :: id in r.value <==>
                exists v :: Holds(profiles, credentials, apiKeys, v) && payload(v) == Encrypted(id)
  {
    var values: seq<string> := [];
    for i := 0 to |profiles|
      invariant forall v :: v in values <==> Holds(profiles[..i], [], [], v)
    {
      var p := profiles[i];
      ghost var before := values;
      if p.password.Some? { values := values + [p.password.value]; }
      if p.passphrase.Some? { values := values + [p.passphrase.value]; }
      if p.proxyPassword.Some? { values := values + [p.proxyPassword.value]; }
      forall v
        ensures v in values <==> Holds(profiles[..i + 1], [], [], v)
      {
        HoldsNext(profiles, i, v);
      }
    }
    assert profiles[..|profiles|] == profiles;
    values := values + credentials;
    for i := 0 to |apiKeys|
      invariant forall v :: v in values <==> Holds(profiles, credentials, apiKeys[..i], v)
    {
      if apiKeys[i].Some? { values := values + [apiKeys[i].value]; }
      assert apiKeys[..i + 1] == apiKeys[..i] + [apiKeys[i]];
    }
    assert apiKeys[..|apiKeys|] == apiKeys;
    var ids: set<string> := {};
    for i := 0 to |values|
      invariant forall v :: v in values[..i] ==> !payload(v).Malformed?
      invariant forall id :: id in ids <==> exists v :: v in values[..i] && payload(v) == Encrypted(id)
    {
      var v := values[i];
      assert values[..i + 1] == values[..i] + [v];
      assert v in values;
      var found := payload(v);
      if found.Malformed? {
        return Err(());
      }
      ghost var before := ids;
      if found.Encrypted? {
        ids := ids + {found.keyId};
      }
      forall id
        ensures id in ids <==> exists w :: w in values[..i + 1] && payload(w) == Encrypted(id)
      {
        if id in before {
          var w :| w in values[..i] && payload(w) == Encrypted(id);
          assert w in values[..i + 1];
        }
      }
    }
    assert values[..|values|] == values;
    return Ok(ids);
  }

  lemma HoldsNext(profiles: seq<ProfileSecrets>, i: nat, v: string)
    requires i < |profiles|
    ensures Holds(profiles[..i + 1], [], [], v)
            <==> Holds(profiles[..i], [], [], v) || Some(v) in profiles[i].All()
  {
    var a, b := profiles[..i], profiles[..i + 1];
    assert b == a + [profiles[i]];
    if Holds(a, [], [], v) {
      var j :| 0 <= j < |a| && Some(v) in a[j].All();
      assert b[j] == a[j];
    }
    if Some(v) in profiles[i].All() {
      assert b[i] == profiles[i];
    }
  }

  // ---------------------------------------------------------------- properties

  predicate EmbeddedMode(d: Disk) {
    Provider(d.settings) == "embedded" || Provider(d.settings) == ""
  }

  /** The key the disk holds. */
  function StoredKey(d: Disk): Option<ConfigKey> {
    if d.keyFile.None? then None
    else match Decode(d.keyFile.value)
      case Ok(key) => Some(key)
      case Err(_) => None
  }

  /** The id of the key that a successful start uses: the stored one, or the new one when there is no file. */
  function KeyIdInUse(d: Disk, newKey: ConfigKey): string {
    if StoredKey(d).Some? then StoredKey(d).value.keyId else newKey.keyId
  }

  predicate KnownProvider(d: Disk) {
    !d.settings.Unreadable? && (EmbeddedMode(d) || Provider(d.settings) == "user_password")
  }

  /** The settings name a configuration key. */
  predicate NamesKey(d: Disk) {
    ConfiguredId(d.settings).Some? && IsConfigId(ConfiguredId(d.settings).value)
  }

  /** A configuration key id in use: the active one, or while there is none, those of encrypted values. */
  predicate InUse(d: Disk, id: string) {
    IsConfigId(id) && if NamesKey(d) then ConfiguredId(d.settings) == Some(id)
                      else d.encrypted.Ok? && id in d.encrypted.value
  }

  /** The key file can be read, or is missing. */
  predicate KeyFileFine(d: Disk) {
    d.keyFile.Some? ==> Decode(d.keyFile.value).Ok?
  }

  /**
   When a start succeeds. A master password needs a readable or new key file only. Otherwise every
   key id in use must be the stored key's, none may be in use when no key is stored, and unless the
   settings name a key already, the encrypted values must be well-formed and the settings writable.
   */
  lemma StartSucceedsIff(d: Disk, newKey: ConfigKey, writesKey: bool, writesSettings: bool)
    requires Generated(newKey)
    ensures Initialize(d, newKey, writesKey, writesSettings).1.Ok? <==>
              && KnownProvider(d) && KeyFileFine(d)
              && (EmbeddedMode(d) ==>
                    && (forall id :: InUse(d, id) ==> StoredKey(d).Some? && StoredKey(d).value.keyId == id)
                    && (NamesKey(d) || (d.encrypted.Ok? && writesSettings)))
              && (d.keyFile.None? ==> writesKey)
  {
    hide Trim, Lower;
    DecodeInvertsEncode(Encode(newKey), newKey);
    if d.settings.Settings? && NamesKey(d) {
      assert InUse(d, ConfiguredId(d.settings).value);
    } else if d.encrypted.Ok? {
      assert forall k :: k in d.encrypted.value && IsConfigId(k) ==> InUse(d, k);
    }
  }

  /** What a start leaves: after success the key in use is stored, and in embedded mode the settings
      name it; a failed start leaves the settings alone. */
  lemma StartLeaves(d: Disk, newKey: ConfigKey, writesKey: bool, writesSettings: bool)
    requires Generated(newKey)
    ensures var (t, r) := Initialize(d, newKey, writesKey, writesSettings);
            && t.encrypted == d.encrypted
            && (r.Ok? ==> t.keyFile == Some(if d.keyFile.Some? then d.keyFile.value else Encode(newKey)))
            && (r.Ok? ==> t.settings == if NamesKey(d) || !EmbeddedMode(d) then d.settings
                                        else Settings(SecretConfig("embedded", Some(KeyIdInUse(d, newKey)))))
            && (r.Err? ==> t.settings == d.settings && t.keyFile in [d.keyFile, Some(Encode(newKey))])
  {
    hide Trim, Lower;
    DecodeInvertsEncode(Encode(newKey), newKey);
  }

  /** Which error tells of a missing and which of a different key. */
  lemma KeyErrors(d: Disk, newKey: ConfigKey, writesKey: bool, writesSettings: bool)
    requires Generated(newKey) && KnownProvider(d) && KeyFileFine(d) && EmbeddedMode(d)
    requires NamesKey(d) || d.encrypted.Ok?
    ensures var r := Initialize(d, newKey, writesKey, writesSettings).1;
            && (r == Err(KeyMissing) <==> d.keyFile.None? && exists id :: InUse(d, id))
            && (r == Err(KeyMismatch) <==>
                  d.keyFile.Some? && exists id :: InUse(d, id) && id != StoredKey(d).value.keyId)
  {
    hide Trim, Lower;
    DecodeInvertsEncode(Encode(newKey), newKey);
    if NamesKey(d) {
      assert InUse(d, ConfiguredId(d.settings).value);
    } else {
      assert forall k :: k in d.encrypted.value && IsConfigId(k) ==> InUse(d, k);
    }
  }

  /** A fresh disk becomes one with the new key and settings that name it. */
  lemma FreshStart(newKey: ConfigKey)
    requires Generated(newKey)
    ensures Initialize(Disk(None, NoSettings, Ok({})), newKey, true, true)
         == (Disk(Some(Encode(newKey)), Settings(SecretConfig("embedded", Some(newKey.keyId))), Ok({})), Ok(()))
  {
    hide Trim, Lower;
    DecodeInvertsEncode(Encode(newKey), newKey);
  }

  /** After success in embedded mode a key is stored and the active id names it. */
  lemma ActiveIdNamesStoredKey(d: Disk, newKey: ConfigKey, writesKey: bool, writesSettings: bool)
    requires Generated(newKey) && EmbeddedMode(d)
    requires Initialize(d, newKey, writesKey, writesSettings).1.Ok?
    ensures var t := Initialize(d, newKey, writesKey, writesSettings).0;
            && StoredKey(t).Some? && t.settings.Settings?
            && t.settings.config.activeKeyId.Some?
            && var active := t.settings.config.activeKeyId.value;
               active == StoredKey(t).value.keyId || Trim(active) == StoredKey(t).value.keyId
    ensures var t := Initialize(d, newKey, writesKey, writesSettings).0;
            t.settings != d.settings ==>
              d.encrypted.Ok? && forall k :: k in d.encrypted.value && IsConfigId(k) ==> k == StoredKey(t).value.keyId
  {
    hide Trim, Lower;
    DecodeInvertsEncode(Encode(newKey), newKey);
  }

  /** No start ever changes a key file that exists. */
  lemma KeyFileNeverChanges(d: Disk, newKey: ConfigKey, writesKey: bool, writesSettings: bool)
    requires d.keyFile.Some?
    ensures Initialize(d, newKey, writesKey, writesSettings).0.keyFile == d.keyFile
  {
    hide Trim, Lower, Validate;
  }

  lemma ConfigIdSurvivesTrim(id: string)
    requires IsConfigId(id)
    ensures IsConfigId(Trim(id))
  {
    assert id[0] == 'c' && id[6] == '-';
    PrefixSurvivesTrimEnd(id, KEY_PREFIX);
  }

  lemma {:induction false} PrefixSurvivesTrimEnd(s: string, prefix: string)
    requires prefix <= s && prefix != "" && !IsWhitespace(prefix[|prefix| - 1])
    ensures prefix <= TrimEnd(s)
  {
    if !IsWhitespace(s[|s| - 1]) {
    } else {
      assert s != prefix;
      PrefixSurvivesTrimEnd(s[..|s| - 1], prefix);
    }
  }

  /**
   Starting again after success: in embedded mode the second start succeeds and changes nothing
   exactly when the id of the stored key, or of the new one when no file exists, has no surrounding
   whitespace, because the id is written verbatim but compared trimmed; with a master password it
   always does.
   */
  lemma SecondStartIff(d: Disk, newKey: ConfigKey, writesKey: bool, writesSettings: bool, otherKey: ConfigKey,
      writesKey2: bool, writesSettings2: bool)
    requires Generated(newKey)
    requires Initialize(d, newKey, writesKey, writesSettings).1.Ok?
    ensures var t := Initialize(d, newKey, writesKey, writesSettings).0;
            Initialize(t, otherKey, writesKey2, writesSettings2) == (t, Ok(()))
            <==> !EmbeddedMode(d) || Trim(KeyIdInUse(d, newKey)) == KeyIdInUse(d, newKey)
  {
    hide Lower, Trim;
    DecodeInvertsEncode(Encode(newKey), newKey);
    var t := Initialize(d, newKey, writesKey, writesSettings).0;
    EmbeddedIsEmbedded();
    if EmbeddedMode(d) && t.settings.Settings? && t.settings.config.activeKeyId.Some? {
      TrimTwice(t.settings.config.activeKeyId.value);
      if IsConfigId(t.settings.config.activeKeyId.value) {
        ConfigIdSurvivesTrim(t.settings.config.activeKeyId.value);
      }
    }
  }

  lemma EmbeddedIsEmbedded()
    ensures Lower(Trim("embedded")) == "embedded"
  {
    TrimKeeps("embedded");
  }

  /** The concrete failure: a key file whose id ends in a space starts once and then never again. */
  lemma PaddedIdFailsSecondStart(newKey: ConfigKey)
    requires Generated(newKey)
    ensures var key := ConfigKey("config-a ", seq(KEY_LENGTH, _ => 0));
            var d := Disk(Some(Encode(key)), NoSettings, Ok({}));
            var (t, r) := Initialize(d, newKey, true, true);
            r.Ok? && Initialize(t, newKey, true, true).1 == Err(KeyMismatch)
  {
    var key := ConfigKey("config-a ", seq(KEY_LENGTH, _ => 0));
    EmbeddedIsEmbedded();
    TrimDropsLast("config-a", ' ');
    TrimKeeps("config-a");
    assert "config-a" + [' '] == key.keyId;
    assert KEY_PREFIX <= "config-a";
  }

  /**
   Crash recovery: a start that dies, or fails to write the settings, after creating the key
   leaves a disk from which any later start reaches exactly the state of the undisturbed one.
   */
  lemma RestartAfterCrash(d: Disk, newKey: ConfigKey, otherKey: ConfigKey, writesKey2: bool)
    requires Generated(newKey)
    requires Initialize(d, newKey, true, true).1.Ok?
    ensures var t := Initialize(d, newKey, true, true).0;
            var crashed := d.(keyFile := t.keyFile);
            Initialize(crashed, otherKey, writesKey2, true) == (t, Ok(()))
    ensures Initialize(d, newKey, true, false).0 in {d, d.(keyFile := Initialize(d, newKey, true, true).0.keyFile)}
  {
    hide Lower, Trim;
    DecodeInvertsEncode(Encode(newKey), newKey);
  }
}
