/**
 The two files kept under the lock: the user's settings, whose setters each replace one field, and
 the credential store, which is never written over when it cannot be read.
 */
module Settings {
  import opened Basics
  import opened FileLock
  import opened LockedFile

  // --- settings -----------------------------------------------------------------------------------

  datatype UserConfig = UserConfig(channel: Option<string>, disabledAliases: Option<seq<string>>, lastSeenVersion: Option<string>)

  datatype Setter = SetChannel(channel: string) | SetDisabledAliases(names: seq<string>) | SetLastSeenVersion(version: string)

  /** `loadUserConfig`: a settings file that is absent or unreadable reads as the defaults. */
  function Load(f: File<UserConfig>): UserConfig {
    match f
    case Holds(c) => c
    case _ => UserConfig(None, None, None)
  }

  function Set(c: UserConfig, op: Setter): UserConfig {
    match op
    case SetChannel(channel) => c.(channel := Some(channel))
    case SetDisabledAliases(names) => c.(disabledAliases := Some(names))
    case SetLastSeenVersion(version) => c.(lastSeenVersion := Some(version))
  }

  function SetterChange(op: Setter, f: File<UserConfig>): Option<UserConfig> {
    Some(Set(Load(f), op))
  }

  /** The settings file as one setter leaves it. */
  class SettingsFile {
    var file: File<UserConfig>

    /** `setChannel`, holding the lock. */
    method SetChannelLocked(channel: string)
      modifies this
      ensures file == Apply(old(file), SetterChange, SetChannel(channel))
    {
      var config := Load(file);
      config := config.(channel := Some(channel));
      file := Holds(config);
    }

    /** `setDisabledAliases`, holding the lock. */
    method SetDisabledAliasesLocked(names: seq<string>)
      modifies this
      ensures file == Apply(old(file), SetterChange, SetDisabledAliases(names))
    {
      var config := Load(file);
      config := config.(disabledAliases := Some(names));
      file := Holds(config);
    }

    /** `setLastSeenVersion`, holding the lock. */
    method SetLastSeenVersionLocked(version: string)
      modifies this
      ensures file == Apply(old(file), SetterChange, SetLastSeenVersion(version))
    {
      var config := Load(file);
      config := config.(lastSeenVersion := Some(version));
      file := Holds(config);
    }
  }

  /** The last channel among these setters, looking back from the end, or what the file held before. */
  function LastChannel(start: Option<string>, ops: seq<Setter>): Option<string> {
    if ops == [] then start
    else if ops[|ops| - 1].SetChannel? then Some(ops[|ops| - 1].channel)
    else LastChannel(start, ops[..|ops| - 1])
  }

  function LastAliases(start: Option<seq<string>>, ops: seq<Setter>): Option<seq<string>> {
    if ops == [] then start
    else if ops[|ops| - 1].SetDisabledAliases? then Some(ops[|ops| - 1].names)
    else LastAliases(start, ops[..|ops| - 1])
  }

  function LastVersion(start: Option<string>, ops: seq<Setter>): Option<string> {
    if ops == [] then start
    else if ops[|ops| - 1].SetLastSeenVersion? then Some(ops[|ops| - 1].version)
    else LastVersion(start, ops[..|ops| - 1])
  }

  lemma {:induction false} FoldIsLastSet(start: File<UserConfig>, ops: seq<Setter>)
    ensures
      var c := Load(Fold(start, SetterChange, ops));
      && c.channel == LastChannel(Load(start).channel, ops)
      && c.disabledAliases == LastAliases(Load(start).disabledAliases, ops)
      && c.lastSeenVersion == LastVersion(Load(start).lastSeenVersion, ops)
  {
    if ops != [] { FoldIsLastSet(start, ops[..|ops| - 1]); }
  }

  /** A field no setter in the sequence names keeps its value: setters of different fields never undo each other. */
  lemma {:induction false} OtherFieldsSurvive(start: UserConfig, ops: seq<Setter>)
    ensures (forall op | op in ops :: !op.SetChannel?) ==> LastChannel(start.channel, ops) == start.channel
    ensures (forall op | op in ops :: !op.SetDisabledAliases?) ==> LastAliases(start.disabledAliases, ops) == start.disabledAliases
    ensures (forall op | op in ops :: !op.SetLastSeenVersion?) ==> LastVersion(start.lastSeenVersion, ops) == start.lastSeenVersion
  {
    if ops != [] {
      var front, last := ops[..|ops| - 1], ops[|ops| - 1];
      OtherFieldsSurvive(start, front);
      assert last in ops && forall op | op in front :: op in ops;
    }
  }

  /**
   Concurrent setters: in every interleaving of any number of processes whose landings are serial, every
   field holds the last value a landed setter gave it, or what it held before any did.
   */
  lemma SettersLoseNothing(start: File<UserConfig>, run: seq<Event<Setter>>)
    requires Serial(start, SetterChange, run)
    ensures
      var c, log := Load(Run(start, SetterChange, run).file), Run(start, SetterChange, run).log;
      && c.channel == LastChannel(Load(start).channel, log)
      && c.disabledAliases == LastAliases(Load(start).disabledAliases, log)
      && c.lastSeenVersion == LastVersion(Load(start).lastSeenVersion, log)
  {
    NoLostUpdate(start, SetterChange, run);
    FoldIsLastSet(start, Run(start, SetterChange, run).log);
  }

  // --- credentials ------------------------------------------------------------------------------------

  /** White space and line terminators, as `trim` removes them. */
  predicate Space(c: char) {
    || c in {'\t', '\n', '\U{000B}', '\U{000C}', '\r', ' ', '\U{00A0}', '\U{1680}', '\U{2028}', '\U{2029}', '\U{202F}', '\U{205F}', '\U{3000}', '\U{FEFF}'}
    || '\U{2000}' <= c <= '\U{200A}'
  }

  function TrimStart(s: string): string {
    if s != "" && Space(s[0]) then TrimStart(s[1..]) else s
  }

  function TrimEnd(s: string): string {
    if s != "" && Space(s[|s| - 1]) then TrimEnd(s[..|s| - 1]) else s
  }

  function StripSlashes(s: string): string {
    if s != "" && s[|s| - 1] == '/' then StripSlashes(s[..|s| - 1]) else s
  }

  function LowerAll(s: string): (r: string)
    ensures |r| == |s| && forall i | 0 <= i < |s| :: r[i] == Lower(s[i])
  {
    seq(|s|, i requires 0 <= i < |s| => Lower(s[i]))
  }

  /** `normalizeInstanceUrl` */
  function NormalizeInstanceUrl(url: string): string {
    LowerAll(StripSlashes(TrimEnd(TrimStart(url))))
  }

  /** One letter A to Z in lower case; every other character as it is. */
  function LowerLetter(c: char): char {
    if 65 <= c as int <= 90 then (c as int + 32) as char else c
  }

  /** White space, by code: tab to carriage return, space, no-break space, the Unicode space separators, the line and paragraph separators, the byte order mark. */
  predicate WhiteSpace(code: int) {
    || 9 <= code <= 13 || code == 32 || code == 160 || code == 5760 || 8192 <= code <= 8202
    || code == 8232 || code == 8233 || code == 8239 || code == 8287 || code == 12288 || code == 65279
  }

  lemma SpaceIsWhiteSpace(c: char)
    ensures Space(c) <==> WhiteSpace(c as int)
  {
  }

  lemma {:induction false} TrimStartTakes(s: string) returns (lead: string)
    ensures s == lead + TrimStart(s) && (forall i | 0 <= i < |lead| :: WhiteSpace(lead[i] as int))
    ensures TrimStart(s) != "" ==> !WhiteSpace(TrimStart(s)[0] as int)
  {
    lead := "";
    if s != "" {
      SpaceIsWhiteSpace(s[0]);
      if Space(s[0]) {
        var rest := TrimStartTakes(s[1..]);
        lead := [s[0]] + rest;
        assert s == [s[0]] + s[1..];
      }
    }
  }

  lemma {:induction false} TrimEndTakes(s: string) returns (trail: string)
    ensures s == TrimEnd(s) + trail && (forall i | 0 <= i < |trail| :: WhiteSpace(trail[i] as int))
    ensures TrimEnd(s) != "" ==> !WhiteSpace(TrimEnd(s)[|TrimEnd(s)| - 1] as int)
  {
    trail := "";
    if s != "" {
      SpaceIsWhiteSpace(s[|s| - 1]);
      if Space(s[|s| - 1]) {
        var rest := TrimEndTakes(s[..|s| - 1]);
        trail := rest + [s[|s| - 1]];
        assert s == s[..|s| - 1] + [s[|s| - 1]];
      }
    }
  }

  lemma {:induction false} StripTakes(s: string) returns (slashes: string)
    ensures s == StripSlashes(s) + slashes && (forall i | 0 <= i < |slashes| :: slashes[i] == '/')
    ensures StripSlashes(s) != "" ==> StripSlashes(s)[|StripSlashes(s)| - 1] != '/'
  {
    slashes := "";
    if s != "" && s[|s| - 1] == '/' {
      var rest := StripTakes(s[..|s| - 1]);
      slashes := rest + "/";
      assert s == s[..|s| - 1] + "/";
    }
  }

  /**
   An instance's key: its address between white space, without the slashes it then ends in, letters A to Z
   in lower case. The white space goes before the slashes do, and neither is looked at again.
   */
  lemma KeyIs(url: string) returns (lead: string, address: string, slashes: string, trail: string)
    ensures url == lead + (address + slashes) + trail
    ensures (forall i | 0 <= i < |lead| :: WhiteSpace(lead[i] as int)) && (forall i | 0 <= i < |trail| :: WhiteSpace(trail[i] as int))
    ensures address + slashes != "" ==>
              && !WhiteSpace((address + slashes)[0] as int) && !WhiteSpace((address + slashes)[|address + slashes| - 1] as int)
    ensures (forall i | 0 <= i < |slashes| :: slashes[i] == '/') && (address != "" ==> address[|address| - 1] != '/')
    ensures |NormalizeInstanceUrl(url)| == |address|
    ensures forall i | 0 <= i < |address| :: NormalizeInstanceUrl(url)[i] == LowerLetter(address[i])
  {
    lead := TrimStartTakes(url);
    var rest := TrimStart(url);
    trail := TrimEndTakes(rest);
    var body := TrimEnd(rest);
    slashes := StripTakes(body);
    address := StripSlashes(body);
    if body != "" { assert body[0] == rest[0]; }
  }

  predicate EndsInSpace(s: string) {
    s != "" && Space(s[|s| - 1])
  }

  predicate StartsWithSpace(s: string) {
    s != "" && Space(s[0])
  }

  predicate EndsInSlash(s: string) {
    s != "" && s[|s| - 1] == '/'
  }

  lemma {:induction false} TrimStartDone(s: string)
    ensures !StartsWithSpace(TrimStart(s))
  {
    if s != "" && Space(s[0]) { TrimStartDone(s[1..]); }
  }

  lemma {:induction false} TrimEndKeepsStart(s: string)
    requires !StartsWithSpace(s)
    ensures !StartsWithSpace(TrimEnd(s)) && !EndsInSpace(TrimEnd(s))
  {
    if EndsInSpace(s) {
      assert |s| > 1;
      TrimEndKeepsStart(s[..|s| - 1]);
    }
  }

  lemma {:induction false} StripKeepsStart(s: string)
    requires !StartsWithSpace(s)
    ensures !StartsWithSpace(StripSlashes(s)) && !EndsInSlash(StripSlashes(s))
  {
    if EndsInSlash(s) { StripKeepsStart(s[..|s| - 1]); }
  }

  lemma {:induction false} TrimEndShortens(s: string)
    ensures |TrimEnd(s)| <= |s| && (EndsInSpace(s) ==> |TrimEnd(s)| < |s|) && (!EndsInSpace(s) ==> TrimEnd(s) == s)
  {
    if EndsInSpace(s) { TrimEndShortens(s[..|s| - 1]); }
  }

  lemma {:induction false} StripShortens(s: string)
    ensures |StripSlashes(s)| <= |s| && (!EndsInSlash(s) ==> StripSlashes(s) == s)
  {
    if EndsInSlash(s) { StripShortens(s[..|s| - 1]); }
  }

  lemma LowerTwice(s: string)
    ensures LowerAll(LowerAll(s)) == LowerAll(s)
    ensures StartsWithSpace(LowerAll(s)) == StartsWithSpace(s) && EndsInSpace(LowerAll(s)) == EndsInSpace(s)
    ensures EndsInSlash(LowerAll(s)) == EndsInSlash(s)
  {
  }

  /**
   Normalising a key again changes nothing exactly when taking its trailing slashes off left no white
   space at the end: a listed key can be handed back to find its own credential only then.
   */
  lemma NormalizedTwice(url: string)
    ensures NormalizeInstanceUrl(NormalizeInstanceUrl(url)) == NormalizeInstanceUrl(url)
       <==> !EndsInSpace(StripSlashes(TrimEnd(TrimStart(url))))
  {
    var t := TrimEnd(TrimStart(url));
    TrimStartDone(url);
    TrimEndKeepsStart(TrimStart(url));
    StripKeepsStart(t);
    var key := NormalizeInstanceUrl(url);
    LowerTwice(StripSlashes(t));
    assert TrimStart(key) == key;
    TrimEndShortens(key);
    StripShortens(TrimEnd(key));
    LowerTwice(TrimEnd(key));
  }

  datatype CredentialOp = Write(url: string, token: string) | Clear(url: string)

  /** What `readJsonForUpdate` reads: nothing there is an empty store, anything unreadable throws. */
  function StoreOf(f: File<map<string, string>>): Option<map<string, string>> {
    match f
    case Missing => Some(map[])
    case Garbage => None
    case Holds(store) => Some(store)
  }

  /** The change `updateCredentials` runs: an unreadable store throws, and a key that is not there writes nothing. */
  function CredentialChange(op: CredentialOp, f: File<map<string, string>>): Option<map<string, string>> {
    match StoreOf(f)
    case None => None
    case Some(store) =>
      match op
      case Write(url, token) => Some(store[NormalizeInstanceUrl(url) := token])
      case Clear(url) => if NormalizeInstanceUrl(url) in store then Some(store - {NormalizeInstanceUrl(url)}) else None
  }

  /** The credential file as one change leaves it. */
  class CredentialFile {
    var file: File<map<string, string>>

    /** `updateCredentials`, holding the lock, with the change `writeCredential` or `clearCredential` passes; false when it throws. */
    method UpdateLocked(op: CredentialOp) returns (ok: bool)
      modifies this
      ensures file == Apply(old(file), CredentialChange, op)
      ensures ok <==> old(file) != Garbage
    {
      if file == Garbage {
        return false;
      }
      var store := if file.Holds? then file.v else map[];
      var key := NormalizeInstanceUrl(op.url);
      if op.Clear? {
        if key !in store {
          return true;
        }
        store := store - {key};
      } else {
        store := store[key := op.token];
      }
      file := Holds(store);
      return true;
    }
  }

  /** `readCredential` */
  function ReadCredential(f: File<map<string, string>>, url: string): Option<string> {
    match f
    case Holds(store) =>
      if NormalizeInstanceUrl(url) in store && store[NormalizeInstanceUrl(url)] != "" then Some(store[NormalizeInstanceUrl(url)]) else None
    case _ => None
  }

  function Target(op: CredentialOp): string {
    NormalizeInstanceUrl(op.url)
  }

  /** The credential the landed changes leave for an instance: its last write, unless a clear followed. */
  function LastToken(start: Option<string>, ops: seq<CredentialOp>, key: string): Option<string> {
    if ops == [] then start
    else
      var last := ops[|ops| - 1];
      if Target(last) != key then LastToken(start, ops[..|ops| - 1], key)
      else if last.Write? then (if last.token != "" then Some(last.token) else None) else None
  }

  lemma {:induction false} GarbageStays(ops: seq<CredentialOp>)
    ensures Fold(Garbage, CredentialChange, ops) == Garbage
  {
    if ops != [] { GarbageStays(ops[..|ops| - 1]); }
  }

  lemma {:induction false} FoldIsLastToken(start: File<map<string, string>>, ops: seq<CredentialOp>, url: string)
    requires start != Garbage
    ensures Fold(start, CredentialChange, ops) != Garbage
    ensures ReadCredential(Fold(start, CredentialChange, ops), url)
         == LastToken(ReadCredential(start, url), ops, NormalizeInstanceUrl(url))
  {
    if ops != [] { FoldIsLastToken(start, ops[..|ops| - 1], url); }
  }

  /**
   Concurrent credential changes: in every interleaving whose landings are serial, an unparsable store is never replaced,
   and otherwise every instance reads the last change of its own that landed, whatever others did.
   */
  lemma CredentialsLoseNothing(start: File<map<string, string>>, run: seq<Event<CredentialOp>>, url: string)
    requires Serial(start, CredentialChange, run)
    ensures
      var s := Run(start, CredentialChange, run);
      if start == Garbage then s.file == Garbage && ReadCredential(s.file, url) == None
      else ReadCredential(s.file, url) == LastToken(ReadCredential(start, url), s.log, NormalizeInstanceUrl(url))
  {
    NoLostUpdate(start, CredentialChange, run);
    var s := Run(start, CredentialChange, run);
    if start == Garbage { GarbageStays(s.log); } else { FoldIsLastToken(start, s.log, url); }
  }
}
