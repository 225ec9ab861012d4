/** The settings file of a node: absent and blank identity fields, what fills them, and when loading is a fixed point. */
module Settings {
  import opened Wrappers
  import opened Text
  import Slug
  import Fnv

  datatype UiLanguage = Ko | En

  datatype Connection = Connection(
    host: string, port: nat, username: string, password: string, autoConnect: bool, launchOnSystemStart: bool)

  datatype Topics = Topics(status: string, capabilities: string, request: string, response: string, event: string)

  datatype Permissions = Permissions(
    systemControl: bool, shellExec: bool, applicationLaunch: bool, screenCapture: bool, keyboardControl: bool,
    mouseControl: bool)

  /** The sections that filling does not look at. */
  datatype Rest = Rest(
    uiLanguage: UiLanguage, pairingSecret: string, connection: Connection, mqtt: Topics, permissions: Permissions)

  datatype Settings = Settings(
    displayName: string,
    instanceId: string,
    instanceAlias: string,
    nodeId: string,
    supportProfile: string,
    workspaceScopeId: string,
    hostFingerprint: string,
    installFingerprint: string,
    rest: Rest)

  /** What a call reads from its surroundings; process id and time are given as the digits that are printed. */
  datatype Host = Host(hostname: string, path: string, os: string, arch: string, pid: string, now: string)

  /** The UTF-8 encoding of a text. */
  function Utf8(s: string): seq<Fnv.byte> {
    if s == "" then [] else Utf8(s[..|s| - 1]) + Utf8Char(s[|s| - 1] as int)
  }

  function Utf8Char(c: int): seq<Fnv.byte>
    requires 0 <= c < 0x11_0000
  {
    if c < 0x80 then [c]
    else if c < 0x800 then [0xC0 + c / 0x40, 0x80 + c % 0x40]
    else if c < 0x1_0000 then [0xE0 + c / 0x1000, 0x80 + c / 0x40 % 0x40, 0x80 + c % 0x40]
    else [0xF0 + c / 0x4_0000, 0x80 + c / 0x1000 % 0x40, 0x80 + c / 0x40 % 0x40, 0x80 + c % 0x40]
  }

  function HashOf(text: string): string {
    Fnv.HashText(Utf8(text))
  }

  function DefaultInstanceAlias(host: Host): string {
    if Slug.Slug(host.hostname) == "" then "yeonjang-local" else Slug.Slug(host.hostname)
  }

  function Entropy(host: Host): string {
    host.hostname + "|" + host.path + "|" + host.pid + "|" + host.now + "|" + host.os
  }

  function GenerateInstanceId(host: Host): string {
    "yi-" + HashOf(Entropy(host))
  }

  function HostFingerprint(host: Host): string {
    HashOf(host.hostname + "|" + host.os + "|" + host.arch)
  }

  function InstallFingerprint(instanceId: string, host: Host): string {
    HashOf(instanceId + "|" + host.path)
  }

  function Or(value: string, fallback: string): string {
    if IsBlank(value) then fallback else value
  }

  function Filled(s: Settings, host: Host): Settings {
    var instanceId := Or(s.instanceId, GenerateInstanceId(host));
    Settings(
      Or(s.displayName, "Yeonjang"),
      instanceId,
      Or(s.instanceAlias, DefaultInstanceAlias(host)),
      Or(s.nodeId, "yeonjang-main"),
      Or(s.supportProfile, "desktop_interactive"),
      Or(s.workspaceScopeId, "workspace:local-default"),
      Or(s.hostFingerprint, HostFingerprint(host)),
      Or(s.installFingerprint, InstallFingerprint(instanceId, host)),
      s.rest)
  }

  /** The identity fields. */
  function Identity(s: Settings): seq<string> {
    [s.displayName, s.instanceId, s.instanceAlias, s.nodeId, s.supportProfile, s.workspaceScopeId, s.hostFingerprint,
     s.installFingerprint]
  }

  predicate Complete(s: Settings) {
    forall i :: 0 <= i < |Identity(s)| ==> !IsBlank(Identity(s)[i])
  }

  // ----- What is filled in is not blank -----

  lemma NotBlank(s: string, i: nat)
    requires i < |s| && !IsWhitespace(s[i])
    ensures !IsBlank(s)
  {
    TrimByEmpty(s, IsWhitespace);
  }

  lemma HashNotBlank(text: string)
    ensures |HashOf(text)| == 16 && !IsBlank(HashOf(text))
  {
    hide IsBlank, IsWhitespace, Fnv.HashText, Utf8;
    Fnv.HashTextShape(Utf8(text));
    DigitIsVisible(HashOf(text)[0]);
    NotBlank(HashOf(text), 0);
  }

  lemma DigitIsVisible(c: char)
    requires c in Fnv.DIGITS
    ensures !IsWhitespace(c)
  {
    var i :| 0 <= i < 16 && c == Fnv.DIGITS[i];
  }

  lemma AliasNotBlank(host: Host)
    ensures !IsBlank(DefaultInstanceAlias(host))
  {
    hide IsBlank;
    Slug.SlugIsSlug(host.hostname);
    NotBlank("yeonjang-local", 0);
    var slug := Slug.Slug(host.hostname);
    if slug != "" {
      NotBlank(slug, 0);
    }
  }

  lemma InstanceIdNotBlank(host: Host)
    ensures !IsBlank(GenerateInstanceId(host))
  {
    hide IsBlank, HashOf;
    NotBlank(GenerateInstanceId(host), 0);
  }

  lemma FallbacksNotBlank(s: Settings, host: Host)
    ensures Complete(Filled(s, host))
  {
    hide IsBlank, HashOf, DefaultInstanceAlias, GenerateInstanceId;
    AliasNotBlank(host);
    InstanceIdNotBlank(host);
    HashNotBlank(host.hostname + "|" + host.os + "|" + host.arch);
    HashNotBlank(Or(s.instanceId, GenerateInstanceId(host)) + "|" + host.path);
    NotBlank("Yeonjang", 0);
    NotBlank("yeonjang-main", 0);
    NotBlank("desktop_interactive", 0);
    NotBlank("workspace:local-default", 0);
  }

  /**
   * Filling leaves no identity field blank, keeps those that were not blank and everything else, and changes
   * nothing at all exactly if nothing was blank.
   */
  lemma FillCompletes(s: Settings, host: Host)
    ensures Complete(Filled(s, host))
    ensures forall i :: 0 <= i < 8 && !IsBlank(Identity(s)[i]) ==> Identity(Filled(s, host))[i] == Identity(s)[i]
    ensures Filled(s, host).rest == s.rest
    ensures Filled(s, host) == s <==> Complete(s)
  {
    hide IsBlank, DefaultInstanceAlias, GenerateInstanceId, HostFingerprint, InstallFingerprint;
    FallbacksNotBlank(s, host);
    if Complete(s) {
      CompleteUnfolds(s);
    }
  }

  lemma CompleteUnfolds(s: Settings)
    requires Complete(s)
    ensures !IsBlank(s.displayName) && !IsBlank(s.instanceId) && !IsBlank(s.instanceAlias) && !IsBlank(s.nodeId)
    ensures !IsBlank(s.supportProfile) && !IsBlank(s.workspaceScopeId)
    ensures !IsBlank(s.hostFingerprint) && !IsBlank(s.installFingerprint)
  {
    hide IsBlank;
    var fields := Identity(s);
    assert !IsBlank(fields[0]) && !IsBlank(fields[1]) && !IsBlank(fields[2]) && !IsBlank(fields[3]);
    assert !IsBlank(fields[4]) && !IsBlank(fields[5]) && !IsBlank(fields[6]) && !IsBlank(fields[7]);
  }

  /** Filling again changes nothing, even in different surroundings. */
  lemma FillIdempotent(s: Settings, host: Host, later: Host)
    ensures Filled(Filled(s, host), later) == Filled(s, host)
  {
    hide Filled, Complete;
    FillCompletes(s, host);
    FillCompletes(Filled(s, host), later);
  }

  /** Two new identities whose sources differ in a single byte, such as one digit of the time, are different. */
  lemma NewIdentitiesDiffer(first: Host, second: Host, i: nat)
    requires var a, b := Utf8(Entropy(first)), Utf8(Entropy(second));
             && |a| == |b| && i < |a| && a[i] != b[i]
             && forall k :: 0 <= k < |a| && k != i ==> a[k] == b[k]
    ensures GenerateInstanceId(first) != GenerateInstanceId(second)
  {
    hide Entropy, Utf8, Fnv.HashText;
    Fnv.OneByteChangesHash(Utf8(Entropy(first)), Utf8(Entropy(second)), i);
    assert GenerateInstanceId(first)[3..] == HashOf(Entropy(first));
    assert GenerateInstanceId(second)[3..] == HashOf(Entropy(second));
  }

  lemma {:induction false} Utf8Joins(a: string, b: string)
    ensures Utf8(a + b) == Utf8(a) + Utf8(b)
  {
    hide Utf8Char;
    if b == "" {
      assert a + b == a;
    } else {
      assert (a + b)[..|a + b| - 1] == a + b[..|b| - 1];
      Utf8Joins(a, b[..|b| - 1]);
    }
  }

  lemma Utf8Letter(c: char)
    requires c < '\U{80}'
    ensures Utf8([c]) == [c as int]
  {
    assert [c][..0] == "";
  }

  /** Where two texts differ in one ASCII letter. */
  lemma OneLetterBytes(front: string, x: char, y: char, back: string) returns (i: nat)
    requires x != y && x < '\U{80}' && y < '\U{80}'
    ensures var a, b := Utf8(front + [x] + back), Utf8(front + [y] + back);
            && |a| == |b| && i < |a| && a[i] != b[i]
            && forall k :: 0 <= k < |a| && k != i ==> a[k] == b[k]
  {
    hide Utf8, Utf8Char;
    Utf8Joins(front + [x], back);
    Utf8Joins(front + [y], back);
    Utf8Joins(front, [x]);
    Utf8Joins(front, [y]);
    Utf8Letter(x);
    Utf8Letter(y);
    i := |Utf8(front)|;
  }

  lemma OneLetterChangesHash(front: string, x: char, y: char, back: string)
    requires x != y && x < '\U{80}' && y < '\U{80}'
    ensures HashOf(front + [x] + back) != HashOf(front + [y] + back)
  {
    hide Utf8, Fnv.HashText;
    var i := OneLetterBytes(front, x, y, back);
    Fnv.OneByteChangesHash(Utf8(front + [x] + back), Utf8(front + [y] + back), i);
  }

  /** The host fingerprint sees every letter of the host's name, system and architecture. */
  lemma HostFingerprintSees(host: Host, front: string, x: char, y: char, back: string)
    requires x != y && x < '\U{80}' && y < '\U{80}'
    ensures HostFingerprint(host.(hostname := front + [x] + back)) != HostFingerprint(host.(hostname := front + [y] + back))
    ensures HostFingerprint(host.(os := front + [x] + back)) != HostFingerprint(host.(os := front + [y] + back))
    ensures HostFingerprint(host.(arch := front + [x] + back)) != HostFingerprint(host.(arch := front + [y] + back))
  {
    hide HashOf;
    LetterSeen("", front, x, y, back, "|" + host.os + "|" + host.arch);
    LetterSeen(host.hostname + "|", front, x, y, back, "|" + host.arch);
    LetterSeen(host.hostname + "|" + host.os + "|", front, x, y, back, "");
    HostTexts(host, front + [x] + back);
    HostTexts(host, front + [y] + back);
  }

  lemma HostTexts(host: Host, text: string)
    ensures HostFingerprint(host.(hostname := text)) == HashOf("" + text + ("|" + host.os + "|" + host.arch))
    ensures HostFingerprint(host.(os := text)) == HashOf((host.hostname + "|") + text + ("|" + host.arch))
    ensures HostFingerprint(host.(arch := text)) == HashOf((host.hostname + "|" + host.os + "|") + text + "")
  {
    hide HashOf;
    assert text + "|" + host.os + "|" + host.arch == "" + text + ("|" + host.os + "|" + host.arch);
    assert host.hostname + "|" + text + "|" + host.arch == (host.hostname + "|") + text + ("|" + host.arch);
    assert host.hostname + "|" + host.os + "|" + text == (host.hostname + "|" + host.os + "|") + text + "";
  }

  lemma LetterSeen(before: string, front: string, x: char, y: char, back: string, after: string)
    requires x != y && x < '\U{80}' && y < '\U{80}'
    ensures HashOf(before + (front + [x] + back) + after) != HashOf(before + (front + [y] + back) + after)
  {
    hide HashOf;
    OneLetterChangesHash(before + front, x, y, back + after);
    assert before + (front + [x] + back) + after == (before + front) + [x] + (back + after);
    assert before + (front + [y] + back) + after == (before + front) + [y] + (back + after);
  }

  /** The install fingerprint sees every letter of the instance id and of the file's path. */
  lemma InstallFingerprintSees(instanceId: string, host: Host, front: string, x: char, y: char, back: string)
    requires x != y && x < '\U{80}' && y < '\U{80}'
    ensures InstallFingerprint(front + [x] + back, host) != InstallFingerprint(front + [y] + back, host)
    ensures InstallFingerprint(instanceId, host.(path := front + [x] + back)) !=
            InstallFingerprint(instanceId, host.(path := front + [y] + back))
  {
    hide HashOf;
    LetterSeen("", front, x, y, back, "|" + host.path);
    LetterSeen(instanceId + "|", front, x, y, back, "");
    InstallTexts(instanceId, host, front + [x] + back);
    InstallTexts(instanceId, host, front + [y] + back);
  }

  lemma InstallTexts(instanceId: string, host: Host, text: string)
    ensures InstallFingerprint(text, host) == HashOf("" + text + ("|" + host.path))
    ensures InstallFingerprint(instanceId, host.(path := text)) == HashOf((instanceId + "|") + text + "")
  {
    hide HashOf;
    assert text + "|" + host.path == "" + text + ("|" + host.path);
    assert instanceId + "|" + text == (instanceId + "|") + text + "";
  }

  /** The alias is the slug of the host's name, or a fixed one for a name without letters and digits. */
  lemma AliasIs(host: Host)
    ensures (forall i :: 0 <= i < |host.hostname| ==> !Slug.IsAlphanumeric(host.hostname[i])) ==>
              DefaultInstanceAlias(host) == "yeonjang-local"
    ensures !(forall i :: 0 <= i < |host.hostname| ==> !Slug.IsAlphanumeric(host.hostname[i])) ==>
              Slug.Letters(DefaultInstanceAlias(host)) == Slug.Letters(host.hostname) && Slug.IsSlug(DefaultInstanceAlias(host))
  {
    hide Slug.Letters, Slug.IsAlphanumeric;
    Slug.SlugIsSlug(host.hostname);
    Slug.SlugKeepsLetters(host.hostname);
  }

  /** What each blank field becomes. */
  lemma BlankIsFilledWith(s: Settings, host: Host)
    ensures var r := Filled(s, host);
            && (IsBlank(s.displayName) ==> r.displayName == "Yeonjang")
            && (IsBlank(s.nodeId) ==> r.nodeId == "yeonjang-main")
            && (IsBlank(s.supportProfile) ==> r.supportProfile == "desktop_interactive")
            && (IsBlank(s.workspaceScopeId) ==> r.workspaceScopeId == "workspace:local-default")
            && (IsBlank(s.instanceId) ==> |r.instanceId| == 19 && r.instanceId[..3] == "yi-" && r.instanceId[3..] == HashOf(Entropy(host)))
            && (IsBlank(s.instanceAlias) ==> r.instanceAlias == DefaultInstanceAlias(host))
            && (IsBlank(s.hostFingerprint) ==> r.hostFingerprint == HostFingerprint(host))
            && (IsBlank(s.installFingerprint) ==> r.installFingerprint == InstallFingerprint(r.instanceId, host))
  {
    hide IsBlank, HashOf, DefaultInstanceAlias, HostFingerprint, InstallFingerprint, Entropy;
    HashNotBlank(Entropy(host));
  }

  // ----- The settings object -----

  method NewInstanceId(host: Host) returns (id: string)
    ensures id == GenerateInstanceId(host)
  {
    hide Entropy;
    var hash := Fnv.StableHexHash(Utf8(Entropy(host)));
    id := "yi-" + hash;
  }

  method NewInstanceAlias(host: Host) returns (alias: string)
    ensures alias == DefaultInstanceAlias(host)
  {
    var slug := Slug.SlugifySetting(host.hostname);
    alias := if slug == "" then "yeonjang-local" else slug;
  }

  class YeonjangSettings {
    var displayName: string
    var instanceId: string
    var instanceAlias: string
    var nodeId: string
    var supportProfile: string
    var workspaceScopeId: string
    var hostFingerprint: string
    var installFingerprint: string
    var rest: Rest

    function Value(): Settings
      reads this
    {
      Settings(displayName, instanceId, instanceAlias, nodeId, supportProfile, workspaceScopeId, hostFingerprint,
               installFingerprint, rest)
    }

    constructor (s: Settings)
      ensures Value() == s
    {
      displayName, instanceId, instanceAlias, nodeId := s.displayName, s.instanceId, s.instanceAlias, s.nodeId;
      supportProfile, workspaceScopeId := s.supportProfile, s.workspaceScopeId;
      hostFingerprint, installFingerprint, rest := s.hostFingerprint, s.installFingerprint, s.rest;
    }

    method ApplyIdentityDefaults(host: Host)
      modifies this
      ensures Value() == Filled(old(Value()), host)
    {
      hide IsBlank, HashOf, DefaultInstanceAlias, GenerateInstanceId, HostFingerprint, InstallFingerprint;
      FillNames(host);
      if IsBlank(workspaceScopeId) {
        workspaceScopeId := "workspace:local-default";
      }
      if IsBlank(hostFingerprint) {
        hostFingerprint := HostFingerprint(host);
      }
      if IsBlank(installFingerprint) {
        installFingerprint := InstallFingerprint(instanceId, host);
      }
    }

    /** The first five fields. */
    method FillNames(host: Host)
      modifies this
      ensures var was := old(Value());
              Value() == was.(
                displayName := Or(was.displayName, "Yeonjang"),
                instanceId := Or(was.instanceId, GenerateInstanceId(host)),
                instanceAlias := Or(was.instanceAlias, DefaultInstanceAlias(host)),
                nodeId := Or(was.nodeId, "yeonjang-main"),
                supportProfile := Or(was.supportProfile, "desktop_interactive"))
    {
      hide IsBlank, DefaultInstanceAlias, GenerateInstanceId;
      if IsBlank(displayName) {
        displayName := "Yeonjang";
      }
      if IsBlank(instanceId) {
        instanceId := NewInstanceId(host);
      }
      if IsBlank(instanceAlias) {
        instanceAlias := NewInstanceAlias(host);
      }
      if IsBlank(nodeId) {
        nodeId := "yeonjang-main";
      }
      if IsBlank(supportProfile) {
        supportProfile := "desktop_interactive";
      }
    }
  }

  // ----- The file -----

  /** What the file says: an identity key may be absent, blank or given. */
  datatype Stored = Stored(
    displayName: Option<string>,
    instanceId: Option<string>,
    instanceAlias: Option<string>,
    nodeId: Option<string>,
    supportProfile: Option<string>,
    workspaceScopeId: Option<string>,
    hostFingerprint: Option<string>,
    installFingerprint: Option<string>,
    rest: Rest)

  datatype File = Missing | Unreadable | Holds(stored: Stored)

  function Keys(stored: Stored): seq<Option<string>> {
    [stored.displayName, stored.instanceId, stored.instanceAlias, stored.nodeId, stored.supportProfile,
     stored.workspaceScopeId, stored.hostFingerprint, stored.installFingerprint]
  }

  /** Some identity key is there but blank. */
  predicate HasBlankKey(stored: Stored) {
    exists i :: 0 <= i < |Keys(stored)| && Keys(stored)[i].Some? && IsBlank(Keys(stored)[i].value)
  }

  /** The keys whose defaults depend on the host, the clock or a file's place are all there. */
  predicate HasHostKeys(stored: Stored) {
    stored.instanceId.Some? && stored.instanceAlias.Some? && stored.hostFingerprint.Some? && stored.installFingerprint.Some?
  }

  function TopicsOf(nodeId: string): Topics {
    var prefix := "nobie/v1/node/" + Trim(nodeId);
    Topics(prefix + "/status", prefix + "/capabilities", prefix + "/request", prefix + "/response", prefix + "/event")
  }

  const DEFAULT_REST := Rest(
    En, "", Connection("127.0.0.1", 1883, "", "", true, false), TopicsOf("yeonjang-main"),
    Permissions(true, true, true, true, true, true))

  const BLANK_DEFAULT := Settings("Yeonjang", "", "", "yeonjang-main", "desktop_interactive", "", "", "", DEFAULT_REST)

  function Default(host: Host): Settings {
    Filled(BLANK_DEFAULT, host)
  }

  function Given(key: Option<string>, fallback: string): string {
    match key case Some(value) => value case None => fallback
  }

  /** Absent keys are taken from freshly made default settings, which are already filled. */
  function Parsed(stored: Stored, host: Host): Settings {
    var fallback := Default(host);
    Settings(
      Given(stored.displayName, fallback.displayName),
      Given(stored.instanceId, fallback.instanceId),
      Given(stored.instanceAlias, fallback.instanceAlias),
      Given(stored.nodeId, fallback.nodeId),
      Given(stored.supportProfile, fallback.supportProfile),
      Given(stored.workspaceScopeId, fallback.workspaceScopeId),
      Given(stored.hostFingerprint, fallback.hostFingerprint),
      Given(stored.installFingerprint, fallback.installFingerprint),
      stored.rest)
  }

  /** Saving writes every key. */
  function Written(s: Settings): Stored {
    Stored(Some(s.displayName), Some(s.instanceId), Some(s.instanceAlias), Some(s.nodeId), Some(s.supportProfile),
           Some(s.workspaceScopeId), Some(s.hostFingerprint), Some(s.installFingerprint), s.rest)
  }

  /** How an attempt to save ends; a failed one may leave the file in any state. */
  datatype SaveOutcome = Saved | Failed(leaves: File)

  function Save(s: Settings, outcome: SaveOutcome): File {
    match outcome
    case Saved => Holds(Written(s))
    case Failed(leaves) => leaves
  }

  // ----- Loading -----

  /** What one load meets: its surroundings while parsing and, later, while filling, and how saving ends. */
  datatype Call = Call(parsing: Host, filling: Host, outcome: SaveOutcome)

  datatype LoadResult = LoadResult(settings: Option<Settings>, file: File, wrote: bool)

  function Load(file: File, call: Call): LoadResult {
    match file
    case Missing =>
      var settings := Default(call.parsing);
      LoadResult(Some(settings), Save(settings, call.outcome), true)
    case Unreadable => LoadResult(None, Unreadable, false)
    case Holds(stored) =>
      var before := Parsed(stored, call.parsing);
      var settings := Filled(before, call.filling);
      if settings != before then LoadResult(Some(settings), Save(settings, call.outcome), true)
      else LoadResult(Some(settings), file, false)
  }

  /** The results of loading again and again, each time from the file that the load before left. */
  function Loads(file: File, calls: seq<Call>): (results: seq<LoadResult>)
    ensures |results| == |calls|
    decreases |calls|
  {
    hide Load;
    if calls == [] then [] else [Load(file, calls[0])] + Loads(Load(file, calls[0]).file, calls[1..])
  }

  lemma DefaultComplete(host: Host)
    ensures Complete(Default(host))
  {
    hide Complete, Filled;
    FallbacksNotBlank(BLANK_DEFAULT, host);
  }

  /** What is parsed is complete exactly if no key of the file is blank: an absent key never arrives blank. */
  lemma ParsedCompleteIff(stored: Stored, host: Host)
    ensures Complete(Parsed(stored, host)) <==> !HasBlankKey(stored)
  {
    hide IsBlank, Default, Parsed, HasBlankKey;
    DefaultComplete(host);
    KeyBlankness(stored, host);
  }

  lemma KeyBlankness(stored: Stored, host: Host)
    requires forall i :: 0 <= i < 8 ==> !IsBlank(Identity(Default(host))[i])
    ensures Complete(Parsed(stored, host)) <==> !HasBlankKey(stored)
  {
    hide IsBlank, Default;
    var keys, fields, fallback := Keys(stored), Identity(Parsed(stored, host)), Identity(Default(host));
    forall i | 0 <= i < 8 ensures IsBlank(fields[i]) <==> keys[i].Some? && IsBlank(keys[i].value) {
      assert fields[i] == Given(keys[i], fallback[i]);
    }
  }

  /** A load of a readable file writes exactly if one of its identity keys is blank; a missing file is always written. */
  lemma LoadWritesIff(file: File, call: Call)
    ensures Load(file, call).wrote <==> file.Missing? || (file.Holds? && HasBlankKey(file.stored))
  {
    hide Filled, Parsed, Complete, HasBlankKey, Default;
    if file.Holds? {
      ParsedCompleteIff(file.stored, call.parsing);
      FillCompletes(Parsed(file.stored, call.parsing), call.filling);
    }
  }

  /** Settings are returned unless the file is unreadable, and they are complete; the file holds them if they were saved. */
  lemma LoadCompletes(file: File, call: Call)
    ensures var r := Load(file, call);
            && (r.settings.None? <==> file.Unreadable?)
            && (r.settings.Some? ==> Complete(r.settings.value))
            && (r.wrote && call.outcome.Saved? ==> r.file == Holds(Written(r.settings.value)))
            && (!r.wrote ==> r.file == file)
  {
    hide Filled, Parsed, Complete, IsBlank;
    match file
    case Missing => FillCompletes(BLANK_DEFAULT, call.parsing);
    case Unreadable =>
    case Holds(stored) => FillCompletes(Parsed(stored, call.parsing), call.filling);
  }

  predicate EndsWith(s: string, suffix: string) {
    |suffix| <= |s| && s[|s| - |suffix|..] == suffix
  }

  lemma SuffixEnds(prefix: string, suffix: string)
    ensures EndsWith(prefix + suffix, suffix) && |prefix + suffix| == |prefix| + |suffix| && prefix <= prefix + suffix
  {}

  /** Each topic of a node is the node's own prefix and its own ending, and nothing else. */
  lemma TopicsEnd(nodeId: string)
    ensures var t, prefix := TopicsOf(nodeId), "nobie/v1/node/" + Trim(nodeId);
            && prefix <= t.status && prefix <= t.capabilities && prefix <= t.request && prefix <= t.response && prefix <= t.event
            && |t.status| == |prefix| + 7 && EndsWith(t.status, "/status")
            && |t.capabilities| == |prefix| + 13 && EndsWith(t.capabilities, "/capabilities")
            && |t.request| == |prefix| + 8 && EndsWith(t.request, "/request")
            && |t.response| == |prefix| + 9 && EndsWith(t.response, "/response")
            && |t.event| == |prefix| + 6 && EndsWith(t.event, "/event")
  {
    hide Trim, EndsWith;
    var prefix := "nobie/v1/node/" + Trim(nodeId);
    SuffixEnds(prefix, "/status");
    SuffixEnds(prefix, "/capabilities");
    SuffixEnds(prefix, "/request");
    SuffixEnds(prefix, "/response");
    SuffixEnds(prefix, "/event");
  }

  // ----- Files that settle -----

  /** A file that every load reads alike and leaves alone. */
  predicate Pinned(stored: Stored) {
    HasHostKeys(stored) && !HasBlankKey(stored)
  }

  /** What a file with all its host keys says, wherever it is read. */
  function PinnedValue(stored: Stored): Settings
    requires HasHostKeys(stored)
  {
    Settings(Given(stored.displayName, "Yeonjang"), stored.instanceId.value, stored.instanceAlias.value,
             Given(stored.nodeId, "yeonjang-main"), Given(stored.supportProfile, "desktop_interactive"),
             Given(stored.workspaceScopeId, "workspace:local-default"), stored.hostFingerprint.value,
             stored.installFingerprint.value, stored.rest)
  }

  /** The defaults of the other keys are the same everywhere. */
  lemma DefaultConstants(host: Host)
    ensures var d := Default(host);
            && d.displayName == "Yeonjang" && d.nodeId == "yeonjang-main" && d.supportProfile == "desktop_interactive"
            && d.workspaceScopeId == "workspace:local-default"
            && d.instanceId == GenerateInstanceId(host) && d.instanceAlias == DefaultInstanceAlias(host)
            && d.hostFingerprint == HostFingerprint(host)
            && d.installFingerprint == InstallFingerprint(GenerateInstanceId(host), host)
  {
    hide IsBlank, GenerateInstanceId, DefaultInstanceAlias, HostFingerprint, InstallFingerprint;
    NotBlank("Yeonjang", 0);
    NotBlank("yeonjang-main", 0);
    NotBlank("desktop_interactive", 0);
    EmptyIsBlank();
  }

  lemma EmptyIsBlank()
    ensures IsBlank("")
  {}

  lemma PinnedLoad(stored: Stored, call: Call)
    requires Pinned(stored)
    ensures Load(Holds(stored), call) == LoadResult(Some(PinnedValue(stored)), Holds(stored), false)
  {
    hide Filled, HasBlankKey, Default;
    DefaultConstants(call.parsing);
    LoadWritesIff(Holds(stored), call);
  }

  /** No sequence of loads rewrites a pinned file, and all of them return the same settings, wherever they are made. */
  lemma {:induction false} PinnedFileStays(stored: Stored, calls: seq<Call>)
    requires Pinned(stored)
    ensures forall i :: 0 <= i < |calls| ==>
              Loads(Holds(stored), calls)[i] == LoadResult(Some(PinnedValue(stored)), Holds(stored), false)
  {
    hide Load, Pinned;
    if calls != [] {
      PinnedLoad(stored, calls[0]);
      PinnedFileStays(stored, calls[1..]);
    }
  }

  /** What a load saves is pinned to the settings it returns. */
  lemma WrittenIsPinned(s: Settings)
    requires Complete(s)
    ensures Pinned(Written(s)) && PinnedValue(Written(s)) == s
  {
    hide IsBlank;
    var keys, fields := Keys(Written(s)), Identity(s);
    forall i | 0 <= i < 8 ensures keys[i] == Some(fields[i]) && !IsBlank(fields[i]) {}
  }

  // ----- Files that do not -----

  /** A host of which only these parts matter. */
  function HostAt(hostname: string, path: string, now: string): Host {
    Host(hostname, path, "", "", "", now)
  }

  function Reading(host: Host): Call {
    Call(host, host, Saved)
  }

  lemma UnwrittenLoad(stored: Stored, host: Host)
    requires !HasBlankKey(stored)
    ensures Load(Holds(stored), Reading(host)) == LoadResult(Some(Parsed(stored, host)), Holds(stored), false)
  {
    hide Filled, Parsed, Complete, HasBlankKey;
    ParsedCompleteIff(stored, host);
    FillCompletes(Parsed(stored, host), host);
  }

  /**
   * A file without an instance id and without blank keys: two loads on one host whose clock readings differ in one
   * digit return different identities, and neither writes the file.
   */
  lemma AbsentIdIsNewEachTime(stored: Stored, host: Host, front: string, x: char, y: char, back: string)
    requires stored.instanceId.None? && !HasBlankKey(stored)
    requires x != y && x < '\U{80}' && y < '\U{80}'
    ensures var first := Load(Holds(stored), Reading(host.(now := front + [x] + back)));
            var second := Load(Holds(stored), Reading(host.(now := front + [y] + back)));
            && first.settings.Some? && second.settings.Some?
            && first.settings.value.instanceId != second.settings.value.instanceId
            && !first.wrote && !second.wrote && first.file == second.file == Holds(stored)
  {
    hide HasBlankKey, Load, Default, GenerateInstanceId;
    var h, k := host.(now := front + [x] + back), host.(now := front + [y] + back);
    UnwrittenLoad(stored, h);
    UnwrittenLoad(stored, k);
    DefaultConstants(h);
    DefaultConstants(k);
    NowChangesId(host, front, x, y, back);
  }

  lemma NowChangesId(host: Host, front: string, x: char, y: char, back: string)
    requires x != y && x < '\U{80}' && y < '\U{80}'
    ensures GenerateInstanceId(host.(now := front + [x] + back)) != GenerateInstanceId(host.(now := front + [y] + back))
  {
    hide Utf8, HashOf;
    var h, k := host.(now := front + [x] + back), host.(now := front + [y] + back);
    var before, after := host.hostname + "|" + host.path + "|" + host.pid + "|" + front, back + "|" + host.os;
    assert Entropy(h) == before + [x] + after;
    assert Entropy(k) == before + [y] + after;
    var i := OneLetterBytes(before, x, y, after);
    NewIdentitiesDiffer(h, k, i);
  }

  /** A file with a node id and nothing else, read a millisecond apart. */
  lemma NodeIdAloneNeverSettles(rest: Rest, host: Host)
    ensures var file := Holds(Stored(None, None, None, Some("x"), None, None, None, None, rest));
            var first := Load(file, Reading(host.(now := "1700000000001")));
            var second := Load(file, Reading(host.(now := "1700000000002")));
            first.settings != second.settings && !first.wrote && !second.wrote && first.file == second.file == file
  {
    hide Load, IsBlank;
    var stored := Stored(None, None, None, Some("x"), None, None, None, None, rest);
    NotBlank("x", 0);
    AbsentIdIsNewEachTime(stored, host, "170000000000", '1', '2', "");
    assert "170000000000" + ['1'] + "" == "1700000000001";
    assert "170000000000" + ['2'] + "" == "1700000000002";
  }

  lemma LetterAliases()
    ensures DefaultInstanceAlias(HostAt("a", "", "")) == "a" && DefaultInstanceAlias(HostAt("b", "", "")) == "b"
  {
    Slug.SlugFixesExactlySlugs("a");
    Slug.SlugFixesExactlySlugs("b");
  }

  lemma HostnameChangesFingerprint()
    ensures HostFingerprint(HostAt("a", "", "")) != HostFingerprint(HostAt("b", "", ""))
  {
    hide HashOf;
    OneLetterChangesHash("", 'a', 'b', "||");
    assert "a" + "|" + "" + "|" + "" == "" + ['a'] + "||";
    assert "b" + "|" + "" + "|" + "" == "" + ['b'] + "||";
  }

  /** Three hosts whose generated ids agree, in three places. */
  function PlacedHost(k: nat): Host {
    if k == 0 then HostAt("a", "b|c|d", "") else if k == 1 then HostAt("a|b", "c|d", "") else HostAt("a|b|c", "d", "")
  }

  lemma PlacedIdsAgree(k: nat)
    ensures GenerateInstanceId(PlacedHost(k)) == GenerateInstanceId(PlacedHost(0))
  {
    hide HashOf;
    assert "a" + "|" + "b|c|d" == "a|b" + "|" + "c|d" == "a|b|c" + "|" + "d";
    assert Entropy(PlacedHost(k)) == "a|b|c|d" + "|" + "" + "|" + "" + "|" + "";
  }

  /** The hash state after `x|` is not where it was for both of two letters x. */
  lemma LettersMove(hash: Fnv.u64)
    ensures Fnv.HashFrom(hash, [98, 124]) != hash || Fnv.HashFrom(hash, [99, 124]) != hash
  {
    hide Fnv.Mix;
    Fnv.HashJoins(hash, [98], [124]);
    Fnv.HashJoins(hash, [99], [124]);
    assert [98, 124] == [98 as Fnv.byte] + [124] && [99, 124] == [99 as Fnv.byte] + [124];
    var b, c := Fnv.HashFrom(hash, [98]), Fnv.HashFrom(hash, [99]);
    assert b != c by { OneByteState(hash); }
    Fnv.RewindUndoesHash(b, [124]);
    Fnv.RewindUndoesHash(c, [124]);
  }

  lemma OneByteState(hash: Fnv.u64)
    ensures Fnv.HashFrom(hash, [98]) != Fnv.HashFrom(hash, [99])
  {
    hide Fnv.Mix;
    assert [98 as Fnv.byte][..0] == [] && [99 as Fnv.byte][..0] == [];
    Fnv.DifferentBytesMixApart(hash, 98, 99);
  }

  /** The hash state of an install fingerprint once the generated id and the separator have been read. */
  function IdState(): Fnv.u64 {
    Fnv.HashFrom(Fnv.OFFSET_BASIS, Utf8(GenerateInstanceId(PlacedHost(0)) + "|"))
  }

  lemma InstallState(k: nat)
    ensures InstallFingerprint(GenerateInstanceId(PlacedHost(k)), PlacedHost(k)) ==
            Fnv.Hex(Fnv.HashFrom(IdState(), Utf8(PlacedHost(k).path)), 16)
  {
    hide Utf8, GenerateInstanceId, Fnv.HashFrom, Fnv.Hex, PlacedHost;
    PlacedIdsAgree(k);
    var prefix := GenerateInstanceId(PlacedHost(0)) + "|";
    Utf8Joins(prefix, PlacedHost(k).path);
    Fnv.HashJoins(Fnv.OFFSET_BASIS, Utf8(prefix), Utf8(PlacedHost(k).path));
  }

  lemma HexApart(x: Fnv.u64, y: Fnv.u64)
    requires Fnv.Hex(x, 16) == Fnv.Hex(y, 16)
    ensures x == y
  {
    hide Fnv.Hex, Fnv.HexValue, Fnv.Sixteens;
    Fnv.SixteensOfSixteen();
    Fnv.HexReadsBack(x, 16);
    Fnv.HexReadsBack(y, 16);
  }

  /** Reading "bar x, then rest" from a state that the bar x does not move gives what reading the rest gives, and only then. */
  lemma SameEndSameStart(hash: Fnv.u64, x: seq<Fnv.byte>, rest: seq<Fnv.byte>)
    requires Fnv.HashFrom(hash, x + rest) == Fnv.HashFrom(hash, rest)
    ensures Fnv.HashFrom(hash, x) == hash
  {
    hide Fnv.HashFrom, Fnv.Rewind;
    Fnv.HashJoins(hash, x, rest);
    Fnv.RewindUndoesHash(Fnv.HashFrom(hash, x), rest);
    Fnv.RewindUndoesHash(hash, rest);
  }

  /** The default install fingerprint is not the same everywhere. */
  lemma PlaceChangesInstallFingerprint() returns (k: nat)
    ensures InstallFingerprint(GenerateInstanceId(PlacedHost(k)), PlacedHost(k)) !=
            InstallFingerprint(GenerateInstanceId(PlacedHost(k + 1)), PlacedHost(k + 1))
  {
    hide Fnv.HashFrom, Fnv.Hex, Utf8, InstallFingerprint, GenerateInstanceId, IdState;
    var state := IdState();
    PathBytes();
    LettersMove(state);
    InstallState(0);
    InstallState(1);
    InstallState(2);
    k := if Fnv.HashFrom(state, [98, 124]) != state then 0 else 1;
    if Fnv.Hex(Fnv.HashFrom(state, Utf8("b|c|d")), 16) == Fnv.Hex(Fnv.HashFrom(state, Utf8("c|d")), 16) {
      HexApart(Fnv.HashFrom(state, Utf8("b|c|d")), Fnv.HashFrom(state, Utf8("c|d")));
      SameEndSameStart(state, [98, 124], Utf8("c|d"));
    }
    if Fnv.Hex(Fnv.HashFrom(state, Utf8("c|d")), 16) == Fnv.Hex(Fnv.HashFrom(state, Utf8("d")), 16) {
      HexApart(Fnv.HashFrom(state, Utf8("c|d")), Fnv.HashFrom(state, Utf8("d")));
      SameEndSameStart(state, [99, 124], Utf8("d"));
    }
  }

  lemma PathBytes()
    ensures Utf8("b|c|d") == [98, 124] + Utf8("c|d")
    ensures Utf8("c|d") == [99, 124] + Utf8("d")
  {
    hide Utf8;
    Utf8Letter('b');
    Utf8Letter('c');
    Utf8Letter('|');
    Utf8Joins("b", "|");
    Utf8Joins("c", "|");
    Utf8Joins("b|", "c|d");
    Utf8Joins("c|", "d");
    assert "b" + "|" == "b|" && "c" + "|" == "c|";
    assert "b|" + "c|d" == "b|c|d" && "c|" + "d" == "c|d";
  }

  /** A file without blank keys that lacks a host key is read differently in two surroundings. */
  lemma AbsentHostKeyVaries(stored: Stored) returns (h: Host, k: Host)
    requires !HasBlankKey(stored) && !HasHostKeys(stored)
    ensures Load(Holds(stored), Reading(h)).settings != Load(Holds(stored), Reading(k)).settings
  {
    hide HasBlankKey, Load, Default, GenerateInstanceId, DefaultInstanceAlias, HostFingerprint, InstallFingerprint;
    if stored.instanceId.None? {
      h, k := HostAt("", "", "1"), HostAt("", "", "2");
      AbsentIdIsNewEachTime(stored, HostAt("", "", ""), "", '1', '2', "");
      assert "" + ['1'] + "" == "1" && "" + ['2'] + "" == "2";
    } else if stored.instanceAlias.None? || stored.hostFingerprint.None? {
      h, k := HostAt("a", "", ""), HostAt("b", "", "");
      LetterAliases();
      HostnameChangesFingerprint();
    } else {
      var place := PlaceChangesInstallFingerprint();
      h, k := PlacedHost(place), PlacedHost(place + 1);
    }
    UnwrittenLoad(stored, h);
    UnwrittenLoad(stored, k);
    DefaultConstants(h);
    DefaultConstants(k);
  }

  // ----- The fixed point -----

  /** Every later load, in any surroundings and with any outcome of saving, returns these settings. */
  ghost predicate AlwaysReturns(file: File, s: Settings) {
    forall calls: seq<Call>, i: nat :: i < |calls| ==> Loads(file, calls)[i].settings == Some(s)
  }

  lemma FirstResult(file: File, call: Call)
    ensures Loads(file, [call])[0] == Load(file, call)
  {}

  lemma SecondResult(file: File, first: Call, second: Call)
    ensures Loads(file, [first, second])[1] == Load(Load(file, first).file, second)
  {
    hide Load;
    assert [first, second][1..] == [second];
    FirstResult(Load(file, first).file, second);
  }

  lemma ReturnsAtOnce(file: File, s: Settings, call: Call)
    requires AlwaysReturns(file, s)
    ensures Load(file, call).settings == Some(s)
  {
    hide Load, Loads;
    FirstResult(file, call);
    assert Loads(file, [call])[0].settings == Some(s);
  }

  /** The files that always give the same settings are exactly the pinned ones with that value. */
  lemma {:induction false} AlwaysReturnsIffPinned(file: File, s: Settings)
    ensures AlwaysReturns(file, s) <==> file.Holds? && Pinned(file.stored) && PinnedValue(file.stored) == s
  {
    hide Load, Loads, HasBlankKey;
    if file.Holds? && Pinned(file.stored) && PinnedValue(file.stored) == s {
      forall calls: seq<Call>, i: nat | i < |calls| ensures Loads(file, calls)[i].settings == Some(s) {
        PinnedFileStays(file.stored, calls);
      }
    }
    if AlwaysReturns(file, s) {
      PinnedIfAlwaysReturns(file, s);
    }
  }

  lemma PinnedIfAlwaysReturns(file: File, s: Settings)
    requires AlwaysReturns(file, s)
    ensures file.Holds? && Pinned(file.stored) && PinnedValue(file.stored) == s
  {
    hide Load, Loads, HasBlankKey, HasHostKeys, PinnedValue, AlwaysReturns;
    var host := HostAt("", "", "");
    var spoil := Call(host, host, Failed(Unreadable));
    NeverSpoilt(file, s, spoil);
    if !HasHostKeys(file.stored) {
      var h, k := AbsentHostKeyVaries(file.stored);
      ReturnsAtOnce(file, s, Reading(h));
      ReturnsAtOnce(file, s, Reading(k));
    } else {
      PinnedLoad(file.stored, Reading(host));
      ReturnsAtOnce(file, s, Reading(host));
    }
  }

  /** A load that writes may fail to, and leave nothing that can be read. */
  lemma NeverSpoilt(file: File, s: Settings, spoil: Call)
    requires AlwaysReturns(file, s) && spoil.outcome == Failed(Unreadable)
    ensures file.Holds? && !HasBlankKey(file.stored)
  {
    hide Loads, HasBlankKey, Filled, Default, Parsed;
    ReturnsAtOnce(file, s, spoil);
    LoadWritesIff(file, spoil);
    SecondResult(file, spoil, spoil);
    assert Loads(file, [spoil, spoil])[1].settings == Some(s);
  }

  /**
   * When loading has reached its fixed point. After a load that returned settings, all later loads return the same
   * if and only if that load saved what it filled in, or had nothing to fill in and found no host key absent, or its
   * failed attempt to save happened to leave a pinned file with just these settings.
   */
  lemma LoadIsFinalIff(file: File, call: Call)
    requires !file.Unreadable?
    ensures var r := Load(file, call);
            && r.settings.Some?
            && (AlwaysReturns(r.file, r.settings.value) <==>
                if file.Holds? && !HasBlankKey(file.stored) then HasHostKeys(file.stored)
                else call.outcome.Saved? || (r.file.Holds? && Pinned(r.file.stored) && PinnedValue(r.file.stored) == r.settings.value))
  {
    hide Load, HasBlankKey, HasHostKeys, Pinned, PinnedValue, AlwaysReturns, Complete;
    var r := Load(file, call);
    LoadCompletes(file, call);
    LoadWritesIff(file, call);
    AlwaysReturnsIffPinned(r.file, r.settings.value);
    if !r.wrote {
      UnwrittenIsFinalIff(file.stored, call);
    } else if call.outcome.Saved? {
      WrittenIsPinned(r.settings.value);
    }
  }

  lemma UnwrittenIsFinalIff(stored: Stored, call: Call)
    requires !HasBlankKey(stored)
    ensures var r := Load(Holds(stored), call);
            r.settings.Some? && (Pinned(stored) && PinnedValue(stored) == r.settings.value <==> HasHostKeys(stored))
  {
    hide Load, HasBlankKey, PinnedValue;
    LoadCompletes(Holds(stored), call);
    if HasHostKeys(stored) {
      PinnedLoad(stored, call);
    }
  }

  /** Once a load has saved what it filled in, all later loads return the same settings and write nothing. */
  lemma SavedLoadIsFinal(file: File, first: Call, later: seq<Call>)
    requires Load(file, first).wrote && first.outcome.Saved?
    ensures var r := Load(file, first);
            && r.settings.Some?
            && forall i :: 0 <= i < |later| ==> Loads(r.file, later)[i] == LoadResult(r.settings, r.file, false)
  {
    hide Complete, Load, Loads, Pinned;
    var r := Load(file, first);
    LoadWritesIff(file, first);
    LoadCompletes(file, first);
    WrittenIsPinned(r.settings.value);
    PinnedFileStays(Written(r.settings.value), later);
  }

  class SettingsFile {
    var file: File

    constructor (file: File)
      ensures this.file == file
    {
      this.file := file;
    }

    method SaveSettings(s: Settings, outcome: SaveOutcome)
      modifies this
      ensures file == Save(s, outcome)
    {
      match outcome {
        case Saved => file := Holds(Written(s));
        case Failed(leaves) => file := leaves;
      }
    }

    method LoadSettings(call: Call) returns (result: Option<Settings>, wrote: bool)
      modifies this
      ensures LoadResult(result, file, wrote) == Load(old(file), call)
      ensures result.Some? ==> Complete(result.value)
    {
      hide Filled, Complete, Written;
      LoadCompletes(file, call);
      match file {
        case Missing =>
          var settings := NewDefault(call.parsing);
          SaveSettings(settings, call.outcome);
          return Some(settings), true;
        case Unreadable =>
          return None, false;
        case Holds(stored) =>
          var before := Parse(stored, call.parsing);
          var settings := new YeonjangSettings(before);
          settings.ApplyIdentityDefaults(call.filling);
          wrote := settings.Value() != before;
          if wrote {
            SaveSettings(settings.Value(), call.outcome);
          }
          result := Some(settings.Value());
      }
    }
  }

  method NewDefault(host: Host) returns (s: Settings)
    ensures s == Default(host)
  {
    hide Filled;
    var settings := new YeonjangSettings(BLANK_DEFAULT);
    settings.ApplyIdentityDefaults(host);
    s := settings.Value();
  }

  /** The derived reader: it makes the default settings first and replaces what the file gives. */
  method Parse(stored: Stored, host: Host) returns (s: Settings)
    ensures s == Parsed(stored, host)
  {
    hide Default;
    s := NewDefault(host);
    if stored.displayName.Some? { s := s.(displayName := stored.displayName.value); }
    if stored.instanceId.Some? { s := s.(instanceId := stored.instanceId.value); }
    if stored.instanceAlias.Some? { s := s.(instanceAlias := stored.instanceAlias.value); }
    if stored.nodeId.Some? { s := s.(nodeId := stored.nodeId.value); }
    if stored.supportProfile.Some? { s := s.(supportProfile := stored.supportProfile.value); }
    if stored.workspaceScopeId.Some? { s := s.(workspaceScopeId := stored.workspaceScopeId.value); }
    if stored.hostFingerprint.Some? { s := s.(hostFingerprint := stored.hostFingerprint.value); }
    if stored.installFingerprint.Some? { s := s.(installFingerprint := stored.installFingerprint.value); }
    s := s.(rest := stored.rest);
  }
}
