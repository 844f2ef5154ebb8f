/** Workspaces and their dictionary form: ToDict and FromDict of profiles/workspace.cc. */
module Workspace {

  import opened Timestamps
  import opened Wrappers

  const UINT32_LIMIT: int := 0x1_0000_0000
  const DEFAULT_COLOR: uint32 := 0xFF6366F1

  type uint32 = n: int | 0 <= n < 0x1_0000_0000
  type int32 = n: int | -0x8000_0000 <= n < 0x8000_0000

  // --- Dictionary values -------------------------------------------------------------------------------

  /** The dictionary keys: one constructor per key constant. */
  datatype Key =
    | KeyId | KeyName | KeyType | KeyColor | KeyDefaultTabTitle | KeyNotes
    | KeyFingerprintSeed | KeyUserAgent | KeyScreenWidth | KeyScreenHeight | KeyGpuVendor | KeyGpuRenderer
    | KeyHardwareConcurrency | KeyPlatform | KeyColorScheme
    | KeyProxy | KeyTimezone | KeyLocale | KeyGeoip
    | KeyHumanize | KeyHumanPreset | KeyHeadless | KeyClipboardSync | KeyLaunchArgs | KeyAutoLaunch
    | KeyTag | KeyTags | KeyCreatedAt | KeyUpdatedAt
    | KeyVersion | KeyWorkspaces

  datatype Value =
    | Text(text: string)
    | Number(number: int32)
    | Flag(flag: bool)
    | List(items: seq<Value>)
    | Dict(dict: map<Key, Value>)

  type DictValue = map<Key, Value>

  function FindString(d: DictValue, k: Key): Option<string> {
    if k in d && d[k].Text? then Some(d[k].text) else None
  }

  function FindInt(d: DictValue, k: Key): Option<int32> {
    if k in d && d[k].Number? then Some(d[k].number) else None
  }

  function FindBool(d: DictValue, k: Key): Option<bool> {
    if k in d && d[k].Flag? then Some(d[k].flag) else None
  }

  function FindList(d: DictValue, k: Key): Option<seq<Value>> {
    if k in d && d[k].List? then Some(d[k].items) else None
  }

  function Or<T>(found: Option<T>, default: T): T {
    match found
    case Some(v) => v
    case None => default
  }

  // --- Casts and types -----------------------------------------------------------------------------

  /** `static_cast<int>` of a uint32_t. */
  function ToInt32(u: uint32): int32 {
    if u < 0x8000_0000 then u else u - UINT32_LIMIT
  }

  /** `static_cast<uint32_t>` of an int. */
  function ToUint32(i: int32): uint32 {
    if i >= 0 then i else i + UINT32_LIMIT
  }

  datatype Type = Normal | Fingerprint

  function TypeToString(t: Type): string {
    match t
    case Normal => "normal"
    case Fingerprint => "fingerprint"
  }

  function StringToType(s: string): Type {
    if s == "fingerprint" then Fingerprint else Normal
  }

  // --- Tags --------------------------------------------------------------------------------------------

  datatype ProfileTag = ProfileTag(tag: string, color: string)

  function TagToDict(t: ProfileTag): DictValue {
    map[KeyTag := Text(t.tag), KeyColor := Text(t.color)]
  }

  function TagFromDict(d: DictValue): ProfileTag {
    ProfileTag(Or(FindString(d, KeyTag), ""), Or(FindString(d, KeyColor), ""))
  }

  // --- Workspaces --------------------------------------------------------------------------------------

  datatype Identity = Identity(
    id: string, name: string, kind: Type, color: uint32, defaultTabTitle: string, notes: string)

  datatype Screen = Screen(fingerprintSeed: int32, userAgent: string, screenWidth: int32, screenHeight: int32)

  datatype Hardware = Hardware(
    gpuVendor: string, gpuRenderer: string, hardwareConcurrency: int32, platform: string, colorScheme: string)

  datatype Network = Network(proxy: string, timezone: string, locale: string, geoip: bool)

  datatype Behavior = Behavior(
    humanize: bool, humanPreset: string, headless: bool, clipboardSync: bool, autoLaunch: bool,
    launchArgs: seq<string>)

  /** Populated at launch time and not stored. */
  datatype Runtime = Runtime(userDataDir: string, status: string, cdpUrl: string)

  datatype Metadata = Metadata(createdAt: Time, updatedAt: Time)

  /** The struct's fields, in the groups its header names. */
  datatype Workspace = Workspace(
    identity: Identity, screen: Screen, hardware: Hardware, network: Network, behavior: Behavior,
    tags: seq<ProfileTag>, runtime: Runtime, metadata: Metadata)

  const NO_RUNTIME: Runtime := Runtime("", "", "")

  /** What survives a trip through the file: everything but the runtime fields, times to the millisecond. */
  function Persisted(ws: Workspace): Workspace {
    ws.(runtime := NO_RUNTIME,
        metadata := Metadata(Truncated(ws.metadata.createdAt), Truncated(ws.metadata.updatedAt)))
  }

  // --- What ToDict stores --------------------------------------------------------------------------------

  function NonEmpty(s: string): Option<Value> {
    if s == "" then None else Some(Text(s))
  }

  function NonZero(n: int32): Option<Value> {
    if n == 0 then None else Some(Number(n))
  }

  function TextItems(items: seq<string>): (r: seq<Value>)
    ensures |r| == |items|
  {
    seq(|items|, i requires 0 <= i < |items| => Text(items[i]))
  }

  function TagItems(tags: seq<ProfileTag>): (r: seq<Value>)
    ensures |r| == |tags|
  {
    seq(|tags|, i requires 0 <= i < |tags| => Dict(TagToDict(tags[i])))
  }

  /** The value `ToDict` stores under each key of a workspace; None where it stores nothing. */
  function Field(ws: Workspace, k: Key): Option<Value> {
    match k
    case KeyId => Some(Text(ws.identity.id))
    case KeyName => Some(Text(ws.identity.name))
    case KeyType => Some(Text(TypeToString(ws.identity.kind)))
    case KeyColor => Some(Number(ToInt32(ws.identity.color)))
    case KeyDefaultTabTitle => NonEmpty(ws.identity.defaultTabTitle)
    case KeyNotes => NonEmpty(ws.identity.notes)
    case KeyFingerprintSeed => Some(Number(ws.screen.fingerprintSeed))
    case KeyUserAgent => NonEmpty(ws.screen.userAgent)
    case KeyScreenWidth => Some(Number(ws.screen.screenWidth))
    case KeyScreenHeight => Some(Number(ws.screen.screenHeight))
    case KeyGpuVendor => NonEmpty(ws.hardware.gpuVendor)
    case KeyGpuRenderer => NonEmpty(ws.hardware.gpuRenderer)
    case KeyHardwareConcurrency => NonZero(ws.hardware.hardwareConcurrency)
    case KeyPlatform => NonEmpty(ws.hardware.platform)
    case KeyColorScheme => NonEmpty(ws.hardware.colorScheme)
    case KeyProxy => NonEmpty(ws.network.proxy)
    case KeyTimezone => NonEmpty(ws.network.timezone)
    case KeyLocale => NonEmpty(ws.network.locale)
    case KeyGeoip => Some(Flag(ws.network.geoip))
    case KeyHumanize => Some(Flag(ws.behavior.humanize))
    case KeyHumanPreset => NonEmpty(ws.behavior.humanPreset)
    case KeyHeadless => Some(Flag(ws.behavior.headless))
    case KeyClipboardSync => Some(Flag(ws.behavior.clipboardSync))
    case KeyAutoLaunch => Some(Flag(ws.behavior.autoLaunch))
    case KeyLaunchArgs => Some(List(TextItems(ws.behavior.launchArgs)))
    case KeyTags => Some(List(TagItems(ws.tags)))
    case KeyCreatedAt => Some(Text(TimeToString(ws.metadata.createdAt)))
    case KeyUpdatedAt => Some(Text(TimeToString(ws.metadata.updatedAt)))
    case _ => None
  }

  predicate Holds(d: DictValue, k: Key, v: Option<Value>) {
    (k in d <==> v.Some?) && (k in d ==> d[k] == v.value)
  }

  /** A dictionary that stores exactly the fields of `ws`. */
  ghost predicate IsDictOf(d: DictValue, ws: Workspace) {
    forall k: Key :: Holds(d, k, Field(ws, k))
  }

  /** The one dictionary that stores exactly the fields of `ws`. */
  ghost function DictOf(ws: Workspace): (d: DictValue)
    ensures IsDictOf(d, ws)
  {
    map k: Key | Field(ws, k).Some? :: Field(ws, k).value
  }

  lemma DictIsUnique(d: DictValue, ws: Workspace)
    requires IsDictOf(d, ws)
    ensures d == DictOf(ws)
  {
    hide Field;
    forall k: Key ensures Holds(d, k, Field(ws, k)) && Holds(DictOf(ws), k, Field(ws, k)) {
    }
  }

  /** The order in which `ToDict` visits the keys. */
  function Rank(k: Key): nat {
    match k
    case KeyId => 0
    case KeyName => 1
    case KeyType => 2
    case KeyColor => 3
    case KeyDefaultTabTitle => 4
    case KeyNotes => 5
    case KeyFingerprintSeed => 6
    case KeyUserAgent => 7
    case KeyScreenWidth => 8
    case KeyScreenHeight => 9
    case KeyGpuVendor => 10
    case KeyGpuRenderer => 11
    case KeyHardwareConcurrency => 12
    case KeyPlatform => 13
    case KeyColorScheme => 14
    case KeyProxy => 15
    case KeyTimezone => 16
    case KeyLocale => 17
    case KeyGeoip => 18
    case KeyHumanize => 19
    case KeyHumanPreset => 20
    case KeyHeadless => 21
    case KeyClipboardSync => 22
    case KeyAutoLaunch => 23
    case KeyLaunchArgs => 24
    case KeyTags => 25
    case KeyCreatedAt => 26
    case KeyUpdatedAt => 27
    case KeyTag => 28
    case KeyVersion => 29
    case KeyWorkspaces => 30
  }

  lemma RankInjective(j: Key, k: Key)
    ensures Rank(j) == Rank(k) ==> j == k
  {
    KeyAtRank(j);
    KeyAtRank(k);
  }

  function KeyAt(rank: nat): Key {
    match rank
    case 0 => KeyId
    case 1 => KeyName
    case 2 => KeyType
    case 3 => KeyColor
    case 4 => KeyDefaultTabTitle
    case 5 => KeyNotes
    case 6 => KeyFingerprintSeed
    case 7 => KeyUserAgent
    case 8 => KeyScreenWidth
    case 9 => KeyScreenHeight
    case 10 => KeyGpuVendor
    case 11 => KeyGpuRenderer
    case 12 => KeyHardwareConcurrency
    case 13 => KeyPlatform
    case 14 => KeyColorScheme
    case 15 => KeyProxy
    case 16 => KeyTimezone
    case 17 => KeyLocale
    case 18 => KeyGeoip
    case 19 => KeyHumanize
    case 20 => KeyHumanPreset
    case 21 => KeyHeadless
    case 22 => KeyClipboardSync
    case 23 => KeyAutoLaunch
    case 24 => KeyLaunchArgs
    case 25 => KeyTags
    case 26 => KeyCreatedAt
    case 27 => KeyUpdatedAt
    case 28 => KeyTag
    case 29 => KeyVersion
    case _ => KeyWorkspaces
  }

  lemma KeyAtRank(k: Key)
    ensures KeyAt(Rank(k)) == k
  {
  }

  /** The dictionary stores the fields of `ws` for the first `n` keys, and nothing else. */
  ghost predicate Stored(d: DictValue, ws: Workspace, n: nat) {
    forall k: Key :: Holds(d, k, if Rank(k) < n then Field(ws, k) else None)
  }

  /** `dict.Set(k, v)`; `v` is None when the source skips the field. */
  method Put(dict: DictValue, k: Key, v: Option<Value>, ghost ws: Workspace) returns (r: DictValue)
    requires v == Field(ws, k) && Stored(dict, ws, Rank(k))
    ensures Stored(r, ws, Rank(k) + 1)
  {
    hide Field, Rank;
    r := dict;
    if v.Some? {
      r := r[k := v.value];
    }
    forall j: Key ensures Holds(r, j, if Rank(j) < Rank(k) + 1 then Field(ws, j) else None) {
      RankInjective(j, k);
      assert Holds(dict, j, if Rank(j) < Rank(k) then Field(ws, j) else None);
    }
  }

  lemma NothingStored(ws: Workspace)
    ensures Stored(map[], ws, 0)
  {
  }

  lemma AllStored(d: DictValue, ws: Workspace)
    requires Stored(d, ws, 28)
    ensures IsDictOf(d, ws)
  {
    hide Field, Rank;
    forall k: Key ensures Holds(d, k, Field(ws, k)) {
      assert Holds(d, k, if Rank(k) < 28 then Field(ws, k) else None);
      if Rank(k) >= 28 {
        NothingElse(ws, k);
      }
    }
  }

  lemma NothingElse(ws: Workspace, k: Key)
    requires Rank(k) >= 28
    ensures Field(ws, k) == None
  {
  }

  method PutIdentity(before: DictValue, ws: Workspace) returns (dict: DictValue)
    requires Stored(before, ws, 0)
    ensures Stored(dict, ws, 6)
  {
    hide Stored, NonEmpty, NonZero, TypeToString, ToInt32, TimeToString, TextItems, TagItems;
    dict := before;
    dict := Put(dict, KeyId, Some(Text(ws.identity.id)), ws);
    dict := Put(dict, KeyName, Some(Text(ws.identity.name)), ws);
    dict := Put(dict, KeyType, Some(Text(TypeToString(ws.identity.kind))), ws);
    dict := Put(dict, KeyColor, Some(Number(ToInt32(ws.identity.color))), ws);
    dict := Put(dict, KeyDefaultTabTitle, NonEmpty(ws.identity.defaultTabTitle), ws);
    dict := Put(dict, KeyNotes, NonEmpty(ws.identity.notes), ws);
  }

  method PutScreen(before: DictValue, ws: Workspace) returns (dict: DictValue)
    requires Stored(before, ws, 6)
    ensures Stored(dict, ws, 10)
  {
    hide Stored, NonEmpty, NonZero, TypeToString, ToInt32, TimeToString, TextItems, TagItems;
    dict := before;
    dict := Put(dict, KeyFingerprintSeed, Some(Number(ws.screen.fingerprintSeed)), ws);
    dict := Put(dict, KeyUserAgent, NonEmpty(ws.screen.userAgent), ws);
    dict := Put(dict, KeyScreenWidth, Some(Number(ws.screen.screenWidth)), ws);
    dict := Put(dict, KeyScreenHeight, Some(Number(ws.screen.screenHeight)), ws);
  }

  method PutHardware(before: DictValue, ws: Workspace) returns (dict: DictValue)
    requires Stored(before, ws, 10)
    ensures Stored(dict, ws, 15)
  {
    hide Stored, NonEmpty, NonZero, TypeToString, ToInt32, TimeToString, TextItems, TagItems;
    dict := before;
    dict := Put(dict, KeyGpuVendor, NonEmpty(ws.hardware.gpuVendor), ws);
    dict := Put(dict, KeyGpuRenderer, NonEmpty(ws.hardware.gpuRenderer), ws);
    dict := Put(dict, KeyHardwareConcurrency, NonZero(ws.hardware.hardwareConcurrency), ws);
    dict := Put(dict, KeyPlatform, NonEmpty(ws.hardware.platform), ws);
    dict := Put(dict, KeyColorScheme, NonEmpty(ws.hardware.colorScheme), ws);
  }

  method PutNetwork(before: DictValue, ws: Workspace) returns (dict: DictValue)
    requires Stored(before, ws, 15)
    ensures Stored(dict, ws, 19)
  {
    hide Stored, NonEmpty, NonZero, TypeToString, ToInt32, TimeToString, TextItems, TagItems;
    dict := before;
    dict := Put(dict, KeyProxy, NonEmpty(ws.network.proxy), ws);
    dict := Put(dict, KeyTimezone, NonEmpty(ws.network.timezone), ws);
    dict := Put(dict, KeyLocale, NonEmpty(ws.network.locale), ws);
    dict := Put(dict, KeyGeoip, Some(Flag(ws.network.geoip)), ws);
  }

  method PutBehavior(before: DictValue, ws: Workspace) returns (dict: DictValue)
    requires Stored(before, ws, 19)
    ensures Stored(dict, ws, 24)
  {
    hide Stored, NonEmpty, NonZero, TypeToString, ToInt32, TimeToString, TextItems, TagItems;
    dict := before;
    dict := Put(dict, KeyHumanize, Some(Flag(ws.behavior.humanize)), ws);
    dict := Put(dict, KeyHumanPreset, NonEmpty(ws.behavior.humanPreset), ws);
    dict := Put(dict, KeyHeadless, Some(Flag(ws.behavior.headless)), ws);
    dict := Put(dict, KeyClipboardSync, Some(Flag(ws.behavior.clipboardSync)), ws);
    dict := Put(dict, KeyAutoLaunch, Some(Flag(ws.behavior.autoLaunch)), ws);
  }

  method PutListsAndTimes(before: DictValue, ws: Workspace) returns (dict: DictValue)
    requires Stored(before, ws, 24)
    ensures Stored(dict, ws, 28)
  {
    hide Stored, NonEmpty, NonZero, TypeToString, ToInt32, TimeToString, TextItems, TagItems;
    dict := before;
    var launchArgsList := TextList(ws.behavior.launchArgs);
    dict := Put(dict, KeyLaunchArgs, Some(List(launchArgsList)), ws);
    var tagsList := TagList(ws.tags);
    dict := Put(dict, KeyTags, Some(List(tagsList)), ws);
    dict := Put(dict, KeyCreatedAt, Some(Text(TimeToString(ws.metadata.createdAt))), ws);
    dict := Put(dict, KeyUpdatedAt, Some(Text(TimeToString(ws.metadata.updatedAt))), ws);
  }

  /** `Workspace::ToDict`: stores exactly the fields `Field` lists. */
  method ToDict(ws: Workspace) returns (dict: DictValue)
    ensures dict == DictOf(ws)
  {
    hide Stored, IsDictOf, DictOf;
    NothingStored(ws);
    dict := PutIdentity(map[], ws);
    dict := PutScreen(dict, ws);
    dict := PutHardware(dict, ws);
    dict := PutNetwork(dict, ws);
    dict := PutBehavior(dict, ws);
    dict := PutListsAndTimes(dict, ws);
    AllStored(dict, ws);
    DictIsUnique(dict, ws);
  }

  method TextList(items: seq<string>) returns (list: seq<Value>)
    ensures list == TextItems(items)
  {
    list := [];
    while |list| < |items|
      invariant |list| <= |items| && list == TextItems(items)[..|list|]
    {
      list := list + [Text(items[|list|])];
    }
  }

  method TagList(tags: seq<ProfileTag>) returns (list: seq<Value>)
    ensures list == TagItems(tags)
  {
    list := [];
    while |list| < |tags|
      invariant |list| <= |tags| && list == TagItems(tags)[..|list|]
    {
      list := list + [Dict(TagToDict(tags[|list|]))];
    }
  }

  // --- What FromDict reads -------------------------------------------------------------------------------

  /** The string items of a list; other items are skipped. */
  function StringsOf(items: seq<Value>): seq<string> {
    if items == [] then []
    else
      var last := items[|items| - 1];
      StringsOf(items[..|items| - 1]) + if last.Text? then [last.text] else []
  }

  /** The tags of a list of dictionaries; other items are skipped. */
  function TagsOf(items: seq<Value>): seq<ProfileTag> {
    if items == [] then []
    else
      var last := items[|items| - 1];
      TagsOf(items[..|items| - 1]) + if last.Dict? then [TagFromDict(last.dict)] else []
  }

  function DecodedIdentity(d: DictValue): Identity {
    Identity(
      Or(FindString(d, KeyId), ""), Or(FindString(d, KeyName), ""),
      (match FindString(d, KeyType) case Some(s) => StringToType(s) case None => Normal),
      (match FindInt(d, KeyColor) case Some(i) => ToUint32(i) case None => DEFAULT_COLOR),
      Or(FindString(d, KeyDefaultTabTitle), ""), Or(FindString(d, KeyNotes), ""))
  }

  function DecodedScreen(d: DictValue): Screen {
    Screen(
      Or(FindInt(d, KeyFingerprintSeed), 0), Or(FindString(d, KeyUserAgent), ""),
      Or(FindInt(d, KeyScreenWidth), 1920), Or(FindInt(d, KeyScreenHeight), 1080))
  }

  function DecodedHardware(d: DictValue): Hardware {
    Hardware(
      Or(FindString(d, KeyGpuVendor), ""), Or(FindString(d, KeyGpuRenderer), ""),
      Or(FindInt(d, KeyHardwareConcurrency), 0), Or(FindString(d, KeyPlatform), ""),
      Or(FindString(d, KeyColorScheme), ""))
  }

  function DecodedNetwork(d: DictValue): Network {
    Network(Or(FindString(d, KeyProxy), ""), Or(FindString(d, KeyTimezone), ""), Or(FindString(d, KeyLocale), ""),
            Or(FindBool(d, KeyGeoip), false))
  }

  function DecodedBehavior(d: DictValue): Behavior {
    Behavior(
      Or(FindBool(d, KeyHumanize), false), Or(FindString(d, KeyHumanPreset), ""),
      Or(FindBool(d, KeyHeadless), false), Or(FindBool(d, KeyClipboardSync), true),
      Or(FindBool(d, KeyAutoLaunch), false), StringsOf(Or(FindList(d, KeyLaunchArgs), [])))
  }

  function DecodedMetadata(d: DictValue): Metadata {
    Metadata(TimeFromString(Or(FindString(d, KeyCreatedAt), "")), TimeFromString(Or(FindString(d, KeyUpdatedAt), "")))
  }

  /** `FromDict` as a function: each field that is missing or of another kind keeps its default. */
  function Decoded(d: DictValue): Workspace {
    Workspace(DecodedIdentity(d), DecodedScreen(d), DecodedHardware(d), DecodedNetwork(d), DecodedBehavior(d),
              TagsOf(Or(FindList(d, KeyTags), [])), NO_RUNTIME, DecodedMetadata(d))
  }

  method ReadIdentity(dict: DictValue) returns (identity: Identity)
    ensures identity == DecodedIdentity(dict)
  {
    identity := Identity("", "", Normal, DEFAULT_COLOR, "", "");
    var id := FindString(dict, KeyId);
    if id.Some? {
      identity := identity.(id := id.value);
    }
    var name := FindString(dict, KeyName);
    if name.Some? {
      identity := identity.(name := name.value);
    }
    var kind := FindString(dict, KeyType);
    if kind.Some? {
      identity := identity.(kind := StringToType(kind.value));
    }
    var color := FindInt(dict, KeyColor);
    if color.Some? {
      identity := identity.(color := ToUint32(color.value));
    }
    var defaultTabTitle := FindString(dict, KeyDefaultTabTitle);
    if defaultTabTitle.Some? {
      identity := identity.(defaultTabTitle := defaultTabTitle.value);
    }
    var notes := FindString(dict, KeyNotes);
    if notes.Some? {
      identity := identity.(notes := notes.value);
    }
  }

  method ReadScreen(dict: DictValue) returns (screen: Screen)
    ensures screen == DecodedScreen(dict)
  {
    screen := Screen(0, "", 1920, 1080);
    var fingerprintSeed := FindInt(dict, KeyFingerprintSeed);
    if fingerprintSeed.Some? {
      screen := screen.(fingerprintSeed := fingerprintSeed.value);
    }
    var userAgent := FindString(dict, KeyUserAgent);
    if userAgent.Some? {
      screen := screen.(userAgent := userAgent.value);
    }
    var screenWidth := FindInt(dict, KeyScreenWidth);
    if screenWidth.Some? {
      screen := screen.(screenWidth := screenWidth.value);
    }
    var screenHeight := FindInt(dict, KeyScreenHeight);
    if screenHeight.Some? {
      screen := screen.(screenHeight := screenHeight.value);
    }
  }

  method ReadHardware(dict: DictValue) returns (hardware: Hardware)
    ensures hardware == DecodedHardware(dict)
  {
    hardware := Hardware("", "", 0, "", "");
    var gpuVendor := FindString(dict, KeyGpuVendor);
    if gpuVendor.Some? {
      hardware := hardware.(gpuVendor := gpuVendor.value);
    }
    var gpuRenderer := FindString(dict, KeyGpuRenderer);
    if gpuRenderer.Some? {
      hardware := hardware.(gpuRenderer := gpuRenderer.value);
    }
    var hardwareConcurrency := FindInt(dict, KeyHardwareConcurrency);
    if hardwareConcurrency.Some? {
      hardware := hardware.(hardwareConcurrency := hardwareConcurrency.value);
    }
    var platform := FindString(dict, KeyPlatform);
    if platform.Some? {
      hardware := hardware.(platform := platform.value);
    }
    var colorScheme := FindString(dict, KeyColorScheme);
    if colorScheme.Some? {
      hardware := hardware.(colorScheme := colorScheme.value);
    }
  }

  method ReadNetwork(dict: DictValue) returns (network: Network)
    ensures network == DecodedNetwork(dict)
  {
    network := Network("", "", "", false);
    var proxy := FindString(dict, KeyProxy);
    if proxy.Some? {
      network := network.(proxy := proxy.value);
    }
    var timezone := FindString(dict, KeyTimezone);
    if timezone.Some? {
      network := network.(timezone := timezone.value);
    }
    var locale := FindString(dict, KeyLocale);
    if locale.Some? {
      network := network.(locale := locale.value);
    }
    var geoip := FindBool(dict, KeyGeoip);
    if geoip.Some? {
      network := network.(geoip := geoip.value);
    }
  }

  method ReadLaunchArgs(dict: DictValue) returns (launchArgs: seq<string>)
    ensures launchArgs == StringsOf(Or(FindList(dict, KeyLaunchArgs), []))
  {
    launchArgs := [];
    var found := FindList(dict, KeyLaunchArgs);
    if found.Some? {
      var list := found.value;
      var i := 0;
      while i < |list|
        invariant 0 <= i <= |list| && launchArgs == StringsOf(list[..i])
      {
        assert list[..i + 1][..i] == list[..i];
        if list[i].Text? {
          launchArgs := launchArgs + [list[i].text];
        }
        i := i + 1;
      }
      assert list[..|list|] == list;
    }
  }

  method ReadBehavior(dict: DictValue) returns (behavior: Behavior)
    ensures behavior == DecodedBehavior(dict)
  {
    behavior := Behavior(false, "", false, true, false, []);
    var humanize := FindBool(dict, KeyHumanize);
    if humanize.Some? {
      behavior := behavior.(humanize := humanize.value);
    }
    var humanPreset := FindString(dict, KeyHumanPreset);
    if humanPreset.Some? {
      behavior := behavior.(humanPreset := humanPreset.value);
    }
    var headless := FindBool(dict, KeyHeadless);
    if headless.Some? {
      behavior := behavior.(headless := headless.value);
    }
    var clipboardSync := FindBool(dict, KeyClipboardSync);
    if clipboardSync.Some? {
      behavior := behavior.(clipboardSync := clipboardSync.value);
    }
    var autoLaunch := FindBool(dict, KeyAutoLaunch);
    if autoLaunch.Some? {
      behavior := behavior.(autoLaunch := autoLaunch.value);
    }
    var launchArgs := ReadLaunchArgs(dict);
    behavior := behavior.(launchArgs := launchArgs);
  }

  method ReadMetadata(dict: DictValue) returns (metadata: Metadata)
    ensures metadata == DecodedMetadata(dict)
  {
    metadata := Metadata(0, 0);
    var createdAt := FindString(dict, KeyCreatedAt);
    if createdAt.Some? {
      metadata := metadata.(createdAt := TimeFromString(createdAt.value));
    }
    var updatedAt := FindString(dict, KeyUpdatedAt);
    if updatedAt.Some? {
      metadata := metadata.(updatedAt := TimeFromString(updatedAt.value));
    }
  }

  method ReadTags(dict: DictValue) returns (tags: seq<ProfileTag>)
    ensures tags == TagsOf(Or(FindList(dict, KeyTags), []))
  {
    tags := [];
    var found := FindList(dict, KeyTags);
    if found.Some? {
      var list := found.value;
      var i := 0;
      while i < |list|
        invariant 0 <= i <= |list| && tags == TagsOf(list[..i])
      {
        assert list[..i + 1][..i] == list[..i];
        if list[i].Dict? {
          tags := tags + [TagFromDict(list[i].dict)];
        }
        i := i + 1;
      }
      assert list[..|list|] == list;
    }
  }

  /** What a dictionary gives for each field: the value under the field's own key, and for a key that is missing or of
      another kind the default of a new workspace. */
  lemma EveryKeyRead(d: DictValue)
    ensures var i := Decoded(d).identity;
            && i.id == Or(FindString(d, KeyId), "") && i.name == Or(FindString(d, KeyName), "")
            && (i.kind == Fingerprint <==> FindString(d, KeyType) == Some("fingerprint"))
            && (FindInt(d, KeyColor).None? ==> i.color == 0xFF6366F1)
            && (FindInt(d, KeyColor).Some? ==> i.color == FindInt(d, KeyColor).value % 0x1_0000_0000)
            && i.defaultTabTitle == Or(FindString(d, KeyDefaultTabTitle), "")
            && i.notes == Or(FindString(d, KeyNotes), "")
    ensures var s := Decoded(d).screen;
            && s.fingerprintSeed == Or(FindInt(d, KeyFingerprintSeed), 0)
            && s.userAgent == Or(FindString(d, KeyUserAgent), "")
            && s.screenWidth == Or(FindInt(d, KeyScreenWidth), 1920)
            && s.screenHeight == Or(FindInt(d, KeyScreenHeight), 1080)
    ensures var h := Decoded(d).hardware;
            && h.gpuVendor == Or(FindString(d, KeyGpuVendor), "")
            && h.gpuRenderer == Or(FindString(d, KeyGpuRenderer), "")
            && h.hardwareConcurrency == Or(FindInt(d, KeyHardwareConcurrency), 0)
            && h.platform == Or(FindString(d, KeyPlatform), "")
            && h.colorScheme == Or(FindString(d, KeyColorScheme), "")
    ensures var n := Decoded(d).network;
            && n.proxy == Or(FindString(d, KeyProxy), "") && n.timezone == Or(FindString(d, KeyTimezone), "")
            && n.locale == Or(FindString(d, KeyLocale), "") && n.geoip == Or(FindBool(d, KeyGeoip), false)
    ensures var b := Decoded(d).behavior;
            && b.humanize == Or(FindBool(d, KeyHumanize), false)
            && b.humanPreset == Or(FindString(d, KeyHumanPreset), "")
            && b.headless == Or(FindBool(d, KeyHeadless), false)
            && b.clipboardSync == Or(FindBool(d, KeyClipboardSync), true)
            && b.autoLaunch == Or(FindBool(d, KeyAutoLaunch), false)
            && (FindList(d, KeyLaunchArgs).None? ==> b.launchArgs == [])
    ensures FindList(d, KeyTags).None? ==> Decoded(d).tags == []
    ensures Decoded(d).runtime == Runtime("", "", "")
    ensures FindString(d, KeyCreatedAt).None? ==> Decoded(d).metadata.createdAt == 0
    ensures FindString(d, KeyUpdatedAt).None? ==> Decoded(d).metadata.updatedAt == 0
  {
  }

  /** `Workspace::FromDict`, group by group: each field found is assigned over its default. */
  method FromDict(dict: DictValue) returns (ws: Workspace)
    ensures ws == Decoded(dict)
  {
    var identity := ReadIdentity(dict);
    var screen := ReadScreen(dict);
    var hardware := ReadHardware(dict);
    var network := ReadNetwork(dict);
    var behavior := ReadBehavior(dict);
    var tags := ReadTags(dict);
    var metadata := ReadMetadata(dict);
    ws := Workspace(identity, screen, hardware, network, behavior, tags, NO_RUNTIME, metadata);
  }

  // --- Round trip ----------------------------------------------------------------------------------------

  lemma {:induction false} StringsRoundTrip(items: seq<string>)
    ensures StringsOf(TextItems(items)) == items
  {
    if items != [] {
      var n := |items| - 1;
      StringsRoundTrip(items[..n]);
      assert TextItems(items)[..n] == TextItems(items[..n]);
    }
  }

  lemma {:induction false} TagsRoundTrip(tags: seq<ProfileTag>)
    ensures TagsOf(TagItems(tags)) == tags
  {
    if tags != [] {
      var n := |tags| - 1;
      TagsRoundTrip(tags[..n]);
      assert TagItems(tags)[..n] == TagItems(tags[..n]);
    }
  }

  lemma FieldHolds(d: DictValue, ws: Workspace, k: Key)
    requires IsDictOf(d, ws)
    ensures Holds(d, k, Field(ws, k))
  {
  }

  lemma IdentityRoundTrip(d: DictValue, ws: Workspace)
    requires IsDictOf(d, ws)
    ensures DecodedIdentity(d) == ws.identity
  {
    hide IsDictOf;
    FieldHolds(d, ws, KeyId);
    FieldHolds(d, ws, KeyName);
    FieldHolds(d, ws, KeyType);
    FieldHolds(d, ws, KeyColor);
    FieldHolds(d, ws, KeyDefaultTabTitle);
    FieldHolds(d, ws, KeyNotes);
  }

  lemma ScreenRoundTrip(d: DictValue, ws: Workspace)
    requires IsDictOf(d, ws)
    ensures DecodedScreen(d) == ws.screen
  {
    hide IsDictOf;
    FieldHolds(d, ws, KeyFingerprintSeed);
    FieldHolds(d, ws, KeyUserAgent);
    FieldHolds(d, ws, KeyScreenWidth);
    FieldHolds(d, ws, KeyScreenHeight);
  }

  lemma HardwareRoundTrip(d: DictValue, ws: Workspace)
    requires IsDictOf(d, ws)
    ensures DecodedHardware(d) == ws.hardware
  {
    hide IsDictOf;
    FieldHolds(d, ws, KeyGpuVendor);
    FieldHolds(d, ws, KeyGpuRenderer);
    FieldHolds(d, ws, KeyHardwareConcurrency);
    FieldHolds(d, ws, KeyPlatform);
    FieldHolds(d, ws, KeyColorScheme);
  }

  lemma NetworkRoundTrip(d: DictValue, ws: Workspace)
    requires IsDictOf(d, ws)
    ensures DecodedNetwork(d) == ws.network
  {
    hide IsDictOf;
    FieldHolds(d, ws, KeyProxy);
    FieldHolds(d, ws, KeyTimezone);
    FieldHolds(d, ws, KeyLocale);
    FieldHolds(d, ws, KeyGeoip);
  }

  lemma BehaviorRoundTrip(d: DictValue, ws: Workspace)
    requires IsDictOf(d, ws)
    ensures DecodedBehavior(d) == ws.behavior
  {
    hide IsDictOf, StringsOf, TextItems;
    FieldHolds(d, ws, KeyHumanize);
    FieldHolds(d, ws, KeyHumanPreset);
    FieldHolds(d, ws, KeyHeadless);
    FieldHolds(d, ws, KeyClipboardSync);
    FieldHolds(d, ws, KeyAutoLaunch);
    FieldHolds(d, ws, KeyLaunchArgs);
    StringsRoundTrip(ws.behavior.launchArgs);
  }

  lemma TagListRoundTrip(d: DictValue, ws: Workspace)
    requires IsDictOf(d, ws)
    ensures TagsOf(Or(FindList(d, KeyTags), [])) == ws.tags
  {
    hide IsDictOf, TagsOf, TagItems;
    FieldHolds(d, ws, KeyTags);
    TagsRoundTrip(ws.tags);
  }

  lemma MetadataRoundTrip(d: DictValue, ws: Workspace)
    requires IsDictOf(d, ws)
    ensures DecodedMetadata(d) == Persisted(ws).metadata
  {
    hide IsDictOf, TimeToString, TimeFromString;
    FieldHolds(d, ws, KeyCreatedAt);
    FieldHolds(d, ws, KeyUpdatedAt);
    TimeRoundTrip(ws.metadata.createdAt);
    TimeRoundTrip(ws.metadata.updatedAt);
  }

  lemma EveryFieldRestored(d: DictValue, ws: Workspace)
    requires IsDictOf(d, ws)
    ensures Decoded(d) == Persisted(ws)
  {
    hide IsDictOf, DecodedIdentity, DecodedScreen, DecodedHardware, DecodedNetwork, DecodedBehavior, DecodedMetadata;
    IdentityRoundTrip(d, ws);
    ScreenRoundTrip(d, ws);
    HardwareRoundTrip(d, ws);
    NetworkRoundTrip(d, ws);
    BehaviorRoundTrip(d, ws);
    TagListRoundTrip(d, ws);
    MetadataRoundTrip(d, ws);
  }

  /** Decoding what `ToDict` stored restores every field and every default that was left out; only the runtime
      fields and the sub-millisecond part of the times are lost. */
  lemma DictRoundTrip(ws: Workspace)
    ensures Decoded(DictOf(ws)) == Persisted(ws)
  {
    hide DictOf, Decoded, Persisted, IsDictOf;
    EveryFieldRestored(DictOf(ws), ws);
  }

  /** Workspaces that are stored alike agree on everything that is persisted. */
  lemma StoredAlike(a: Workspace, b: Workspace)
    ensures DictOf(a) == DictOf(b) ==> Persisted(a) == Persisted(b)
  {
    hide DictOf, Decoded, Persisted;
    DictRoundTrip(a);
    DictRoundTrip(b);
  }
}
