/** The persisted configuration: what is legal, how it is written, and how it is read back. */
module Config {
  import opened Bytes
  import opened Wrappers
  import opened Json
  import opened PrintedJson
  import Utf8

  // Strings.  The program keeps UTF-16; here a string is its UTF-8 form.

  predicate IsUtf8(s: string) {
    (forall i | 0 <= i < |s| :: s[i] < 256 as char) && Utf8.WellFormed(Octets(s))
  }

  function Octets(s: string): (r: seq<u8>)
    requires forall i | 0 <= i < |s| :: s[i] < 256 as char
    ensures |r| == |s|
  {
    seq(|s|, i requires 0 <= i < |s| => s[i] as int)
  }

  type Wide = s: string | IsUtf8(s)

  /** How many UTF-16 units the string has: a surrogate pair for a character of
      four bytes, one unit for every other. */
  function Units(s: seq<u8>): nat {
    if s == [] then 0
    else (if Utf8.Tail(s[0]) then 0 else if s[0] >= 0xF0 then 2 else 1) + Units(s[1..])
  }

  function WideLength(s: Wide): nat {
    Units(Octets(s))
  }

  // The configuration.

  datatype ActionKind = Disabled | MouseAction | KeyChord | Eraser

  datatype MouseButton = Left | Middle | Right | X1 | X2

  datatype Action = Action(kind: ActionKind, mouseButton: MouseButton, virtualKeys: seq<u16>)

  const NO_ACTION := Action(Disabled, Middle, [])

  type Buttons = b: seq<Action> | |b| == 3 witness [NO_ACTION, NO_ACTION, NO_ACTION]

  datatype Profile = Profile(executable: Wide, buttons: Buttons)

  datatype AppConfig = AppConfig(
    schemaVersion: u32, selectedMonitor: Wide, bitrate: u32, palmGuard: bool, profiles: seq<Profile>)

  const SCHEMA_VERSION: u32 := 1
  const MAX_PATH := 260
  const FILE_LIMIT := 256 * 1024

  predicate ValidProfile(profile: Profile) {
    && 1 <= WideLength(profile.executable) <= MAX_PATH
    && forall i | 0 <= i < 3 :: |profile.buttons[i].virtualKeys| <= 8
  }

  /** `ConfigStore::Validate`. */
  predicate Validate(c: AppConfig) {
    && c.schemaVersion == SCHEMA_VERSION && 20 <= c.bitrate <= 120
    && WideLength(c.selectedMonitor) <= 128 && |c.profiles| <= 32
    && forall i | 0 <= i < |c.profiles| :: ValidProfile(c.profiles[i])
  }

  /** All strings can be written in a way that reads back. */
  predicate Storable(c: AppConfig) {
    && WritableText(c.selectedMonitor)
    && forall i | 0 <= i < |c.profiles| :: WritableText(c.profiles[i].executable)
  }

  // Names.

  function ActionKindName(kind: ActionKind): string {
    match kind
    case Disabled => "disabled"
    case MouseAction => "mouse"
    case KeyChord => "keys"
    case Eraser => "eraser"
  }

  function MouseButtonName(button: MouseButton): string {
    match button
    case Left => "left"
    case Middle => "middle"
    case Right => "right"
    case X1 => "x1"
    case X2 => "x2"
  }

  function ParseActionKind(name: string): Option<ActionKind> {
    if name == "disabled" then Some(Disabled)
    else if name == "mouse" then Some(MouseAction)
    else if name == "keys" then Some(KeyChord)
    else if name == "eraser" then Some(Eraser)
    else None
  }

  function ParseMouseButton(name: string): Option<MouseButton> {
    if name == "left" then Some(Left)
    else if name == "middle" then Some(Middle)
    else if name == "right" then Some(Right)
    else if name == "x1" then Some(X1)
    else if name == "x2" then Some(X2)
    else None
  }

  lemma NamesReadBack(kind: ActionKind, button: MouseButton)
    ensures ParseActionKind(ActionKindName(kind)) == Some(kind)
    ensures ParseMouseButton(MouseButtonName(button)) == Some(button)
  {
  }

  lemma NamesArePlain(kind: ActionKind, button: MouseButton)
    ensures PlainText(ActionKindName(kind)) && |ActionKindName(kind)| <= 8
    ensures PlainText(MouseButtonName(button)) && |MouseButtonName(button)| <= 6
  {
  }

  const SCHEMA := "schemaVersion"
  const MONITOR := "selectedMonitor"
  const BITRATE := "bitrateMbps"
  const PALM := "palmGuard"
  const PROFILES := "profiles"
  const EXECUTABLE := "executable"
  const BUTTONS := "buttons"
  const KIND := "kind"
  const MOUSE := "mouseButton"
  const KEYS := "keys"

  lemma FieldNames()
    ensures PlainText(SCHEMA) && PlainText(MONITOR) && PlainText(BITRATE) && PlainText(PALM) && PlainText(PROFILES)
    ensures PlainText(EXECUTABLE) && PlainText(BUTTONS) && PlainText(KIND) && PlainText(MOUSE) && PlainText(KEYS)
    ensures SCHEMA != MONITOR && SCHEMA != BITRATE && SCHEMA != PALM && SCHEMA != PROFILES
    ensures MONITOR != BITRATE && MONITOR != PALM && MONITOR != PROFILES
    ensures BITRATE != PALM && BITRATE != PROFILES && PALM != PROFILES
    ensures EXECUTABLE != BUTTONS && KIND != MOUSE && KIND != KEYS && MOUSE != KEYS
    ensures |SCHEMA| == 13 && |MONITOR| == 15 && |BITRATE| == 11 && |PALM| == 9 && |PROFILES| == 8
    ensures |EXECUTABLE| == 10 && |BUTTONS| == 7 && |KIND| == 4 && |MOUSE| == 11 && |KEYS| == 4
  {
    assert KIND[0] != KEYS[1] && KIND[0] == 'k' && KIND[1] != KEYS[1];
  }

  // Writing: the document, and the method that prints it piece by piece.

  const COMPACT := Spacing("", " ", "")
  const INDENTED := Spacing("\n  ", "\n  ", "\n")
  const NESTED := Spacing("\n    ", "\n    ", "\n  ")

  function KeyDocs(keys: seq<u16>): Docs {
    if keys == [] then NoItem else Item(Count(keys[0]), KeyDocs(keys[1..]))
  }

  function ActionDoc(a: Action): Doc {
    Record(Field(KIND, Text(ActionKindName(a.kind)),
           Field(MOUSE, Text(MouseButtonName(a.mouseButton)),
           Field(KEYS, List(KeyDocs(a.virtualKeys), COMPACT), NoField))), COMPACT)
  }

  function ActionDocs(actions: seq<Action>): Docs {
    if actions == [] then NoItem else Item(ActionDoc(actions[0]), ActionDocs(actions[1..]))
  }

  function ProfileDoc(p: Profile): Doc {
    Record(Field(EXECUTABLE, Text(p.executable),
           Field(BUTTONS, List(ActionDocs(p.buttons), COMPACT), NoField)), COMPACT)
  }

  function ProfileDocs(profiles: seq<Profile>): Docs {
    if profiles == [] then NoItem else Item(ProfileDoc(profiles[0]), ProfileDocs(profiles[1..]))
  }

  function ConfigDoc(c: AppConfig): Doc {
    Record(Field(SCHEMA, Count(c.schemaVersion),
           Field(MONITOR, Text(c.selectedMonitor),
           Field(BITRATE, Count(c.bitrate),
           Field(PALM, Flag(c.palmGuard),
           Field(PROFILES, List(ProfileDocs(c.profiles), NESTED), NoField))))), INDENTED)
  }

  function Serialized(c: AppConfig): string {
    Printed(ConfigDoc(c), "\n")
  }

  // Reading.

  function Member(value: Json, name: string): Option<Json> {
    if value.Object? && name in value.members then Some(value.members[name]) else None
  }

  function RequireNumber(value: Json, name: string): Option<nat> {
    var member := Member(value, name);
    if member.Some? && member.value.Number? then Some(member.value.n) else None
  }

  function RequireBool(value: Json, name: string): Option<bool> {
    var member := Member(value, name);
    if member.Some? && member.value.Bool? then Some(member.value.b) else None
  }

  function RequireString(value: Json, name: string): Option<string> {
    var member := Member(value, name);
    if member.Some? && member.value.String? then Some(member.value.s) else None
  }

  function RequireArray(value: Json, name: string): Option<seq<Json>> {
    var member := Member(value, name);
    if member.Some? && member.value.Array? then Some(member.value.items) else None
  }

  /** All items read one by one, or nothing when one of them cannot be. */
  function Gather<T>(read: Json -> Option<T>, items: seq<Json>): Option<seq<T>> {
    if forall i | 0 <= i < |items| :: read(items[i]).Some? then
      Some(seq(|items|, i requires 0 <= i < |items| && read(items[i]).Some? => read(items[i]).value))
    else None
  }

  function KeyOf(value: Json): Option<u16> {
    if value.Number? && value.n <= 0xFFFF then Some(value.n) else None
  }

  function ActionOf(value: Json): Option<Action> {
    var kind, mouse := RequireString(value, KIND), RequireString(value, MOUSE);
    if kind.None? || mouse.None? then None
    else
      var parsedKind, parsedMouse := ParseActionKind(kind.value), ParseMouseButton(mouse.value);
      var keys := RequireArray(value, KEYS);
      if parsedKind.None? || parsedMouse.None? || keys.None? || |keys.value| > 8 then None
      else
        var virtualKeys := Gather(KeyOf, keys.value);
        if virtualKeys.None? then None else Some(Action(parsedKind.value, parsedMouse.value, virtualKeys.value))
  }

  function ProfileOf(value: Json): Option<Profile> {
    var executable, buttons := RequireString(value, EXECUTABLE), RequireArray(value, BUTTONS);
    if executable.None? || buttons.None? || |buttons.value| != 3 || !IsUtf8(executable.value) then None
    else
      var actions := Gather(ActionOf, buttons.value);
      if actions.None? then None else Some(Profile(executable.value, actions.value))
  }

  function ConfigOf(root: Json): Option<AppConfig> {
    var schema, monitor := RequireNumber(root, SCHEMA), RequireString(root, MONITOR);
    var bitrate, palm := RequireNumber(root, BITRATE), RequireBool(root, PALM);
    var profiles := RequireArray(root, PROFILES);
    if schema.None? || monitor.None? || bitrate.None? || palm.None? then None
    else if schema.value != SCHEMA_VERSION || bitrate.value > 0xFFFF_FFFF || profiles.None? || |profiles.value| > 32
    then None
    else if !IsUtf8(monitor.value) then None
    else
      var parsed := Gather(ProfileOf, profiles.value);
      if parsed.None? then None
      else
        var config := AppConfig(SCHEMA_VERSION, monitor.value, bitrate.value, palm.value, parsed.value);
        if Validate(config) then Some(config) else None
  }

  /** `ConfigStore::Load` on the bytes of the file; None means the defaults. */
  function Loaded(text: string): Option<AppConfig> {
    if |text| > FILE_LIMIT then None
    else
      var root := PDocument(text);
      if root.None? then None else ConfigOf(root.value)
  }

  method ParseAction(value: Json) returns (action: Option<Action>)
    ensures action == ActionOf(value)
  {
    var kind, mouse := RequireString(value, KIND), RequireString(value, MOUSE);
    if kind.None? || mouse.None? {
      return None;
    }
    var parsedKind, parsedMouse := ParseActionKind(kind.value), ParseMouseButton(mouse.value);
    var keys := RequireArray(value, KEYS);
    if parsedKind.None? || parsedMouse.None? || keys.None? || |keys.value| > 8 {
      return None;
    }
    var virtualKeys: seq<u16> := [];
    for i := 0 to |keys.value|
      invariant |virtualKeys| == i
      invariant forall k | 0 <= k < i :: KeyOf(keys.value[k]) == Some(virtualKeys[k])
    {
      var key := keys.value[i];
      if !key.Number? || key.n > 0xFFFF {
        assert KeyOf(key).None?;
        return None;
      }
      virtualKeys := virtualKeys + [key.n];
    }
    assert Gather(KeyOf, keys.value).value == virtualKeys;
    return Some(Action(parsedKind.value, parsedMouse.value, virtualKeys));
  }

  method ParseProfile(value: Json) returns (profile: Option<Profile>)
    ensures profile == ProfileOf(value)
  {
    hide ActionOf;
    var executable, buttons := RequireString(value, EXECUTABLE), RequireArray(value, BUTTONS);
    if executable.None? || buttons.None? || |buttons.value| != 3 || !IsUtf8(executable.value) {
      return None;
    }
    var actions: seq<Action> := [];
    for i := 0 to 3
      invariant |actions| == i
      invariant forall k | 0 <= k < i :: ActionOf(buttons.value[k]) == Some(actions[k])
    {
      var action := ParseAction(buttons.value[i]);
      if action.None? {
        return None;
      }
      actions := actions + [action.value];
    }
    assert Gather(ActionOf, buttons.value).value == actions;
    return Some(Profile(executable.value, actions));
  }

  method ParseConfig(root: Json) returns (config: Option<AppConfig>)
    ensures config == ConfigOf(root)
  {
    hide ProfileOf, Validate;
    var schema, monitor := RequireNumber(root, SCHEMA), RequireString(root, MONITOR);
    var bitrate, palm := RequireNumber(root, BITRATE), RequireBool(root, PALM);
    if schema.None? || monitor.None? || bitrate.None? || palm.None? {
      return None;
    }
    var profiles := RequireArray(root, PROFILES);
    if schema.value != SCHEMA_VERSION || bitrate.value > 0xFFFF_FFFF || profiles.None? || |profiles.value| > 32 {
      return None;
    }
    if !IsUtf8(monitor.value) {
      return None;
    }
    var parsed: seq<Profile> := [];
    for i := 0 to |profiles.value|
      invariant |parsed| == i
      invariant forall k | 0 <= k < i :: ProfileOf(profiles.value[k]) == Some(parsed[k])
    {
      var profile := ParseProfile(profiles.value[i]);
      if profile.None? {
        return None;
      }
      parsed := parsed + [profile.value];
    }
    assert Gather(ProfileOf, profiles.value).value == parsed;
    var read := AppConfig(SCHEMA_VERSION, monitor.value, bitrate.value, palm.value, parsed);
    return if Validate(read) then Some(read) else None;
  }

  method Load(json: string) returns (config: Option<AppConfig>)
    ensures config == Loaded(json)
  {
    hide PDocument, ConfigOf;
    if |json| > FILE_LIMIT {
      return None;
    }
    var parser := new JsonParser(json);
    var root := parser.Parse();
    if root.None? {
      return None;
    }
    config := ParseConfig(root.value);
  }
}
