/** The configuration file by its field names and limits: for every text whether it
    loads, and as what. */
module ConfigShape {
  import opened Bytes
  import opened Wrappers
  import opened Json
  import opened Config
  import Utf8
  import JsonGrammar

  predicate Has(value: Json, name: string, member: Json) {
    value.Object? && name in value.members && value.members[name] == member
  }

  predicate Names(name: string, kind: ActionKind) {
    match kind
    case Disabled => name == "disabled"
    case MouseAction => name == "mouse"
    case KeyChord => name == "keys"
    case Eraser => name == "eraser"
  }

  predicate NamesButton(name: string, button: MouseButton) {
    match button
    case Left => name == "left"
    case Middle => name == "middle"
    case Right => name == "right"
    case X1 => name == "x1"
    case X2 => name == "x2"
  }

  /** The characters of a text in UTF-16: two units for one of four bytes, else one. */
  function Utf16(s: seq<u8>): nat
    decreases |s|
  {
    if s == [] then 0
    else if s[0] < 0x80 then 1 + Utf16(s[1..])
    else if s[0] < 0xE0 then 1 + Utf16(if |s| >= 2 then s[2..] else [])
    else if s[0] < 0xF0 then 1 + Utf16(if |s| >= 3 then s[3..] else [])
    else 2 + Utf16(if |s| >= 4 then s[4..] else [])
  }

  ghost predicate TextIs(value: Json, name: string, text: Wide, least: nat, most: nat) {
    Has(value, name, String(text)) && least <= Utf16(Octets(text)) <= most
  }

  function Numbers(keys: seq<u16>): (items: seq<Json>)
    ensures |items| == |keys|
  {
    seq(|keys|, i requires 0 <= i < |keys| => Number(keys[i]))
  }

  ghost predicate ActionIs(value: Json, a: Action) {
    && (exists name: string :: Names(name, a.kind) && Has(value, "kind", String(name)))
    && (exists name: string :: NamesButton(name, a.mouseButton) && Has(value, "mouseButton", String(name)))
    && |a.virtualKeys| <= 8
    && Has(value, "keys", Array(Numbers(a.virtualKeys)))
  }

  ghost predicate ProfileIs(value: Json, p: Profile) {
    && TextIs(value, "executable", p.executable, 1, 260)
    && exists buttons: seq<Json> ::
         && Has(value, "buttons", Array(buttons)) && |buttons| == 3
         && forall i | 0 <= i < 3 :: ActionIs(buttons[i], p.buttons[i])
  }

  ghost predicate ProfilesAre(values: seq<Json>, profiles: seq<Profile>) {
    |values| == |profiles| && forall i | 0 <= i < |values| :: ProfileIs(values[i], profiles[i])
  }

  ghost predicate ConfigIs(root: Json, c: AppConfig) {
    && Has(root, "schemaVersion", Number(1)) && c.schemaVersion == 1
    && TextIs(root, "selectedMonitor", c.selectedMonitor, 0, 128)
    && Has(root, "bitrateMbps", Number(c.bitrate)) && 20 <= c.bitrate <= 120
    && Has(root, "palmGuard", Bool(c.palmGuard))
    && |c.profiles| <= 32
    && exists profiles: seq<Json> :: Has(root, "profiles", Array(profiles)) && ProfilesAre(profiles, c.profiles)
  }

  // The length of a text in UTF-16.

  lemma {:induction false} UnitsAre(s: seq<u8>)
    requires Utf8.WellFormed(s)
    ensures Units(s) == Utf16(s)
  {
    if s != [] {
      var n :| 1 <= n <= |s| && Utf8.Character(s[..n]) && Utf8.WellFormed(s[n..]);
      UnitsAre(s[n..]);
      CharacterUnits(s, n);
    }
  }

  lemma CharacterUnits(s: seq<u8>, n: nat)
    requires 1 <= n <= |s| && Utf8.Character(s[..n])
    ensures Units(s) == (if n == 4 then 2 else 1) + Units(s[n..])
    ensures Utf16(s) == (if n == 4 then 2 else 1) + Utf16(s[n..])
  {
    assert forall i | 0 <= i < n :: s[..n][i] == s[i];
    if n >= 2 {
      assert s[1..][1..] == s[2..];
    }
    if n >= 3 {
      assert s[2..][1..] == s[3..];
    }
    if n == 4 {
      assert s[3..][1..] == s[4..];
    }
  }

  // The reader.

  lemma FieldReads(value: Json, name: string)
    ensures forall n: nat :: RequireNumber(value, name) == Some(n) <==> Has(value, name, Number(n))
    ensures forall b :: RequireBool(value, name) == Some(b) <==> Has(value, name, Bool(b))
    ensures forall s :: RequireString(value, name) == Some(s) <==> Has(value, name, String(s))
    ensures forall items :: RequireArray(value, name) == Some(items) <==> Has(value, name, Array(items))
  {
  }

  lemma NamesRead(name: string, kind: ActionKind, button: MouseButton)
    ensures ParseActionKind(name) == Some(kind) <==> Names(name, kind)
    ensures ParseMouseButton(name) == Some(button) <==> NamesButton(name, button)
  {
  }

  lemma GatherIs<T>(read: Json -> Option<T>, items: seq<Json>, gathered: seq<T>)
    ensures Gather(read, items) == Some(gathered)
       <==> |items| == |gathered| && forall i | 0 <= i < |items| :: read(items[i]) == Some(gathered[i])
  {
    if |items| == |gathered| && forall i | 0 <= i < |items| :: read(items[i]) == Some(gathered[i]) {
      assert Gather(read, items).Some? && Gather(read, items).value == gathered;
    }
  }

  lemma KeysRead(items: seq<Json>, keys: seq<u16>)
    ensures Gather(KeyOf, items) == Some(keys) <==> items == Numbers(keys)
  {
    GatherIs(KeyOf, items, keys);
    if Gather(KeyOf, items) == Some(keys) {
      assert forall i | 0 <= i < |items| :: items[i] == Number(keys[i]);
    }
  }

  lemma ActionReads(value: Json, a: Action)
    ensures ActionOf(value) == Some(a) <==> ActionIs(value, a)
  {
    hide Gather, ParseActionKind, ParseMouseButton, Names, NamesButton, Numbers;
    FieldReads(value, KIND);
    FieldReads(value, MOUSE);
    FieldReads(value, KEYS);
    hide Has, RequireString, RequireArray;
    forall name: string ensures (ParseActionKind(name) == Some(a.kind) <==> Names(name, a.kind))
                        ensures ParseMouseButton(name) == Some(a.mouseButton) <==> NamesButton(name, a.mouseButton)
    {
      NamesRead(name, a.kind, a.mouseButton);
    }
    forall items: seq<Json> ensures Gather(KeyOf, items) == Some(a.virtualKeys) <==> items == Numbers(a.virtualKeys) {
      KeysRead(items, a.virtualKeys);
    }
  }

  lemma TextReads(value: Json, name: string, text: Wide, least: nat, most: nat)
    ensures TextIs(value, name, text, least, most)
       <==> RequireString(value, name) == Some(text) && least <= WideLength(text) <= most
  {
    UnitsAre(Octets(text));
    FieldReads(value, name);
  }

  lemma ProfileReads(value: Json, p: Profile)
    ensures ProfileOf(value) == Some(p) && ValidProfile(p) <==> ProfileIs(value, p)
  {
    hide ActionOf, ActionIs, Gather, Has, RequireString, RequireArray, WideLength, IsUtf8;
    FieldReads(value, BUTTONS);
    TextReads(value, EXECUTABLE, p.executable, 1, 260);
    forall buttons: seq<Json>
      ensures Gather(ActionOf, buttons) == Some(p.buttons)
         <==> |buttons| == 3 && forall i | 0 <= i < 3 :: ActionIs(buttons[i], p.buttons[i])
    {
      GatherIs(ActionOf, buttons, p.buttons);
      forall i | 0 <= i < |buttons| && i < 3
        ensures ActionOf(buttons[i]) == Some(p.buttons[i]) <==> ActionIs(buttons[i], p.buttons[i])
      {
        ActionReads(buttons[i], p.buttons[i]);
      }
    }
    forall i, v | 0 <= i < 3 && ActionIs(v, p.buttons[i]) ensures |p.buttons[i].virtualKeys| <= 8 {
      ShortKeys(v, p.buttons[i]);
    }
  }

  lemma ShortKeys(value: Json, a: Action)
    requires ActionIs(value, a)
    ensures |a.virtualKeys| <= 8
  {
  }

  lemma ValidateIs(c: AppConfig)
    ensures Validate(c) <==>
              && c.schemaVersion == 1 && 20 <= c.bitrate <= 120 && WideLength(c.selectedMonitor) <= 128
              && |c.profiles| <= 32 && forall i | 0 <= i < |c.profiles| :: ValidProfile(c.profiles[i])
  {
    hide ValidProfile, WideLength;
  }

  lemma ConfigReads(root: Json, c: AppConfig)
    ensures ConfigOf(root) == Some(c) <==> ConfigIs(root, c)
  {
    hide ProfileOf, ProfilesAre, ValidProfile, Gather, Has, WideLength, IsUtf8, TextIs, Validate;
    ValidateIs(c);
    hide RequireString, RequireArray, RequireNumber, RequireBool;
    FieldReads(root, SCHEMA);
    FieldReads(root, BITRATE);
    FieldReads(root, PALM);
    FieldReads(root, PROFILES);
    TextReads(root, MONITOR, c.selectedMonitor, 0, 128);
    forall profiles: seq<Json>
      ensures Gather(ProfileOf, profiles) == Some(c.profiles)
              && (forall i | 0 <= i < |c.profiles| :: ValidProfile(c.profiles[i]))
         <==> ProfilesAre(profiles, c.profiles)
      ensures Gather(ProfileOf, profiles) == Some(c.profiles) ==> |profiles| == |c.profiles|
    {
      ProfilesRead(profiles, c.profiles);
    }
  }

  lemma ProfilesRead(values: seq<Json>, profiles: seq<Profile>)
    ensures Gather(ProfileOf, values) == Some(profiles) && (forall i | 0 <= i < |profiles| :: ValidProfile(profiles[i]))
       <==> ProfilesAre(values, profiles)
    ensures Gather(ProfileOf, values) == Some(profiles) || ProfilesAre(values, profiles) ==> |values| == |profiles|
  {
    hide ProfileOf, ProfileIs, ValidProfile, Gather;
    GatherIs(ProfileOf, values, profiles);
    forall i | 0 <= i < |values| && i < |profiles|
      ensures ProfileOf(values[i]) == Some(profiles[i]) && ValidProfile(profiles[i])
         <==> ProfileIs(values[i], profiles[i])
    {
      ProfileReads(values[i], profiles[i]);
    }
  }

  /** For every text: it loads as this configuration exactly if it has at most 256 KiB
      and is the text of a tree whose fields are those of the configuration. */
  lemma LoadsExactly(text: string, c: AppConfig)
    ensures Loaded(text) == Some(c)
       <==> |text| <= 0x4_0000
            && exists node, end :: JsonGrammar.TextOf(text, node, end) && ConfigIs(JsonGrammar.NodeValue(node), c)
  {
    hide PDocument, ConfigOf, ConfigIs, JsonGrammar.TextOf, JsonGrammar.NodeValue;
    if |text| <= 0x4_0000 {
      if PDocument(text).Some? {
        JsonGrammar.AcceptsExactly(text, PDocument(text).value);
        ConfigReads(PDocument(text).value, c);
      }
      forall node, end | JsonGrammar.TextOf(text, node, end)
        ensures PDocument(text) == Some(JsonGrammar.NodeValue(node))
      {
        JsonGrammar.AcceptsExactly(text, JsonGrammar.NodeValue(node));
      }
    }
  }
}
