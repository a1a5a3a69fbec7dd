/** A saved configuration loads as itself, exactly when its strings can be
    written; and whatever loads can be saved and loaded again. */
module ConfigRoundTrip {
  import opened Bytes
  import opened Wrappers
  import opened Json
  import opened PrintedJson
  import opened Config
  import opened ConfigStore
  import Utf8

  // The printed document is proper, and writable exactly when the strings are.

  lemma NamesAreWritable(kind: ActionKind, button: MouseButton)
    ensures WritableText(ActionKindName(kind)) && WritableText(MouseButtonName(button))
  {
    NamesArePlain(kind, button);
    assert forall s: string | PlainText(s) :: WritableText(s);
  }

  lemma {:induction false} KeysProper(keys: seq<u16>)
    ensures ProperItems(KeyDocs(keys)) && WritableItems(KeyDocs(keys))
  {
    if keys != [] {
      KeysProper(keys[1..]);
    }
  }

  lemma CompactIsBlank()
    ensures BlankSpacing(COMPACT) && BlankSpacing(INDENTED) && BlankSpacing(NESTED) && Blank("\n")
  {
  }

  /** One step of the definitions, for values without parts and for lists. */
  lemma ScalarProper(n: nat, b: bool, s: string, items: Docs, spacing: Spacing)
    ensures Proper(Count(n)) <==> n < U64_LIMIT
    ensures Proper(Flag(b)) && Proper(Text(s))
    ensures WritableDoc(Count(n)) && WritableDoc(Flag(b)) && (WritableDoc(Text(s)) <==> WritableText(s))
    ensures Proper(List(items, spacing)) <==> BlankSpacing(spacing) && ProperItems(items)
    ensures WritableDoc(List(items, spacing)) <==> WritableItems(items)
  {
  }

  lemma FieldProper(f: Fields, used: set<string>)
    requires f.Field?
    ensures ProperFields(f, used)
       <==> PlainText(f.name) && f.name !in used && Proper(f.value) && ProperFields(f.tail, used + {f.name})
    ensures WritableFields(f) <==> WritableDoc(f.value) && WritableFields(f.tail)
    ensures ProperFields(NoField, used) && WritableFields(NoField)
  {
  }

  lemma RecordProper(f: Fields, spacing: Spacing)
    ensures Proper(Record(f, spacing)) <==> BlankSpacing(spacing) && ProperFields(f, {})
    ensures WritableDoc(Record(f, spacing)) <==> WritableFields(f)
  {
  }

  lemma ActionProper(a: Action)
    ensures Proper(ActionDoc(a)) && WritableDoc(ActionDoc(a))
  {
    hide PlainText, BlankSpacing, WritableText, KeyDocs, ActionKindName, MouseButtonName;
    hide Proper, ProperFields, WritableDoc, WritableFields;
    FieldNames();
    CompactIsBlank();
    KeysProper(a.virtualKeys);
    NamesAreWritable(a.kind, a.mouseButton);
    var keys := Field(KEYS, List(KeyDocs(a.virtualKeys), COMPACT), NoField);
    var mouse := Field(MOUSE, Text(MouseButtonName(a.mouseButton)), keys);
    var kind := Field(KIND, Text(ActionKindName(a.kind)), mouse);
    ScalarProper(0, true, MouseButtonName(a.mouseButton), KeyDocs(a.virtualKeys), COMPACT);
    ScalarProper(0, true, ActionKindName(a.kind), NoItem, COMPACT);
    FieldProper(keys, {} + {KIND} + {MOUSE});
    FieldProper(keys, {} + {KIND} + {MOUSE} + {KEYS});
    FieldProper(mouse, {} + {KIND});
    FieldProper(kind, {});
    RecordProper(kind, COMPACT);
  }

  lemma {:induction false} ActionsProper(actions: seq<Action>)
    ensures ProperItems(ActionDocs(actions)) && WritableItems(ActionDocs(actions))
  {
    hide ActionDoc;
    if actions != [] {
      ActionProper(actions[0]);
      ActionsProper(actions[1..]);
    }
  }

  lemma ProfileProper(p: Profile)
    ensures Proper(ProfileDoc(p)) && (WritableDoc(ProfileDoc(p)) <==> WritableText(p.executable))
  {
    hide PlainText, BlankSpacing, WritableText, ActionDocs, Proper, ProperFields, WritableDoc, WritableFields;
    FieldNames();
    CompactIsBlank();
    ActionsProper(p.buttons);
    var buttons := Field(BUTTONS, List(ActionDocs(p.buttons), COMPACT), NoField);
    var executable := Field(EXECUTABLE, Text(p.executable), buttons);
    ScalarProper(0, true, p.executable, ActionDocs(p.buttons), COMPACT);
    FieldProper(buttons, {} + {EXECUTABLE});
    FieldProper(buttons, {} + {EXECUTABLE} + {BUTTONS});
    FieldProper(executable, {});
    RecordProper(executable, COMPACT);
  }

  predicate StorableProfiles(profiles: seq<Profile>) {
    forall i | 0 <= i < |profiles| :: WritableText(profiles[i].executable)
  }

  lemma {:induction false} ProfilesProper(profiles: seq<Profile>)
    ensures ProperItems(ProfileDocs(profiles))
    ensures WritableItems(ProfileDocs(profiles)) <==> StorableProfiles(profiles)
  {
    hide ProfileDoc, WritableText;
    if profiles != [] {
      ProfileProper(profiles[0]);
      ProfilesProper(profiles[1..]);
      assert forall i | 0 < i < |profiles| :: profiles[1..][i - 1] == profiles[i];
      assert forall i | 0 <= i < |profiles[1..]| :: profiles[1..][i] == profiles[i + 1];
    }
  }

  lemma ConfigProper(c: AppConfig)
    ensures Proper(ConfigDoc(c)) && (WritableDoc(ConfigDoc(c)) <==> Storable(c))
  {
    hide PlainText, BlankSpacing, WritableText, ProfileDocs, Proper, ProperFields, WritableDoc, WritableFields;
    FieldNames();
    CompactIsBlank();
    ProfilesProper(c.profiles);
    var profiles := Field(PROFILES, List(ProfileDocs(c.profiles), NESTED), NoField);
    var palm := Field(PALM, Flag(c.palmGuard), profiles);
    var bitrate := Field(BITRATE, Count(c.bitrate), palm);
    var monitor := Field(MONITOR, Text(c.selectedMonitor), bitrate);
    var schema := Field(SCHEMA, Count(c.schemaVersion), monitor);
    ScalarProper(c.schemaVersion, c.palmGuard, c.selectedMonitor, ProfileDocs(c.profiles), NESTED);
    ScalarProper(c.bitrate, c.palmGuard, c.selectedMonitor, NoItem, NESTED);
    var two := {} + {SCHEMA} + {MONITOR};
    var four := two + {BITRATE} + {PALM};
    FieldProper(profiles, four);
    FieldProper(profiles, four + {PROFILES});
    FieldProper(palm, two + {BITRATE});
    FieldProper(bitrate, two);
    FieldProper(monitor, {} + {SCHEMA});
    FieldProper(schema, {});
    RecordProper(schema, INDENTED);
  }

  // What the document stands for is read as the configuration.

  /** The members of a record by name, for records of up to five fields. */
  lemma MembersOf(f: Fields, seen: map<string, Json>)
    requires f.Field?
    ensures Collected(f, seen) == Collected(f.tail, seen[f.name := Meaning(f.value)])
    ensures Collected(NoField, seen) == seen
  {
  }

  lemma {:induction false} KeysRead(keys: seq<u16>)
    ensures var items := Meanings(KeyDocs(keys));
            |items| == |keys| && forall i | 0 <= i < |keys| :: items[i] == Number(keys[i])
  {
    if keys != [] {
      KeysRead(keys[1..]);
    }
  }

  lemma ActionMeaning(a: Action)
    ensures Meaning(ActionDoc(a)) ==
      Object(map[KIND := String(ActionKindName(a.kind)), MOUSE := String(MouseButtonName(a.mouseButton)),
                 KEYS := Array(Meanings(KeyDocs(a.virtualKeys)))])
  {
    hide KeyDocs, Meanings, ActionKindName, MouseButtonName;
    var keys := Field(KEYS, List(KeyDocs(a.virtualKeys), COMPACT), NoField);
    var mouse := Field(MOUSE, Text(MouseButtonName(a.mouseButton)), keys);
    var kind := Field(KIND, Text(ActionKindName(a.kind)), mouse);
    var one: map<string, Json> := map[][KIND := Meaning(kind.value)];
    MembersOf(kind, map[]);
    MembersOf(mouse, one);
    MembersOf(keys, one[MOUSE := Meaning(mouse.value)]);
    MembersOf(keys, one[MOUSE := Meaning(mouse.value)][KEYS := Meaning(keys.value)]);
  }

  lemma ActionRead(a: Action)
    requires |a.virtualKeys| <= 8
    ensures ActionOf(Meaning(ActionDoc(a))) == Some(a)
  {
    hide ActionKindName, MouseButtonName, ParseActionKind, ParseMouseButton, KeyDocs, Meanings, ActionDoc, Meaning;
    ActionMeaning(a);
    FieldNames();
    NamesReadBack(a.kind, a.mouseButton);
    KeysRead(a.virtualKeys);
    var items := Meanings(KeyDocs(a.virtualKeys));
    assert forall i | 0 <= i < |items| :: KeyOf(items[i]) == Some(a.virtualKeys[i]);
    assert Gather(KeyOf, items).value == a.virtualKeys;
  }

  lemma {:induction false} ActionsRead(actions: seq<Action>)
    requires forall i | 0 <= i < |actions| :: |actions[i].virtualKeys| <= 8
    ensures var items := Meanings(ActionDocs(actions));
            |items| == |actions| && forall i | 0 <= i < |actions| :: ActionOf(items[i]) == Some(actions[i])
  {
    hide ActionOf, ActionDoc, Meaning;
    if actions != [] {
      ActionRead(actions[0]);
      ActionsRead(actions[1..]);
    }
  }

  lemma ProfileMeaning(p: Profile)
    ensures Meaning(ProfileDoc(p)) ==
      Object(map[EXECUTABLE := String(p.executable), BUTTONS := Array(Meanings(ActionDocs(p.buttons)))])
  {
    hide ActionDocs, Meanings;
    var buttons := Field(BUTTONS, List(ActionDocs(p.buttons), COMPACT), NoField);
    var executable := Field(EXECUTABLE, Text(p.executable), buttons);
    var one: map<string, Json> := map[][EXECUTABLE := Meaning(executable.value)];
    MembersOf(executable, map[]);
    MembersOf(buttons, one);
    MembersOf(buttons, one[BUTTONS := Meaning(buttons.value)]);
  }

  lemma ProfileRead(p: Profile)
    requires ValidProfile(p)
    ensures ProfileOf(Meaning(ProfileDoc(p))) == Some(p)
  {
    hide ActionOf, ActionDocs, Meanings, Meaning, ProfileDoc, IsUtf8, WideLength;
    ProfileMeaning(p);
    FieldNames();
    ActionsRead(p.buttons);
    assert Gather(ActionOf, Meanings(ActionDocs(p.buttons))).value == p.buttons;
  }

  lemma {:induction false} ProfilesRead(profiles: seq<Profile>)
    requires forall i | 0 <= i < |profiles| :: ValidProfile(profiles[i])
    ensures var items := Meanings(ProfileDocs(profiles));
            |items| == |profiles| && forall i | 0 <= i < |profiles| :: ProfileOf(items[i]) == Some(profiles[i])
  {
    hide ProfileOf, ProfileDoc, Meaning, ValidProfile;
    if profiles != [] {
      ProfileRead(profiles[0]);
      ProfilesRead(profiles[1..]);
    }
  }

  lemma ConfigMeaning(c: AppConfig)
    ensures Meaning(ConfigDoc(c)) ==
      Object(map[SCHEMA := Number(c.schemaVersion), MONITOR := String(c.selectedMonitor), BITRATE := Number(c.bitrate),
                 PALM := Bool(c.palmGuard), PROFILES := Array(Meanings(ProfileDocs(c.profiles)))])
  {
    hide ProfileDocs, Meanings;
    var profiles := Field(PROFILES, List(ProfileDocs(c.profiles), NESTED), NoField);
    var palm := Field(PALM, Flag(c.palmGuard), profiles);
    var bitrate := Field(BITRATE, Count(c.bitrate), palm);
    var monitor := Field(MONITOR, Text(c.selectedMonitor), bitrate);
    var schema := Field(SCHEMA, Count(c.schemaVersion), monitor);
    var one: map<string, Json> := map[][SCHEMA := Number(c.schemaVersion)];
    var two := one[MONITOR := String(c.selectedMonitor)];
    var four := two[BITRATE := Number(c.bitrate)][PALM := Bool(c.palmGuard)];
    MembersOf(schema, map[]);
    MembersOf(monitor, one);
    MembersOf(bitrate, two);
    MembersOf(palm, two[BITRATE := Number(c.bitrate)]);
    MembersOf(profiles, four);
    MembersOf(profiles, four[PROFILES := Meaning(profiles.value)]);
  }

  lemma ConfigRead(c: AppConfig)
    requires Validate(c)
    ensures ConfigOf(Meaning(ConfigDoc(c))) == Some(c)
  {
    hide ProfileOf, ProfileDocs, Meanings, Meaning, ConfigDoc, IsUtf8, WideLength, ValidProfile;
    ConfigMeaning(c);
    FieldNames();
    ProfilesRead(c.profiles);
    assert Gather(ProfileOf, Meanings(ProfileDocs(c.profiles))).value == c.profiles;
  }

  // The size of the file.

  lemma {:induction false} EscapedLength(s: string, rest: string)
    ensures |Escaped(s, rest)| <= 2 * |s| + |rest|
  {
    if s != "" {
      EscapedLength(s[1..], rest);
    }
  }

  lemma DigitsLength(n: nat)
    requires n < 100_000
    ensures |Digits(n)| <= 5 && (n < 1000 ==> |Digits(n)| <= 3)
  {
    assert |Digits(n / 1000)| <= 2;
    assert |Digits(n / 10)| <= 4 && (n < 1000 ==> |Digits(n / 10)| <= 2);
  }

  lemma {:induction false} KeysLength(keys: seq<u16>, rest: string)
    ensures |PrintedItems(KeyDocs(keys), COMPACT, rest)| <= 7 * |keys| + 1 + |rest|
    ensures |Printed(List(KeyDocs(keys), COMPACT), rest)| <= 7 * |keys| + 2 + |rest|
  {
    hide Digits;
    if keys != [] {
      KeysLength(keys[1..], rest);
      DigitsLength(keys[0]);
    }
  }

  lemma ActionLength(a: Action, rest: string)
    requires |a.virtualKeys| <= 8
    ensures |Printed(ActionDoc(a), rest)| <= 160 + |rest|
  {
    hide Printed, PrintedFields, ActionDoc, KeyDocs, ActionKindName, MouseButtonName;
    ActionText(a, rest);
    Closing(COMPACT, rest);
    NamesArePlain(a.kind, a.mouseButton);
    KeysLength(a.virtualKeys, PrintedFields(NoField, COMPACT, rest));
  }

  lemma {:induction false} ActionsLength(actions: seq<Action>, rest: string)
    requires forall i | 0 <= i < |actions| :: |actions[i].virtualKeys| <= 8
    ensures |PrintedItems(ActionDocs(actions), COMPACT, rest)| <= 162 * |actions| + 1 + |rest|
    ensures |Printed(List(ActionDocs(actions), COMPACT), rest)| <= 162 * |actions| + 2 + |rest|
  {
    hide ActionDoc;
    if actions != [] {
      ActionsLength(actions[1..], rest);
      ActionLength(actions[0], PrintedItems(ActionDocs(actions[1..]), COMPACT, rest));
    }
  }

  /** A character of UTF-8 takes at most three bytes for each UTF-16 unit. */
  lemma {:induction false} UnitsBound(s: seq<u8>)
    requires Utf8.WellFormed(s)
    ensures |s| <= 3 * Units(s)
  {
    if s != [] {
      var n :| 1 <= n <= |s| && Utf8.Character(s[..n]) && Utf8.WellFormed(s[n..]);
      UnitsBound(s[n..]);
      CharacterUnits(s, n);
    }
  }

  lemma CharacterUnits(s: seq<u8>, n: nat)
    requires 1 <= n <= |s| && Utf8.Character(s[..n])
    ensures n <= 4 && 3 * Units(s) >= n + 3 * Units(s[n..])
  {
    assert s[..n][0] == s[0];
    UnitsFrom(s, 1, n);
  }

  lemma {:induction false} UnitsFrom(s: seq<u8>, i: nat, n: nat)
    requires i <= n <= |s|
    ensures Units(s[i..]) >= Units(s[n..])
    decreases n - i
  {
    if i < n {
      assert s[i..][1..] == s[i + 1..];
      UnitsFrom(s, i + 1, n);
    }
  }

  lemma WideBound(s: Wide)
    ensures |s| <= 3 * WideLength(s)
  {
    UnitsBound(Octets(s));
  }

  lemma ProfileLength(p: Profile, rest: string)
    requires ValidProfile(p)
    ensures |Printed(ProfileDoc(p), rest)| <= 2100 + |rest|
  {
    hide Printed, PrintedFields, ProfileDoc, ActionDocs, Escaped, WideLength, IsUtf8;
    ProfileText(p, rest);
    Closing(COMPACT, rest);
    var close := PrintedFields(NoField, COMPACT, rest);
    ActionsLength(p.buttons, close);
    var second := ", \"buttons\": " + Printed(List(ActionDocs(p.buttons), COMPACT), close);
    EscapedLength(p.executable, "\"" + second);
    WideBound(p.executable);
  }

  lemma {:induction false} ProfilesLength(profiles: seq<Profile>, rest: string)
    requires forall i | 0 <= i < |profiles| :: ValidProfile(profiles[i])
    ensures |PrintedItems(ProfileDocs(profiles), NESTED, rest)| <= 2110 * |profiles| + 4 + |rest|
    ensures |Printed(List(ProfileDocs(profiles), NESTED), rest)| <= 2110 * |profiles| + 10 + |rest|
  {
    hide ProfileDoc, ValidProfile;
    if profiles != [] {
      ProfilesLength(profiles[1..], rest);
      ProfileLength(profiles[0], PrintedItems(ProfileDocs(profiles[1..]), NESTED, rest));
    }
  }

  /** A valid configuration always fits the limit on the file. */
  lemma SavedFits(c: AppConfig)
    requires Validate(c)
    ensures |Serialized(c)| <= FILE_LIMIT
  {
    hide Serialized, Printed, ProfileDocs, ValidProfile, WideLength, IsUtf8, Digits, Escaped;
    ConfigText(c);
    ProfilesLength(c.profiles, "\n}\n");
    DigitsLength(c.bitrate);
    DigitsLength(c.schemaVersion);
    EscapedLength(c.selectedMonitor, "\"" + AfterMonitor(c));
    WideBound(c.selectedMonitor);
  }

  // Saving and loading.

  /** For every configuration that may be saved: the file loads as that very
      configuration when its strings can be written, and not at all when a
      string holds a control character without a short escape. */
  lemma SavedLoads(c: AppConfig)
    requires Validate(c)
    ensures Loaded(Serialized(c)) == if Storable(c) then Some(c) else None
  {
    hide Printed, PDocument, Proper, WritableDoc, Meaning, ConfigDoc, ConfigOf, Validate, Storable;
    SavedFits(c);
    ConfigProper(c);
    CompactIsBlank();
    DocumentReads(ConfigDoc(c), "\n");
    ConfigRead(c);
  }

  /** Every string of the value is writable. */
  ghost predicate WritableJson(value: Json)
    decreases value
  {
    match value
    case Null => true
    case Bool(_) => true
    case Number(_) => true
    case String(s) => WritableText(s)
    case Array(items) => forall i | 0 <= i < |items| :: WritableJson(items[i])
    case Object(members) => forall name | name in members :: WritableJson(members[name])
  }

  lemma {:induction false} CharsWritable(s: string)
    ensures PChars(s).Some? ==> WritableText(PChars(s).value.0)
    decreases |s|
  {
    if s != "" && s[0] >= ' ' && s[0] != '"' {
      CharsWritable(s[1..]);
      if |s| > 1 {
        CharsWritable(s[2..]);
      }
    }
  }

  /** What the reader yields holds no control character without a short escape. */
  lemma {:induction false} ValueWritable(s: string)
    ensures PValue(s).Some? ==> WritableJson(PValue(s).value.0)
    decreases |s|, 1
  {
    hide PChars, PMembers, PItems, WritableText, Decimal, DigitRun;
    var t := Skip(s);
    if t != "" {
      match t[0]
      case '{' => MembersWritable(t[1..], map[]);
      case '[' => ItemsWritable(t[1..], []);
      case '"' => CharsWritable(t[1..]);
      case _ =>
    }
  }

  lemma {:induction false} MembersWritable(s: string, seen: map<string, Json>)
    requires forall name | name in seen :: WritableJson(seen[name])
    ensures PMembers(s, seen).Some? ==> WritableJson(PMembers(s, seen).value.0)
    decreases |s|, 0
  {
    hide PValue, PString, Skip, Eat, WritableJson;
    if PMembers(s, seen).Some? {
      var key := PString(s).value;
      var colon := Eat(key.1, ':').value;
      var member := PValue(colon).value;
      ValueWritable(colon);
      var now := seen[key.0 := member.0];
      WritableParts(now, []);
      if Eat(member.1, '}').None? {
        MembersWritable(Eat(member.1, ',').value, now);
      }
    }
  }

  lemma WritableParts(members: map<string, Json>, items: seq<Json>)
    ensures (forall name | name in members :: WritableJson(members[name])) ==> WritableJson(Object(members))
    ensures (forall i | 0 <= i < |items| :: WritableJson(items[i])) ==> WritableJson(Array(items))
  {
  }

  lemma {:induction false} ItemsWritable(s: string, seen: seq<Json>)
    requires forall i | 0 <= i < |seen| :: WritableJson(seen[i])
    ensures PItems(s, seen).Some? ==> WritableJson(PItems(s, seen).value.0)
    decreases |s|, 2
  {
    hide PValue, Skip, Eat, WritableJson;
    if PItems(s, seen).Some? {
      var item := PValue(s).value;
      ValueWritable(s);
      var now := seen + [item.0];
      WritableParts(map[], now);
      if Eat(item.1, ']').None? {
        ItemsWritable(Eat(item.1, ',').value, now);
      }
    }
  }

  /** A configuration that loads is valid and can be written. */
  lemma LoadedStorable(text: string)
    requires Loaded(text).Some?
    ensures Validate(Loaded(text).value) && Storable(Loaded(text).value)
  {
    hide PValue, WritableText, Validate, IsUtf8, ActionOf;
    var root := PDocument(text).value;
    ValueWritable(text);
    var c := Loaded(text).value;
    var profiles := RequireArray(root, PROFILES).value;
    assert WritableJson(root.members[PROFILES]);
    forall i | 0 <= i < |c.profiles| ensures WritableText(c.profiles[i].executable) {
      assert WritableJson(profiles[i]) && ProfileOf(profiles[i]) == Some(c.profiles[i]);
    }
  }

  /** Whatever text a configuration came from, saving it and loading it again
      gives the same configuration. */
  lemma LoadedSurvivesSaving(text: string)
    requires Loaded(text).Some?
    ensures Loaded(Serialized(Loaded(text).value)) == Loaded(text)
  {
    LoadedStorable(text);
    SavedLoads(Loaded(text).value);
  }

  /** A configuration whose monitor name holds a control character passes
      `Validate` and is saved to a file that does not load. */
  lemma ControlCharacterIsLost()
    ensures exists c: AppConfig :: Validate(c) && Loaded(Serialized(c)).None?
  {
    var name := "\U{1}";
    assert Octets(name) == [1] && Utf8.Character([1][..1]) && [1][1..] == [];
    assert Utf8.WellFormed([1]);
    var c := AppConfig(1, name, 80, true, []);
    assert Units([1]) == 1;
    assert Validate(c);
    SavedLoads(c);
    assert !Writable(name[0]);
  }
}
