/** Saving a configuration and loading it again. */
module ConfigStore {
  import opened Bytes
  import opened Json
  import opened PrintedJson
  import opened Config

  // The printer, appending piece by piece.  `rest` is whatever will follow.

  /** What is still to be printed of a list before its item number i. */
  function Left(items: Docs, spacing: Spacing, i: nat, rest: string): string {
    if i == 0 then PrintedList(items, spacing, rest) else PrintedItems(items, spacing, rest)
  }

  function Lead(spacing: Spacing, i: nat): string {
    if i == 0 then spacing.first else "," + spacing.between
  }

  lemma LeftStep(items: Docs, spacing: Spacing, i: nat, rest: string)
    requires items.Item?
    ensures Left(items, spacing, i, rest)
         == Lead(spacing, i) + Printed(items.head, Left(items.tail, spacing, i + 1, rest))
  {
    hide Printed;
    var s := Printed(items.head, PrintedItems(items.tail, spacing, rest));
    assert "," + (spacing.between + s) == "," + spacing.between + s;
  }

  lemma LeadIs(i: nat)
    ensures Lead(COMPACT, i) == if i == 0 then "" else ", "
    ensures Lead(NESTED, i) == if i == 0 then "\n    " else ",\n    "
  {
  }

  method EscapeJson(value: string, output: string, ghost rest: string) returns (result: string)
    ensures result + rest == output + Quoted(value, rest)
  {
    hide EscapedCharacter;
    result := output + "\"";
    assert result + Escaped(value, "\"" + rest) == output + Quoted(value, rest);
    for i := 0 to |value|
      invariant result + Escaped(value[i..], "\"" + rest) == output + Quoted(value, rest)
    {
      assert value[i..][1..] == value[i + 1..];
      result := result + EscapedCharacter(value[i]);
    }
    assert Escaped(value[|value|..], "\"" + rest) == "\"" + rest;
    result := result + "\"";
  }

  method AppendKeys(keys: seq<u16>, output: string, ghost rest: string) returns (result: string)
    ensures result + rest == output + Printed(List(KeyDocs(keys), COMPACT), rest)
  {
    hide Digits;
    result := output + "[";
    ghost var whole := output + Printed(List(KeyDocs(keys), COMPACT), rest);
    assert result + Left(KeyDocs(keys), COMPACT, 0, rest) == whole;
    assert keys[0..] == keys;
    for i := 0 to |keys|
      invariant result + Left(KeyDocs(keys[i..]), COMPACT, i, rest) == whole
    {
      hide Left, Lead;
      assert keys[i..][1..] == keys[i + 1..];
      LeftStep(KeyDocs(keys[i..]), COMPACT, i, rest);
      LeadIs(i);
      result := result + ((if i == 0 then "" else ", ") + Digits(keys[i]));
    }
    assert Left(KeyDocs(keys[|keys|..]), COMPACT, |keys|, rest) == "]" + rest by {
      assert "" + ("]" + rest) == "]" + rest;
    }
    result := result + "]";
  }

  /** `lead` opens the record and names its first field. */
  lemma RecordLead(f: Fields, spacing: Spacing, rest: string, lead: string)
    requires f.Field? && lead == "{" + spacing.first + "\"" + f.name + "\": "
    ensures Printed(Record(f, spacing), rest) == lead + Printed(f.value, PrintedFields(f.tail, spacing, rest))
  {
    var text := Printed(f.value, PrintedFields(f.tail, spacing, rest));
    hide Printed;
    assert Key(f.name, text) == "\"" + f.name + "\": " + text;
    assert "{" + (spacing.first + Key(f.name, text)) == lead + text;
  }

  /** `lead` separates a field from the one before and names it. */
  lemma FieldLead(f: Fields, spacing: Spacing, rest: string, lead: string)
    requires f.Field? && lead == "," + spacing.between + "\"" + f.name + "\": "
    ensures PrintedFields(f, spacing, rest) == lead + Printed(f.value, PrintedFields(f.tail, spacing, rest))
  {
    var text := Printed(f.value, PrintedFields(f.tail, spacing, rest));
    hide Printed;
    assert Key(f.name, text) == "\"" + f.name + "\": " + text;
    assert "," + (spacing.between + Key(f.name, text)) == lead + text;
  }

  lemma {:induction false} PlainEscaped(s: string, rest: string)
    requires PlainText(s)
    ensures Escaped(s, rest) == s + rest
  {
    if s == "" {
      assert s + rest == rest;
    } else {
      assert Plain(s[0]);
      PlainEscaped(s[1..], rest);
      assert [s[0]] + (s[1..] + rest) == s + rest;
    }
  }

  lemma NameText(s: string, rest: string)
    requires PlainText(s)
    ensures Printed(Text(s), rest) == "\"" + s + "\"" + rest
  {
    hide Escaped, PlainText;
    PlainEscaped(s, "\"" + rest);
    assert "\"" + (s + ("\"" + rest)) == "\"" + s + "\"" + rest;
  }

  lemma ActionLeads()
    ensures "{\"kind\": " == "{" + COMPACT.first + "\"" + KIND + "\": "
    ensures ", \"mouseButton\": " == "," + COMPACT.between + "\"" + MOUSE + "\": "
    ensures ", \"keys\": " == "," + COMPACT.between + "\"" + KEYS + "\": "
  {
  }

  /** The text of a record with `lead` in front of each field. */
  lemma ActionText(action: Action, rest: string)
    ensures var close := PrintedFields(NoField, COMPACT, rest);
            var third := ", \"keys\": " + Printed(List(KeyDocs(action.virtualKeys), COMPACT), close);
            var second := ", \"mouseButton\": " + ("\"" + MouseButtonName(action.mouseButton) + "\"" + third);
            Printed(ActionDoc(action), rest) == "{\"kind\": " + ("\"" + ActionKindName(action.kind) + "\"" + second)
  {
    hide Printed, PrintedFields, ActionKindName, MouseButtonName, PlainText;
    ActionLeads();
    NamesArePlain(action.kind, action.mouseButton);
    var close := PrintedFields(NoField, COMPACT, rest);
    var keys := Field(KEYS, List(KeyDocs(action.virtualKeys), COMPACT), NoField);
    var mouse := Field(MOUSE, Text(MouseButtonName(action.mouseButton)), keys);
    FieldLead(keys, COMPACT, rest, ", \"keys\": ");
    FieldLead(mouse, COMPACT, rest, ", \"mouseButton\": ");
    NameText(MouseButtonName(action.mouseButton), PrintedFields(keys, COMPACT, rest));
    RecordLead(ActionDoc(action).fields, COMPACT, rest, "{\"kind\": ");
    NameText(ActionKindName(action.kind), PrintedFields(mouse, COMPACT, rest));
  }

  lemma Closing(spacing: Spacing, rest: string)
    ensures PrintedFields(NoField, spacing, rest) == spacing.last + "}" + rest
    ensures PrintedItems(NoItem, spacing, rest) == PrintedList(NoItem, spacing, rest) == spacing.last + "]" + rest
  {
    assert spacing.last + ("}" + rest) == spacing.last + "}" + rest;
    assert spacing.last + ("]" + rest) == spacing.last + "]" + rest;
  }

  method AppendAction(action: Action, output: string, ghost rest: string) returns (result: string)
    ensures result + rest == output + Printed(ActionDoc(action), rest)
  {
    hide Printed, ActionKindName, MouseButtonName, ActionDoc, KeyDocs, PrintedFields;
    ActionText(action, rest);
    Closing(COMPACT, rest);
    ghost var close := PrintedFields(NoField, COMPACT, rest);
    ghost var third := ", \"keys\": " + Printed(List(KeyDocs(action.virtualKeys), COMPACT), close);
    ghost var second := ", \"mouseButton\": " + ("\"" + MouseButtonName(action.mouseButton) + "\"" + third);
    ghost var whole := output + Printed(ActionDoc(action), rest);
    result := output + "{\"kind\": ";
    result := result + ("\"" + ActionKindName(action.kind) + "\"");
    assert result + second == whole;
    result := result + ", \"mouseButton\": ";
    result := result + ("\"" + MouseButtonName(action.mouseButton) + "\"");
    assert result + third == whole;
    result := result + ", \"keys\": ";
    result := AppendKeys(action.virtualKeys, result, close);
    assert result + close == result + "}" + rest by { assert "" + "}" == "}"; }
    result := result + "}";
  }

  method AppendProfile(profile: Profile, output: string, ghost rest: string) returns (result: string)
    ensures result + rest == output + Printed(ProfileDoc(profile), rest)
  {
    hide Printed, PrintedFields, ProfileDoc, ActionDocs, Quoted;
    ProfileText(profile, rest);
    Closing(COMPACT, rest);
    ghost var close := PrintedFields(NoField, COMPACT, rest);
    ghost var whole := output + Printed(ProfileDoc(profile), rest);
    ghost var second := ", \"buttons\": " + Printed(List(ActionDocs(profile.buttons), COMPACT), close);
    result := output + "{\"executable\": ";
    result := EscapeJson(profile.executable, result, second);
    assert result + second == whole;
    result := result + ", \"buttons\": ";
    result := AppendActions(profile.buttons, result, close);
    assert result + close == result + "}" + rest by { assert "" + "}" == "}"; }
    result := result + "}";
  }

  lemma ProfileText(profile: Profile, rest: string)
    ensures var close := PrintedFields(NoField, COMPACT, rest);
            var second := ", \"buttons\": " + Printed(List(ActionDocs(profile.buttons), COMPACT), close);
            Printed(ProfileDoc(profile), rest) == "{\"executable\": " + Quoted(profile.executable, second)
  {
    var buttons := Field(BUTTONS, List(ActionDocs(profile.buttons), COMPACT), NoField);
    assert Printed(Text(profile.executable), PrintedFields(buttons, COMPACT, rest))
        == Quoted(profile.executable, PrintedFields(buttons, COMPACT, rest));
    hide Printed, PrintedFields, Quoted;
    ProfileLeads();
    FieldLead(buttons, COMPACT, rest, ", \"buttons\": ");
    RecordLead(ProfileDoc(profile).fields, COMPACT, rest, "{\"executable\": ");
  }

  lemma ProfileLeads()
    ensures "{\"executable\": " == "{" + COMPACT.first + "\"" + EXECUTABLE + "\": "
    ensures ", \"buttons\": " == "," + COMPACT.between + "\"" + BUTTONS + "\": "
  {
  }

  method AppendActions(actions: seq<Action>, output: string, ghost rest: string) returns (result: string)
    ensures result + rest == output + Printed(List(ActionDocs(actions), COMPACT), rest)
  {
    hide ActionDoc;
    result := output + "[";
    ghost var whole := output + Printed(List(ActionDocs(actions), COMPACT), rest);
    assert result + Left(ActionDocs(actions), COMPACT, 0, rest) == whole;
    assert actions[0..] == actions;
    for i := 0 to |actions|
      invariant result + Left(ActionDocs(actions[i..]), COMPACT, i, rest) == whole
    {
      hide Left, Lead, Printed;
      assert actions[i..][1..] == actions[i + 1..];
      LeftStep(ActionDocs(actions[i..]), COMPACT, i, rest);
      LeadIs(i);
      result := AppendAction(actions[i], result + (if i == 0 then "" else ", "),
                             Left(ActionDocs(actions[i + 1..]), COMPACT, i + 1, rest));
    }
    assert Left(ActionDocs(actions[|actions|..]), COMPACT, |actions|, rest) == "]" + rest by {
      assert "" + ("]" + rest) == "]" + rest;
    }
    result := result + "]";
  }

  method AppendProfiles(profiles: seq<Profile>, output: string, ghost rest: string) returns (result: string)
    ensures result + rest == output + Printed(List(ProfileDocs(profiles), NESTED), rest)
  {
    hide ProfileDoc;
    result := output + "[";
    ghost var whole := output + Printed(List(ProfileDocs(profiles), NESTED), rest);
    assert result + Left(ProfileDocs(profiles), NESTED, 0, rest) == whole;
    assert profiles[0..] == profiles;
    for i := 0 to |profiles|
      invariant result + Left(ProfileDocs(profiles[i..]), NESTED, i, rest) == whole
    {
      hide Left, Lead, Printed;
      assert profiles[i..][1..] == profiles[i + 1..];
      LeftStep(ProfileDocs(profiles[i..]), NESTED, i, rest);
      LeadIs(i);
      result := AppendProfile(profiles[i], result + (if i == 0 then "\n    " else ",\n    "),
                              Left(ProfileDocs(profiles[i + 1..]), NESTED, i + 1, rest));
    }
    assert Left(ProfileDocs(profiles[|profiles|..]), NESTED, |profiles|, rest) == "\n  ]" + rest by {
      assert "\n  " + ("]" + rest) == "\n  ]" + rest;
    }
    result := result + "\n  ]";
  }

  lemma ConfigLeads()
    ensures "{\n  \"schemaVersion\": " == "{" + INDENTED.first + "\"" + SCHEMA + "\": "
    ensures ",\n  \"selectedMonitor\": " == "," + INDENTED.between + "\"" + MONITOR + "\": "
  {
  }

  lemma MoreConfigLeads()
    ensures ",\n  \"bitrateMbps\": " == "," + INDENTED.between + "\"" + BITRATE + "\": "
    ensures ",\n  \"palmGuard\": " == "," + INDENTED.between + "\"" + PALM + "\": "
    ensures ",\n  \"profiles\": " == "," + INDENTED.between + "\"" + PROFILES + "\": "
  {
  }

  /** What follows the value of each field of the root. */
  function AfterPalm(c: AppConfig): string {
    ",\n  \"profiles\": " + Printed(List(ProfileDocs(c.profiles), NESTED), "\n}\n")
  }

  function AfterBitrate(c: AppConfig): string {
    ",\n  \"palmGuard\": " + ((if c.palmGuard then "true" else "false") + AfterPalm(c))
  }

  function AfterMonitor(c: AppConfig): string {
    ",\n  \"bitrateMbps\": " + (Digits(c.bitrate) + AfterBitrate(c))
  }

  function AfterSchema(c: AppConfig): string {
    ",\n  \"selectedMonitor\": " + Quoted(c.selectedMonitor, AfterMonitor(c))
  }

  lemma ScalarText(n: nat, b: bool, s: string, rest: string)
    ensures Printed(Count(n), rest) == Digits(n) + rest
    ensures Printed(Flag(b), rest) == (if b then "true" else "false") + rest
    ensures Printed(Text(s), rest) == Quoted(s, rest)
  {
  }

  lemma ConfigText(c: AppConfig)
    ensures Serialized(c) == "{\n  \"schemaVersion\": " + (Digits(c.schemaVersion) + AfterSchema(c))
  {
    hide Printed, PrintedFields, Digits, Quoted, ProfileDocs;
    ConfigLeads();
    MoreConfigLeads();
    Closing(INDENTED, "\n");
    assert "\n" + "}" + "\n" == "\n}\n";
    var profiles := Field(PROFILES, List(ProfileDocs(c.profiles), NESTED), NoField);
    var palm := Field(PALM, Flag(c.palmGuard), profiles);
    var bitrate := Field(BITRATE, Count(c.bitrate), palm);
    var monitor := Field(MONITOR, Text(c.selectedMonitor), bitrate);
    FieldLead(profiles, INDENTED, "\n", ",\n  \"profiles\": ");
    FieldLead(palm, INDENTED, "\n", ",\n  \"palmGuard\": ");
    FieldLead(bitrate, INDENTED, "\n", ",\n  \"bitrateMbps\": ");
    FieldLead(monitor, INDENTED, "\n", ",\n  \"selectedMonitor\": ");
    RecordLead(ConfigDoc(c).fields, INDENTED, "\n", "{\n  \"schemaVersion\": ");
    ScalarText(c.schemaVersion, c.palmGuard, c.selectedMonitor, PrintedFields(profiles, INDENTED, "\n"));
    ScalarText(c.bitrate, c.palmGuard, c.selectedMonitor, PrintedFields(palm, INDENTED, "\n"));
    ScalarText(c.bitrate, c.palmGuard, c.selectedMonitor, PrintedFields(bitrate, INDENTED, "\n"));
    ScalarText(c.schemaVersion, c.palmGuard, c.selectedMonitor, PrintedFields(monitor, INDENTED, "\n"));
  }

  method SerializeConfig(c: AppConfig) returns (output: string)
    ensures output == Serialized(c)
  {
    hide Serialized, Digits, Quoted, ProfileDocs, Printed;
    ConfigText(c);
    output := "{\n  \"schemaVersion\": " + Digits(c.schemaVersion);
    assert output + AfterSchema(c) == Serialized(c);
    output := output + ",\n  \"selectedMonitor\": ";
    output := EscapeJson(c.selectedMonitor, output, AfterMonitor(c));
    assert output + AfterMonitor(c) == Serialized(c);
    output := output + ",\n  \"bitrateMbps\": ";
    output := output + Digits(c.bitrate);
    assert output + AfterBitrate(c) == Serialized(c);
    output := output + ",\n  \"palmGuard\": ";
    output := output + (if c.palmGuard then "true" else "false");
    assert output + AfterPalm(c) == Serialized(c);
    output := output + ",\n  \"profiles\": ";
    output := AppendProfiles(c.profiles, output, "\n}\n");
    output := output + "\n}\n";
  }
}
