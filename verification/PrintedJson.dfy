/** Documents as the configuration printer writes them, and what the reader
    makes of them: the document back, or nothing. */
module PrintedJson {
  import opened Wrappers
  import opened Json

  /** The white space of a list or a record: before its first element, after
      each comma, and before its closing bracket. */
  datatype Spacing = Spacing(first: string, between: string, last: string)

  datatype Doc =
    | Count(n: nat)
    | Flag(b: bool)
    | Text(s: string)
    | List(items: Docs, spacing: Spacing)
    | Record(fields: Fields, spacing: Spacing)

  datatype Docs = NoItem | Item(head: Doc, tail: Docs)

  datatype Fields = NoField | Field(name: string, value: Doc, tail: Fields)

  // The text of a document, in front of a rest.

  function Digits(n: nat): (s: string)
    ensures s != "" && Digit(s[0])
  {
    if n < 10 then ['0' + n as char] else Digits(n / 10) + ['0' + (n % 10) as char]
  }

  function EscapedCharacter(c: char): string {
    match c
    case '"' => "\\\""
    case '\\' => "\\\\"
    case '\U{8}' => "\\b"
    case '\U{C}' => "\\f"
    case '\n' => "\\n"
    case '\r' => "\\r"
    case '\t' => "\\t"
    case _ => [c]
  }

  function Escaped(s: string, rest: string): string {
    if s == "" then rest else EscapedCharacter(s[0]) + Escaped(s[1..], rest)
  }

  function Quoted(s: string, rest: string): string {
    "\"" + Escaped(s, "\"" + rest)
  }

  function Key(name: string, rest: string): string {
    "\"" + (name + ("\": " + rest))
  }

  function Printed(doc: Doc, rest: string): string
    decreases doc
  {
    match doc
    case Count(n) => Digits(n) + rest
    case Flag(b) => (if b then "true" else "false") + rest
    case Text(s) => Quoted(s, rest)
    case List(items, spacing) => "[" + PrintedList(items, spacing, rest)
    case Record(fields, spacing) => "{" + PrintedRecord(fields, spacing, rest)
  }

  function PrintedList(items: Docs, spacing: Spacing, rest: string): string
    decreases items
  {
    match items
    case NoItem => spacing.last + ("]" + rest)
    case Item(head, tail) => spacing.first + Printed(head, PrintedItems(tail, spacing, rest))
  }

  function PrintedRecord(fields: Fields, spacing: Spacing, rest: string): string
    decreases fields
  {
    match fields
    case NoField => spacing.last + ("}" + rest)
    case Field(name, value, tail) => spacing.first + Key(name, Printed(value, PrintedFields(tail, spacing, rest)))
  }

  /** The items after the first, each after a comma, and the closing bracket. */
  function PrintedItems(items: Docs, spacing: Spacing, rest: string): string
    decreases items
  {
    match items
    case NoItem => spacing.last + ("]" + rest)
    case Item(head, tail) => "," + (spacing.between + Printed(head, PrintedItems(tail, spacing, rest)))
  }

  function PrintedFields(fields: Fields, spacing: Spacing, rest: string): string
    decreases fields
  {
    match fields
    case NoField => spacing.last + ("}" + rest)
    case Field(name, value, tail) =>
      "," + (spacing.between + Key(name, Printed(value, PrintedFields(tail, spacing, rest))))
  }

  // What the document stands for.

  function Meaning(doc: Doc): Json
    decreases doc
  {
    match doc
    case Count(n) => Number(n)
    case Flag(b) => Bool(b)
    case Text(s) => String(s)
    case List(items, _) => Array(Meanings(items))
    case Record(fields, _) => Object(Collected(fields, map[]))
  }

  function Meanings(items: Docs): seq<Json>
    decreases items
  {
    match items
    case NoItem => []
    case Item(head, tail) => [Meaning(head)] + Meanings(tail)
  }

  function Collected(fields: Fields, seen: map<string, Json>): map<string, Json>
    decreases fields
  {
    match fields
    case NoField => seen
    case Field(name, value, tail) => Collected(tail, seen[name := Meaning(value)])
  }

  // Which documents.

  /** A character the printer writes as itself and the reader takes as itself. */
  predicate Plain(c: char) {
    c >= ' ' && c != '"' && c != '\\'
  }

  predicate PlainText(s: string) {
    forall i | 0 <= i < |s| :: Plain(s[i])
  }

  predicate Blank(s: string) {
    forall i | 0 <= i < |s| :: Space(s[i])
  }

  predicate BlankSpacing(spacing: Spacing) {
    Blank(spacing.first) && Blank(spacing.between) && Blank(spacing.last)
  }

  /** Numbers within 64 bits, white space that is white, plain distinct names. */
  predicate Proper(doc: Doc)
    decreases doc
  {
    match doc
    case Count(n) => n < U64_LIMIT
    case Flag(b) => true
    case Text(s) => true
    case List(items, spacing) => BlankSpacing(spacing) && ProperItems(items)
    case Record(fields, spacing) => BlankSpacing(spacing) && ProperFields(fields, {})
  }

  predicate ProperItems(items: Docs)
    decreases items
  {
    items.NoItem? || (Proper(items.head) && ProperItems(items.tail))
  }

  predicate ProperFields(fields: Fields, used: set<string>)
    decreases fields
  {
    fields.NoField?
    || (PlainText(fields.name) && fields.name !in used && Proper(fields.value)
        && ProperFields(fields.tail, used + {fields.name}))
  }

  /** A character the printer can write in a way the reader accepts: no control
      character but the five that have a short escape. */
  predicate Writable(c: char) {
    c >= ' ' || c in {'\U{8}', '\U{C}', '\n', '\r', '\t'}
  }

  predicate WritableText(s: string) {
    forall i | 0 <= i < |s| :: Writable(s[i])
  }

  /** Every string of the document is writable. */
  predicate WritableDoc(doc: Doc)
    decreases doc
  {
    match doc
    case Count(_) => true
    case Flag(_) => true
    case Text(s) => WritableText(s)
    case List(items, _) => WritableItems(items)
    case Record(fields, _) => WritableFields(fields)
  }

  predicate WritableItems(items: Docs)
    decreases items
  {
    items.NoItem? || (WritableDoc(items.head) && WritableItems(items.tail))
  }

  predicate WritableFields(fields: Fields)
    decreases fields
  {
    fields.NoField? || (WritableDoc(fields.value) && WritableFields(fields.tail))
  }

  // Token by token.

  lemma {:induction false} SkipBlank(blank: string, s: string)
    requires Blank(blank)
    ensures Skip(blank + s) == Skip(s)
  {
    if blank == "" {
      assert blank + s == s;
    } else {
      assert (blank + s)[1..] == blank[1..] + s;
      SkipBlank(blank[1..], s);
    }
  }

  lemma EatBlank(blank: string, s: string, expected: char)
    requires Blank(blank)
    ensures Eat(blank + s, expected) == Eat(s, expected)
  {
    SkipBlank(blank, s);
  }

  lemma ValueAfterBlank(blank: string, s: string)
    requires Blank(blank)
    ensures PValue(blank + s) == PValue(s)
  {
    hide PValue;
    SkipBlank(blank, s);
    ValueAfterSpace(blank + s);
    ValueAfterSpace(s);
  }

  lemma {:induction false} DigitRunIs(run: string, rest: string)
    requires forall i | 0 <= i < |run| :: Digit(run[i])
    requires rest == "" || !Digit(rest[0])
    ensures DigitRun(run + rest) == |run|
  {
    if run == "" {
      assert run + rest == rest;
    } else {
      assert (run + rest)[1..] == run[1..] + rest;
      DigitRunIs(run[1..], rest);
    }
  }

  /** Decimal digits read back as the number they were written for. */
  lemma {:induction false} DigitsRead(n: nat)
    ensures Decimal(Digits(n)) == n && forall i | 0 <= i < |Digits(n)| :: Digit(Digits(n)[i])
  {
    var s := Digits(n);
    if n >= 10 {
      DigitsRead(n / 10);
      assert s[..|s| - 1] == Digits(n / 10);
    } else {
      assert s[..|s| - 1] == "" && Decimal("") == 0;
    }
  }

  /** And there is no zero in front. */
  lemma {:induction false} DigitsAreShort(n: nat)
    ensures Digits(n)[0] == '0' <==> n == 0
    ensures n == 0 ==> Digits(n) == "0"
  {
    if n >= 10 {
      DigitsAreShort(n / 10);
    }
  }

  lemma NumberRead(n: nat, rest: string)
    requires n < U64_LIMIT && (rest == "" || !Digit(rest[0]))
    ensures PValue(Digits(n) + rest) == Some((Number(n), rest))
  {
    hide Digits, Decimal, DigitRun;
    var s := Digits(n) + rest;
    assert s[0] == Digits(n)[0];
    DigitsRead(n);
    DigitRunIs(Digits(n), rest);
    assert s[..|Digits(n)|] == Digits(n) && s[|Digits(n)|..] == rest;
    assert PValue(s) == PNumber(s);
  }

  lemma FlagRead(b: bool, rest: string)
    ensures PValue((if b then "true" else "false") + rest) == Some((Bool(b), rest))
  {
    if b {
      var s := "true" + rest;
      assert s[0] == 't' && "true" <= s && s[|"true"|..] == rest;
    } else {
      var s := "false" + rest;
      assert s[0] == 'f' && "false" <= s && s[|"false"|..] == rest;
    }
  }

  lemma CharacterReads(c: char, tail: string)
    ensures PChars(EscapedCharacter(c) + tail) == if Writable(c) then Before(c, PChars(tail)) else None
  {
    var text := EscapedCharacter(c) + tail;
    assert text[|EscapedCharacter(c)|..] == tail;
  }

  lemma WritableStep(s: string)
    requires s != ""
    ensures WritableText(s) <==> Writable(s[0]) && WritableText(s[1..])
  {
    hide Writable;
    if Writable(s[0]) && WritableText(s[1..]) {
      forall i | 0 <= i < |s| ensures Writable(s[i]) {
        assert i > 0 ==> s[i] == s[1..][i - 1];
      }
    }
  }

  /** The escapes of the printer read back, and no other character below the space. */
  lemma {:induction false} EscapedReads(s: string, rest: string)
    ensures PChars(Escaped(s, "\"" + rest)) == if WritableText(s) then Some((s, rest)) else None
  {
    hide EscapedCharacter, Writable;
    if s == "" {
      assert ("\"" + rest)[1..] == rest;
    } else {
      hide PChars, WritableText;
      EscapedReads(s[1..], rest);
      CharacterReads(s[0], Escaped(s[1..], "\"" + rest));
      WritableStep(s);
      assert [s[0]] + s[1..] == s;
    }
  }

  predicate HexDigit(c: char) {
    Digit(c) || 'A' <= c <= 'F' || 'a' <= c <= 'f'
  }

  /** The characters between the quotes of a string, section 7 of RFC 8259. */
  predicate StringCharacters(s: string) {
    || s == ""
    || (s[0] >= ' ' && s[0] != '"' && s[0] != '\\' && StringCharacters(s[1..]))
    || (|s| >= 2 && s[0] == '\\' && s[1] in "\"\\/bfnrt" && StringCharacters(s[2..]))
    || (|s| >= 6 && s[..2] == "\\u" && (forall i | 2 <= i < 6 :: HexDigit(s[i])) && StringCharacters(s[6..]))
  }

  lemma CharacterIsLegal(c: char, tail: string)
    ensures StringCharacters(EscapedCharacter(c) + tail) <==> Writable(c) && StringCharacters(tail)
  {
    var text := EscapedCharacter(c) + tail;
    assert text[|EscapedCharacter(c)|..] == tail;
  }

  /** What the printer writes between the quotes is a string of RFC 8259
      exactly when the text is writable. */
  lemma {:induction false} EscapedIsLegal(s: string)
    ensures StringCharacters(Escaped(s, "")) <==> WritableText(s)
  {
    hide EscapedCharacter, Writable;
    if s != "" {
      hide StringCharacters, WritableText;
      EscapedIsLegal(s[1..]);
      CharacterIsLegal(s[0], Escaped(s[1..], ""));
      WritableStep(s);
    }
  }

  lemma QuotedReads(s: string, rest: string)
    ensures PValue(Quoted(s, rest)) == if WritableText(s) then Some((String(s), rest)) else None
  {
    hide PChars, Escaped;
    EscapedReads(s, rest);
    assert Quoted(s, rest)[1..] == Escaped(s, "\"" + rest);
  }

  lemma {:induction false} PlainRead(name: string, rest: string)
    requires PlainText(name)
    ensures PChars(name + ("\"" + rest)) == Some((name, rest))
  {
    if name == "" {
      assert name + ("\"" + rest) == "\"" + rest;
      assert ("\"" + rest)[1..] == rest;
    } else {
      PlainRead(name[1..], rest);
      assert (name + ("\"" + rest))[1..] == name[1..] + ("\"" + rest);
      assert [name[0]] + name[1..] == name;
    }
  }

  lemma KeyRead(blank: string, name: string, rest: string)
    requires PlainText(name) && Blank(blank)
    ensures PString(blank + Key(name, rest)) == Some((name, ": " + rest))
    ensures Eat(": " + rest, ':') == Some(" " + rest)
  {
    hide PChars;
    EatBlank(blank, Key(name, rest), '"');
    assert Key(name, rest)[1..] == name + ("\": " + rest);
    assert "\": " + rest == "\"" + (": " + rest);
    PlainRead(name, ": " + rest);
    assert (": " + rest)[1..] == " " + rest;
  }

  /** After a printed value inside a list or a record: no digit, and the next
      token is the comma or the closing bracket. */
  lemma NextItem(items: Docs, spacing: Spacing, rest: string)
    requires BlankSpacing(spacing)
    ensures var s := PrintedItems(items, spacing, rest);
            && s != "" && !Digit(s[0])
            && match items
               case NoItem => Eat(s, ']') == Some(rest)
               case Item(head, tail) =>
                 && Eat(s, ']') == None
                 && Eat(s, ',') == Some(spacing.between + Printed(head, PrintedItems(tail, spacing, rest)))
  {
    hide Printed;
    match items
    case NoItem =>
      EatBlank(spacing.last, "]" + rest, ']');
      assert ("]" + rest)[1..] == rest;
    case Item(head, tail) =>
      var next := spacing.between + Printed(head, PrintedItems(tail, spacing, rest));
      assert ("," + next)[1..] == next;
  }

  lemma NextField(fields: Fields, spacing: Spacing, rest: string)
    requires BlankSpacing(spacing)
    ensures var s := PrintedFields(fields, spacing, rest);
            && s != "" && !Digit(s[0])
            && match fields
               case NoField => Eat(s, '}') == Some(rest)
               case Field(name, value, tail) =>
                 && Eat(s, '}') == None
                 && Eat(s, ',') == Some(spacing.between + Key(name, Printed(value, PrintedFields(tail, spacing, rest))))
  {
    hide Printed;
    match fields
    case NoField =>
      EatBlank(spacing.last, "}" + rest, '}');
      assert ("}" + rest)[1..] == rest;
    case Field(name, value, tail) =>
      var next := spacing.between + Key(name, Printed(value, PrintedFields(tail, spacing, rest)));
      assert ("," + next)[1..] == next;
  }

  // Documents.

  /** A printed document starts with a token that is not white space and not a
      closing bracket. */
  lemma PrintedStart(doc: Doc, rest: string)
    ensures var s := Printed(doc, rest);
            s != "" && !Space(s[0]) && s[0] !in {']', '}'}
  {
  }

  /** The reader gives every proper document back when all its strings are
      writable, and rejects it when one is not. */
  lemma {:induction false} PrintedReads(doc: Doc, rest: string)
    requires Proper(doc) && (doc.Count? ==> rest == "" || !Digit(rest[0]))
    ensures PValue(Printed(doc, rest)) == if WritableDoc(doc) then Some((Meaning(doc), rest)) else None
    decreases doc, 1
  {
    match doc
    case Count(n) => NumberRead(n, rest);
    case Flag(b) => FlagRead(b, rest);
    case Text(s) => QuotedReads(s, rest);
    case List(items, spacing) => ListReads(items, spacing, rest);
    case Record(fields, spacing) => RecordReads(fields, spacing, rest);
  }

  lemma {:induction false} ListReads(items: Docs, spacing: Spacing, rest: string)
    requires BlankSpacing(spacing) && ProperItems(items)
    ensures PValue(Printed(List(items, spacing), rest))
         == if WritableItems(items) then Some((Array(Meanings(items)), rest)) else None
    decreases items, 3
  {
    hide PItems, PValue, Meanings, WritableItems, Printed;
    var s := Printed(List(items, spacing), rest);
    ListStart(items, spacing, rest);
    match items
    case NoItem =>
      EatBlank(spacing.last, "]" + rest, ']');
      assert ("]" + rest)[1..] == rest;
      EmptyMeanings();
    case Item(head, tail) =>
      var inner := Printed(head, PrintedItems(tail, spacing, rest));
      PrintedStart(head, PrintedItems(tail, spacing, rest));
      EatBlank(spacing.first, inner, ']');
      ItemsRead(head, tail, spacing, spacing.first, [], rest);
      assert [] + Meanings(items) == Meanings(items);
  }

  lemma EmptyMeanings()
    ensures Meanings(NoItem) == [] && WritableItems(NoItem)
    ensures Collected(NoField, map[]) == map[] && WritableFields(NoField)
  {
  }

  lemma ListStart(items: Docs, spacing: Spacing, rest: string)
    ensures PValue(Printed(List(items, spacing), rest)) == PArray(PrintedList(items, spacing, rest))
  {
    hide PArray, PrintedList;
    var inner := PrintedList(items, spacing, rest);
    assert ("[" + inner)[1..] == inner;
  }

  lemma {:induction false} ItemsRead(
    head: Doc, tail: Docs, spacing: Spacing, blank: string, seen: seq<Json>, rest: string)
    requires BlankSpacing(spacing) && Blank(blank) && ProperItems(Item(head, tail))
    ensures PItems(blank + Printed(head, PrintedItems(tail, spacing, rest)), seen)
         == if WritableItems(Item(head, tail)) then Some((Array(seen + Meanings(Item(head, tail))), rest)) else None
    decreases Item(head, tail), 2
  {
    hide PValue, Printed, PrintedItems, Meanings, Blank, Proper, Meaning, WritableDoc, Eat;
    var s := Printed(head, PrintedItems(tail, spacing, rest));
    ValueAfterBlank(blank, s);
    NextItem(tail, spacing, rest);
    PrintedReads(head, PrintedItems(tail, spacing, rest));
    MeaningsStep(head, tail, seen);
    if WritableDoc(head) && tail.Item? {
      ItemsRead(tail.head, tail.tail, spacing, spacing.between, seen + [Meaning(head)], rest);
    }
  }

  lemma MeaningsStep(head: Doc, tail: Docs, seen: seq<Json>)
    ensures seen + Meanings(Item(head, tail)) == seen + [Meaning(head)] + Meanings(tail)
    ensures seen + [Meaning(head)] + Meanings(NoItem) == seen + [Meaning(head)]
  {
  }

  lemma {:induction false} RecordReads(fields: Fields, spacing: Spacing, rest: string)
    requires BlankSpacing(spacing) && ProperFields(fields, {})
    ensures PValue(Printed(Record(fields, spacing), rest))
         == if WritableFields(fields) then Some((Object(Collected(fields, map[])), rest)) else None
    decreases fields, 3
  {
    hide PMembers, PValue, Collected, WritableFields, Printed;
    RecordStart(fields, spacing, rest);
    match fields
    case NoField =>
      EatBlank(spacing.last, "}" + rest, '}');
      assert ("}" + rest)[1..] == rest;
      EmptyMeanings();
    case Field(name, value, tail) =>
      var inner := Key(name, Printed(value, PrintedFields(tail, spacing, rest)));
      EatBlank(spacing.first, inner, '}');
      var none: map<string, Json> := map[];
      assert none.Keys == {};
      FieldsRead(fields, spacing, spacing.first, none, rest);
  }

  lemma RecordStart(fields: Fields, spacing: Spacing, rest: string)
    ensures PValue(Printed(Record(fields, spacing), rest)) == PObject(PrintedRecord(fields, spacing, rest))
  {
    hide PObject, PrintedRecord;
    var inner := PrintedRecord(fields, spacing, rest);
    assert ("{" + inner)[1..] == inner;
  }

  lemma {:induction false} FieldsRead(
    fields: Fields, spacing: Spacing, blank: string, seen: map<string, Json>, rest: string)
    requires BlankSpacing(spacing) && Blank(blank) && fields.Field? && ProperFields(fields, seen.Keys)
    ensures PMembers(blank + Key(fields.name, Printed(fields.value, PrintedFields(fields.tail, spacing, rest))), seen)
         == if WritableFields(fields) then Some((Object(Collected(fields, seen)), rest)) else None
    decreases fields, 2
  {
    hide PValue, PString, Printed, PrintedFields, Key, Blank, Proper, Meaning, WritableDoc, Eat;
    var Field(name, value, tail) := fields;
    var s := Printed(value, PrintedFields(tail, spacing, rest));
    KeyRead(blank, name, s);
    assert Blank(" ") by { BlankSpace(); }
    ValueAfterBlank(" ", s);
    NextField(tail, spacing, rest);
    PrintedReads(value, PrintedFields(tail, spacing, rest));
    if WritableDoc(value) {
      var now := seen[name := Meaning(value)];
      assert now.Keys == seen.Keys + {name};
      if tail.Field? {
        FieldsRead(tail, spacing, spacing.between, now, rest);
      }
    }
  }

  lemma BlankSpace()
    ensures Blank(" ")
  {
  }

  /** Between white space, a printed document is the whole text. */
  lemma DocumentReads(doc: Doc, blank: string)
    requires Proper(doc) && Blank(blank)
    ensures PDocument(Printed(doc, blank)) == if WritableDoc(doc) then Some(Meaning(doc)) else None
  {
    hide PValue, Printed, Meaning, WritableDoc, Proper;
    assert blank == "" || !Digit(blank[0]);
    PrintedReads(doc, blank);
    SkipBlank(blank, "");
    assert blank + "" == blank;
  }
}
