/** The language of the configuration reader as a grammar: a text is accepted exactly
    if it is the text of a tree, and then the value is the tree's. */
module JsonGrammar {
  import opened Wrappers
  import opened Json
  import opened PrintedJson

  /** A character of a string: itself, or a backslash and a letter. */
  datatype Piece = Itself(c: char) | Escape(letter: char)

  /** `blank` is the white space in front. */
  datatype Node =
    | Word(blank: string, value: Json)
    | Figures(blank: string, digits: string)
    | Quote(blank: string, pieces: seq<Piece>)
    | NoElements(blank: string, inner: string)
    | Bracketed(blank: string, elements: Elements)
    | NoMembers(blank: string, inner: string)
    | Braced(blank: string, members: Members)

  /** `after` is the white space before the comma or the closing bracket. */
  datatype Elements = Last(node: Node, after: string) | More(node: Node, after: string, tail: Elements)

  datatype Entry = Entry(before: string, key: seq<Piece>, colon: string, node: Node, after: string)

  datatype Members = LastEntry(entry: Entry) | MoreEntries(entry: Entry, tail: Members)

  // Texts, in front of a rest.

  function Spelling(value: Json): string {
    match value
    case Null => "null"
    case Bool(b) => if b then "true" else "false"
    case _ => ""
  }

  function PieceText(piece: Piece): string {
    match piece
    case Itself(c) => [c]
    case Escape(letter) => ['\\', letter]
  }

  /** The pieces, and the closing quote. */
  function Closed(pieces: seq<Piece>, rest: string): string {
    if pieces == [] then "\"" + rest else PieceText(pieces[0]) + Closed(pieces[1..], rest)
  }

  function NodeText(node: Node, rest: string): string
    decreases node
  {
    node.blank +
    match node
    case Word(_, value) => Spelling(value) + rest
    case Figures(_, digits) => digits + rest
    case Quote(_, pieces) => "\"" + Closed(pieces, rest)
    case NoElements(_, inner) => "[" + (inner + ("]" + rest))
    case Bracketed(_, elements) => "[" + ElementsText(elements, rest)
    case NoMembers(_, inner) => "{" + (inner + ("}" + rest))
    case Braced(_, members) => "{" + MembersText(members, rest)
  }

  function ElementsText(e: Elements, rest: string): string
    decreases e
  {
    match e
    case Last(node, after) => NodeText(node, after + ("]" + rest))
    case More(node, after, tail) => NodeText(node, after + ("," + ElementsText(tail, rest)))
  }

  function EntryText(entry: Entry, rest: string): string
    decreases entry
  {
    entry.before + ("\"" + Closed(entry.key, entry.colon + (":" + NodeText(entry.node, entry.after + rest))))
  }

  function MembersText(m: Members, rest: string): string
    decreases m
  {
    match m
    case LastEntry(entry) => EntryText(entry, "}" + rest)
    case MoreEntries(entry, tail) => EntryText(entry, "," + MembersText(tail, rest))
  }

  // What they stand for.

  function LetterMeans(letter: char): char {
    match letter
    case 'b' => '\U{8}'
    case 'f' => '\U{C}'
    case 'n' => '\U{A}'
    case 'r' => '\U{D}'
    case 't' => '\U{9}'
    case _ => letter
  }

  function Means(pieces: seq<Piece>): string {
    if pieces == [] then ""
    else [if pieces[0].Itself? then pieces[0].c else LetterMeans(pieces[0].letter)] + Means(pieces[1..])
  }

  function Worth(digits: string): nat {
    if digits == "" then 0
    else
      var last := digits[|digits| - 1];
      10 * Worth(digits[..|digits| - 1]) + if '0' <= last <= '9' then last as nat - 0x30 else 0
  }

  function NodeValue(node: Node): Json
    decreases node
  {
    match node
    case Word(_, value) => value
    case Figures(_, digits) => Number(Worth(digits))
    case Quote(_, pieces) => String(Means(pieces))
    case NoElements(_, _) => Array([])
    case Bracketed(_, elements) => Array(Values(elements))
    case NoMembers(_, _) => Object(map[])
    case Braced(_, members) => Object(Gathered(members, map[]))
  }

  function Values(e: Elements): seq<Json>
    decreases e
  {
    match e
    case Last(node, _) => [NodeValue(node)]
    case More(node, _, tail) => [NodeValue(node)] + Values(tail)
  }

  function Gathered(m: Members, seen: map<string, Json>): map<string, Json>
    decreases m
  {
    match m
    case LastEntry(entry) => seen[Means(entry.key) := NodeValue(entry.node)]
    case MoreEntries(entry, tail) => Gathered(tail, seen[Means(entry.key) := NodeValue(entry.node)])
  }

  // Which trees.

  predicate White(s: string) {
    forall i | 0 <= i < |s| :: s[i] == ' ' || '\U{9}' <= s[i] <= '\U{D}'
  }

  /** No control characters, quotes or backslashes as themselves, and eight escapes. */
  predicate LegalPiece(piece: Piece) {
    match piece
    case Itself(c) => c >= '\U{20}' && c != '"' && c != '\\'
    case Escape(letter) => letter in "\"\\/bfnrt"
  }

  predicate LegalPieces(pieces: seq<Piece>) {
    forall i | 0 <= i < |pieces| :: LegalPiece(pieces[i])
  }

  predicate Legal(node: Node)
    decreases node
  {
    && White(node.blank)
    && match node
       case Word(_, value) => value.Null? || value.Bool?
       case Figures(_, digits) =>
         digits != "" && (forall i | 0 <= i < |digits| :: '0' <= digits[i] <= '9')
         && Worth(digits) < 0x1_0000_0000_0000_0000
       case Quote(_, pieces) => LegalPieces(pieces)
       case NoElements(_, inner) => White(inner)
       case Bracketed(_, elements) => LegalElements(elements)
       case NoMembers(_, inner) => White(inner)
       case Braced(_, members) => LegalMembers(members, {})
  }

  predicate LegalElements(e: Elements)
    decreases e
  {
    Legal(e.node) && White(e.after) && (e.More? ==> LegalElements(e.tail))
  }

  predicate LegalEntry(entry: Entry)
    decreases entry
  {
    White(entry.before) && LegalPieces(entry.key) && White(entry.colon) && Legal(entry.node) && White(entry.after)
  }

  /** No key twice. */
  predicate LegalMembers(m: Members, used: set<string>)
    decreases m
  {
    && LegalEntry(m.entry) && Means(m.entry.key) !in used
    && (m.MoreEntries? ==> LegalMembers(m.tail, used + {Means(m.entry.key)}))
  }

  /** Nothing after a number may continue it. */
  predicate Ends(node: Node, rest: string) {
    node.Figures? ==> rest == "" || !('0' <= rest[0] <= '9')
  }

  // Tokens.

  lemma WhiteIsBlank(s: string)
    ensures White(s) <==> Blank(s)
  {
    if White(s) {
      assert forall i | 0 <= i < |s| :: Space(s[i]);
    }
    if Blank(s) {
      assert forall i | 0 <= i < |s| :: Space(s[i]);
    }
  }

  lemma {:induction false} SkippedWhite(s: string) returns (blank: string)
    ensures White(blank) && s == blank + Skip(s)
  {
    if s != "" && Space(s[0]) {
      var rest := SkippedWhite(s[1..]);
      blank := [s[0]] + rest;
      assert s == [s[0]] + s[1..];
    } else {
      blank := "";
    }
  }

  lemma EatenAfterWhite(s: string, expected: char) returns (blank: string)
    requires Eat(s, expected).Some?
    ensures White(blank) && s == blank + ([expected] + Eat(s, expected).value)
  {
    blank := SkippedWhite(s);
    assert Skip(s) == [expected] + Skip(s)[1..];
  }

  lemma {:induction false} WorthIsDecimal(digits: string)
    ensures Worth(digits) == Decimal(digits)
  {
    if digits != "" {
      WorthIsDecimal(digits[..|digits| - 1]);
    }
  }

  /** One piece in front of others. */
  lemma PieceOn(piece: Piece, tail: seq<Piece>, rest: string)
    ensures LegalPieces([piece] + tail) <==> LegalPiece(piece) && LegalPieces(tail)
    ensures Closed([piece] + tail, rest) == PieceText(piece) + Closed(tail, rest)
    ensures Means([piece] + tail) == [if piece.Itself? then piece.c else LetterMeans(piece.letter)] + Means(tail)
  {
    var all := [piece] + tail;
    assert all[1..] == tail;
    if LegalPieces(all) {
      assert LegalPiece(all[0]) && forall i | 0 <= i < |tail| :: all[i + 1] == tail[i];
    }
  }

  lemma PieceReads(piece: Piece, s: string)
    requires LegalPiece(piece)
    ensures PChars(PieceText(piece) + s)
         == Before(if piece.Itself? then piece.c else LetterMeans(piece.letter), PChars(s))
  {
    assert (PieceText(piece) + s)[|PieceText(piece)|..] == s;
  }

  lemma {:induction false} CharsSound(s: string) returns (pieces: seq<Piece>)
    requires PChars(s).Some?
    ensures LegalPieces(pieces) && s == Closed(pieces, PChars(s).value.1) && Means(pieces) == PChars(s).value.0
    decreases |s|
  {
    if s[0] == '"' {
      pieces := [];
      assert s == "\"" + s[1..];
    } else {
      var piece, tail := if s[0] != '\\' then Itself(s[0]) else Escape(s[1]), if s[0] != '\\' then s[1..] else s[2..];
      assert s == PieceText(piece) + tail;
      assert LegalPiece(piece) && PChars(tail).Some? by {
        LegalNext(s);
      }
      hide PChars, LegalPieces, Closed, Means, LegalPiece, PieceText, LetterMeans;
      PieceReads(piece, tail);
      var more := CharsSound(tail);
      pieces := [piece] + more;
      PieceOn(piece, more, PChars(s).value.1);
    }
  }

  lemma LegalNext(s: string)
    requires PChars(s).Some? && s[0] != '"'
    ensures if s[0] != '\\' then LegalPiece(Itself(s[0])) && PChars(s[1..]).Some?
            else |s| > 1 && LegalPiece(Escape(s[1])) && PChars(s[2..]).Some?
  {
  }

  lemma {:induction false} CharsRead(pieces: seq<Piece>, rest: string)
    requires LegalPieces(pieces)
    ensures PChars(Closed(pieces, rest)) == Some((Means(pieces), rest))
  {
    if pieces == [] {
      assert ("\"" + rest)[1..] == rest;
    } else {
      var piece, tail := pieces[0], pieces[1..];
      assert pieces == [piece] + tail;
      hide PChars, LegalPieces, Closed, Means, LegalPiece, PieceText, LetterMeans;
      PieceOn(piece, tail, rest);
      CharsRead(tail, rest);
      PieceReads(piece, Closed(tail, rest));
    }
  }

  lemma FiguresSound(s: string)
    requires PNumber(s).Some?
    ensures var (value, rest) := PNumber(s).value;
            var digits := s[..|s| - |rest|];
            && s == digits + rest && digits != "" && (forall i | 0 <= i < |digits| :: '0' <= digits[i] <= '9')
            && value == Number(Worth(digits)) && Worth(digits) < 0x1_0000_0000_0000_0000
            && (rest == "" || !('0' <= rest[0] <= '9'))
  {
    var n := DigitRun(s);
    RunOfDigits(s);
    WorthIsDecimal(s[..n]);
    assert |s| - |s[n..]| == n;
  }

  lemma {:induction false} RunOfDigits(s: string)
    ensures var n := DigitRun(s);
            && (forall i | 0 <= i < n :: Digit(s[i])) && (n < |s| ==> !Digit(s[n]))
  {
    if s != "" && Digit(s[0]) {
      RunOfDigits(s[1..]);
    }
  }

  lemma FiguresRead(digits: string, rest: string)
    requires digits != "" && (forall i | 0 <= i < |digits| :: '0' <= digits[i] <= '9')
    requires Worth(digits) < 0x1_0000_0000_0000_0000 && (rest == "" || !('0' <= rest[0] <= '9'))
    ensures PValue(digits + rest) == Some((Number(Worth(digits)), rest))
  {
    hide Worth, Decimal, DigitRun;
    var s := digits + rest;
    assert forall i | 0 <= i < |digits| :: Digit(digits[i]);
    DigitRunIs(digits, rest);
    WorthIsDecimal(digits);
    assert s[..|digits|] == digits && s[|digits|..] == rest && s[0] == digits[0];
    assert PValue(s) == PNumber(s);
  }

  lemma SpellingRead(value: Json, rest: string)
    requires value.Null? || value.Bool?
    ensures PValue(Spelling(value) + rest) == Some((value, rest))
  {
    var s := Spelling(value) + rest;
    assert s[|Spelling(value)|..] == rest && Spelling(value) <= s;
    match value
    case Null => assert s[0] == 'n';
    case Bool(b) => assert s[0] == if b then 't' else 'f';
  }

  // Everything accepted is a text of the grammar.

  lemma {:induction false} ValueSound(s: string) returns (node: Node)
    requires PValue(s).Some?
    ensures var (value, rest) := PValue(s).value;
            Legal(node) && s == NodeText(node, rest) && NodeValue(node) == value && Ends(node, rest)
    decreases |s|, 1
  {
    hide PString, PLiteral, PNumber, PObject, PArray, Legal, NodeText, NodeValue, White;
    var blank := SkippedWhite(s);
    var t := Skip(s);
    match t[0]
    case '{' =>
      node := ObjectSound(t[1..], blank);
      assert t == "{" + t[1..];
    case '[' =>
      node := ArraySound(t[1..], blank);
      assert t == "[" + t[1..];
    case '"' => node := StringSound(t, blank);
    case 't' => node := WordSound(t, Bool(true), blank);
    case 'f' => node := WordSound(t, Bool(false), blank);
    case 'n' => node := WordSound(t, Null, blank);
    case _ => node := NumberSound(t, blank);
  }

  /** A string whose opening quote is next. */
  lemma StringSound(t: string, blank: string) returns (node: Node)
    requires PString(t).Some? && t != "" && t[0] == '"' && White(blank)
    ensures var (value, rest) := PString(t).value;
            Legal(node) && !node.Figures? && blank + t == NodeText(node, rest) && NodeValue(node) == String(value)
  {
    hide PChars, Closed, Means, LegalPieces, White;
    var pieces := CharsSound(t[1..]);
    node := Quote(blank, pieces);
    assert t == "\"" + t[1..];
  }

  lemma WordSound(t: string, value: Json, blank: string) returns (node: Node)
    requires (value.Null? || value.Bool?) && White(blank) && PLiteral(t, Spelling(value), value).Some?
    ensures var (read, rest) := PLiteral(t, Spelling(value), value).value;
            Legal(node) && !node.Figures? && blank + t == NodeText(node, rest) && NodeValue(node) == read
  {
    hide White;
    node := Word(blank, value);
    assert t == Spelling(value) + t[|Spelling(value)|..];
  }

  lemma NumberSound(t: string, blank: string) returns (node: Node)
    requires PNumber(t).Some? && White(blank)
    ensures var (value, rest) := PNumber(t).value;
            Legal(node) && blank + t == NodeText(node, rest) && NodeValue(node) == value && Ends(node, rest)
  {
    hide White, Worth, PNumber;
    FiguresSound(t);
    node := Figures(blank, t[..|t| - |PNumber(t).value.1|]);
  }

  lemma {:induction false} ArraySound(s: string, blank: string) returns (node: Node)
    requires PArray(s).Some? && White(blank)
    ensures var (value, rest) := PArray(s).value;
            Legal(node) && node.blank == blank && !node.Figures? && blank + ("[" + s) == NodeText(node, rest)
            && NodeValue(node) == value
    decreases |s|, 3
  {
    hide PItems;
    if Eat(s, ']').Some? {
      var inner := EatenAfterWhite(s, ']');
      node := NoElements(blank, inner);
    } else {
      var e := ItemsSound(s, []);
      node := Bracketed(blank, e);
      assert [] + Values(e) == Values(e);
    }
  }

  lemma {:induction false} ItemsSound(s: string, seen: seq<Json>) returns (e: Elements)
    requires PItems(s, seen).Some?
    ensures var (value, rest) := PItems(s, seen).value;
            LegalElements(e) && s == ElementsText(e, rest) && value == Array(seen + Values(e))
    decreases |s|, 2
  {
    hide PValue;
    var node := ValueSound(s);
    var (item, left) := PValue(s).value;
    if Eat(left, ']').Some? {
      var after := EatenAfterWhite(left, ']');
      e := Last(node, after);
    } else {
      var after := EatenAfterWhite(left, ',');
      var tail := ItemsSound(Eat(left, ',').value, seen + [item]);
      e := More(node, after, tail);
      assert seen + [item] + Values(tail) == seen + ([item] + Values(tail));
    }
  }

  lemma {:induction false} ObjectSound(s: string, blank: string) returns (node: Node)
    requires PObject(s).Some? && White(blank)
    ensures var (value, rest) := PObject(s).value;
            Legal(node) && node.blank == blank && !node.Figures? && blank + ("{" + s) == NodeText(node, rest)
            && NodeValue(node) == value
    decreases |s|, 1
  {
    hide PMembers;
    if Eat(s, '}').Some? {
      var inner := EatenAfterWhite(s, '}');
      node := NoMembers(blank, inner);
    } else {
      var none: map<string, Json> := map[];
      assert none.Keys == {};
      var m := MembersSound(s, none);
      node := Braced(blank, m);
    }
  }

  lemma {:induction false} MembersSound(s: string, seen: map<string, Json>) returns (m: Members)
    requires PMembers(s, seen).Some?
    ensures var (value, rest) := PMembers(s, seen).value;
            LegalMembers(m, seen.Keys) && s == MembersText(m, rest) && value == Object(Gathered(m, seen))
    decreases |s|, 0
  {
    hide PValue, PChars, Closed;
    var before := EatenAfterWhite(s, '"');
    var key := CharsSound(Eat(s, '"').value);
    var (name, afterKey) := PString(s).value;
    var colon := EatenAfterWhite(afterKey, ':');
    var node := ValueSound(Eat(afterKey, ':').value);
    var (value, left) := PValue(Eat(afterKey, ':').value).value;
    var now := seen[name := value];
    assert now.Keys == seen.Keys + {name};
    if Eat(left, '}').Some? {
      var after := EatenAfterWhite(left, '}');
      m := LastEntry(Entry(before, key, colon, node, after));
    } else {
      var after := EatenAfterWhite(left, ',');
      var tail := MembersSound(Eat(left, ',').value, now);
      m := MoreEntries(Entry(before, key, colon, node, after), tail);
    }
  }

  // Every text of the grammar is accepted.

  lemma EatAt(blank: string, expected: char, rest: string)
    requires White(blank) && !Space(expected)
    ensures Eat(blank + ([expected] + rest), expected) == Some(rest)
    ensures forall c | c != expected :: Eat(blank + ([expected] + rest), c).None?
  {
    WhiteIsBlank(blank);
    SkipBlank(blank, [expected] + rest);
    assert ([expected] + rest)[1..] == rest;
  }

  /** After its white space a value starts with none of the closing brackets. */
  lemma ValueStarts(node: Node, rest: string)
    requires Legal(node)
    ensures Eat(NodeText(node, rest), ']').None? && Eat(NodeText(node, rest), '}').None?
  {
    hide Closed, ElementsText, MembersText;
    var core := NodeText(node, rest)[|node.blank|..];
    WhiteIsBlank(node.blank);
    SkipBlank(node.blank, core);
    assert NodeText(node, rest) == node.blank + core;
  }

  lemma {:induction false} ValueRead(node: Node, rest: string)
    requires Legal(node) && Ends(node, rest)
    ensures PValue(NodeText(node, rest)) == Some((NodeValue(node), rest))
    decreases node
  {
    hide PValue, PChars, Closed, Worth, ElementsText, MembersText;
    WhiteIsBlank(node.blank);
    var core := NodeText(node, rest)[|node.blank|..];
    assert NodeText(node, rest) == node.blank + core;
    ValueAfterBlank(node.blank, core);
    match node
    case Word(_, value) => SpellingRead(value, rest);
    case Figures(_, digits) => FiguresRead(digits, rest);
    case Quote(_, pieces) =>
      CharsRead(pieces, rest);
      QuoteRead(Closed(pieces, rest));
    case NoElements(_, inner) =>
      BracketRead(inner + ("]" + rest));
      EatAt(inner, ']', rest);
    case Bracketed(_, elements) =>
      BracketRead(ElementsText(elements, rest));
      ElementsStart(elements, rest);
      ElementsRead(elements, [], rest);
      assert [] + Values(elements) == Values(elements);
    case NoMembers(_, inner) =>
      BraceRead(inner + ("}" + rest));
      EatAt(inner, '}', rest);
    case Braced(_, members) =>
      BraceRead(MembersText(members, rest));
      MembersStart(members, rest);
      var none: map<string, Json> := map[];
      assert none.Keys == {};
      MembersRead(members, none, rest);
  }

  lemma QuoteRead(s: string)
    ensures PValue("\"" + s) == if PChars(s).None? then None else Some((String(PChars(s).value.0), PChars(s).value.1))
  {
    hide PChars;
    assert ("\"" + s)[1..] == s;
  }

  lemma BracketRead(s: string)
    ensures PValue("[" + s) == PArray(s)
  {
    hide PArray;
    assert ("[" + s)[1..] == s;
  }

  lemma BraceRead(s: string)
    ensures PValue("{" + s) == PObject(s)
  {
    hide PObject;
    assert ("{" + s)[1..] == s;
  }

  lemma ElementsStart(e: Elements, rest: string)
    requires LegalElements(e)
    ensures Eat(ElementsText(e, rest), ']').None?
  {
    hide NodeText;
    match e
    case Last(node, after) => ValueStarts(node, after + ("]" + rest));
    case More(node, after, tail) => ValueStarts(node, after + ("," + ElementsText(tail, rest)));
  }

  lemma MembersStart(m: Members, rest: string)
    requires LegalEntry(m.entry)
    ensures Eat(MembersText(m, rest), '}').None?
  {
    hide NodeText, Closed;
    var next := if m.LastEntry? then "}" + rest else "," + MembersText(m.tail, rest);
    var entry := m.entry;
    EatAt(entry.before, '"', Closed(entry.key, entry.colon + (":" + NodeText(entry.node, entry.after + next))));
  }

  /** What follows an element or an entry ends any number. */
  lemma AfterEnds(node: Node, after: string, mark: char, rest: string)
    requires White(after) && mark in {',', ']', '}'}
    ensures Ends(node, after + ([mark] + rest))
  {
  }

  lemma {:induction false} ElementsRead(e: Elements, seen: seq<Json>, rest: string)
    requires LegalElements(e)
    ensures PItems(ElementsText(e, rest), seen) == Some((Array(seen + Values(e)), rest))
    decreases e
  {
    hide PValue, NodeText, Legal;
    match e
    case Last(node, after) =>
      AfterEnds(node, after, ']', rest);
      ValueRead(node, after + ("]" + rest));
      EatAt(after, ']', rest);
    case More(node, after, tail) =>
      var next := ElementsText(tail, rest);
      AfterEnds(node, after, ',', next);
      ValueRead(node, after + ("," + next));
      EatAt(after, ',', next);
      ElementsRead(tail, seen + [NodeValue(node)], rest);
      assert seen + [NodeValue(node)] + Values(tail) == seen + ([NodeValue(node)] + Values(tail));
  }

  /** The key, the colon and the value of an entry. */
  lemma {:induction false} EntryRead(entry: Entry, mark: char, rest: string)
    requires LegalEntry(entry) && mark in {',', '}'}
    ensures var key := PString(EntryText(entry, [mark] + rest));
            && key.Some? && key.value.0 == Means(entry.key) && Eat(key.value.1, ':').Some?
            && PValue(Eat(key.value.1, ':').value) == Some((NodeValue(entry.node), entry.after + ([mark] + rest)))
    decreases entry, 0
  {
    hide PValue, NodeText, Legal, PChars, Closed, Means;
    var value := NodeText(entry.node, entry.after + ([mark] + rest));
    EatAt(entry.before, '"', Closed(entry.key, entry.colon + (":" + value)));
    CharsRead(entry.key, entry.colon + (":" + value));
    EatAt(entry.colon, ':', value);
    AfterEnds(entry.node, entry.after, mark, rest);
    ValueRead(entry.node, entry.after + ([mark] + rest));
  }

  lemma {:induction false} MembersRead(m: Members, seen: map<string, Json>, rest: string)
    requires LegalMembers(m, seen.Keys)
    ensures PMembers(MembersText(m, rest), seen) == Some((Object(Gathered(m, seen)), rest))
    decreases m
  {
    hide PValue, PString, EntryText, LegalEntry;
    var now := seen[Means(m.entry.key) := NodeValue(m.entry.node)];
    assert now.Keys == seen.Keys + {Means(m.entry.key)};
    match m
    case LastEntry(entry) =>
      EntryRead(entry, '}', rest);
      AfterWhite(entry);
      EatAt(entry.after, '}', rest);
    case MoreEntries(entry, tail) =>
      var next := MembersText(tail, rest);
      EntryRead(entry, ',', next);
      AfterWhite(entry);
      EatAt(entry.after, ',', next);
      MembersRead(tail, now, rest);
  }

  lemma AfterWhite(entry: Entry)
    requires LegalEntry(entry)
    ensures White(entry.after)
  {
  }

  // Both ways.

  /** The text is the tree, with white space behind it. */
  ghost predicate TextOf(text: string, node: Node, end: string) {
    Legal(node) && White(end) && text == NodeText(node, end)
  }

  /** For every text: it is read as the value exactly if it is the text of a tree
      with that value. */
  lemma AcceptsExactly(text: string, value: Json)
    ensures PDocument(text) == Some(value)
       <==> exists node, end :: TextOf(text, node, end) && NodeValue(node) == value
  {
    hide Legal, NodeText, NodeValue, PValue;
    if PDocument(text) == Some(value) {
      var node := ValueSound(text);
      var end := SkippedWhite(PValue(text).value.1);
      assert end + "" == end;
      assert TextOf(text, node, end);
    }
    forall node, end | TextOf(text, node, end) && NodeValue(node) == value ensures PDocument(text) == Some(value) {
      WhiteEnds(node, end);
      ValueRead(node, end);
      WhiteIsBlank(end);
      SkipBlank(end, "");
      assert end + "" == end;
    }
  }

  lemma WhiteEnds(node: Node, end: string)
    requires White(end)
    ensures Ends(node, end)
  {
  }
}
