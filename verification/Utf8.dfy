/** The UTF-8 check of the wire protocol against the grammar of section 4 of RFC 3629. */
module Utf8 {
  import opened Bytes

  predicate Tail(b: u8) {
    0x80 <= b <= 0xBF
  }

  /** One character of the grammar: UTF8-1, UTF8-2, UTF8-3 or UTF8-4. */
  predicate Character(s: seq<u8>) {
    || (|s| == 1 && s[0] <= 0x7F)
    || (|s| == 2 && 0xC2 <= s[0] <= 0xDF && Tail(s[1]))
    || (|s| == 3 && Tail(s[2])
          && (|| (s[0] == 0xE0 && 0xA0 <= s[1] <= 0xBF)
              || (0xE1 <= s[0] <= 0xEC && Tail(s[1]))
              || (s[0] == 0xED && 0x80 <= s[1] <= 0x9F)
              || (0xEE <= s[0] <= 0xEF && Tail(s[1]))))
    || (|s| == 4 && Tail(s[2]) && Tail(s[3])
          && (|| (s[0] == 0xF0 && 0x90 <= s[1] <= 0xBF)
              || (0xF1 <= s[0] <= 0xF3 && Tail(s[1]))
              || (s[0] == 0xF4 && 0x80 <= s[1] <= 0x8F)))
  }

  /** UTF8-octets: any number of characters one after the other. */
  predicate WellFormed(s: seq<u8>) {
    s == [] || exists n | 1 <= n <= |s| :: Character(s[..n]) && WellFormed(s[n..])
  }

  /** The first byte alone decides how long a character is. */
  lemma CharacterLengthIsFixed(s: seq<u8>, m: nat, n: nat)
    requires m <= |s| && n <= |s| && Character(s[..m]) && Character(s[..n])
    ensures m == n
  {
    assert s[..m][0] == s[0] == s[..n][0];
  }

  lemma SkipCharacter(s: seq<u8>, n: nat)
    requires n <= |s| && Character(s[..n])
    ensures WellFormed(s) <==> WellFormed(s[n..])
  {
    if WellFormed(s) {
      var m :| 1 <= m <= |s| && Character(s[..m]) && WellFormed(s[m..]);
      CharacterLengthIsFixed(s, m, n);
    }
  }

  lemma {:induction false} AsciiIsWellFormed(s: seq<u8>)
    requires forall i | 0 <= i < |s| :: s[i] <= 0x7F
    ensures WellFormed(s)
  {
    if s != [] {
      AsciiIsWellFormed(s[1..]);
      assert Character(s[..1]);
    }
  }

  /** How many continuation bytes the lead byte announces; -1 when it is none. */
  function Continuation(c: u8): int {
    if c / 0x20 == 0x06 then 1 else if c / 0x10 == 0x0E then 2 else if c / 0x08 == 0x1E then 3 else -1
  }

  /** The code point after the lead byte and n continuation bytes. */
  function Codepoint(s: seq<u8>, n: nat): nat
    requires n < |s|
  {
    if n > 0 then Codepoint(s, n - 1) * 64 + s[n] % 0x40
    else if s[0] / 0x20 == 0x06 then s[0] % 0x20 else if s[0] / 0x10 == 0x0E then s[0] % 0x10 else s[0] % 0x08
  }

  predicate InRange(continuation: int, codepoint: nat) {
    !(|| (continuation == 1 && codepoint < 0x80)
      || (continuation == 2 && codepoint < 0x800)
      || (continuation == 3 && codepoint < 0x1_0000)
      || codepoint > 0x10_FFFF
      || 0xD800 <= codepoint <= 0xDFFF)
  }

  lemma DecodedOfTwo(s: seq<u8>)
    requires |s| == 2 && Continuation(s[0]) == 1 && Tail(s[1])
    ensures Character(s) <==> InRange(1, Codepoint(s, 1))
  {
    assert Codepoint(s, 1) == Codepoint(s, 0) * 64 + s[1] % 0x40;
  }

  lemma DecodedOfThree(s: seq<u8>)
    requires |s| == 3 && Continuation(s[0]) == 2 && Tail(s[1]) && Tail(s[2])
    ensures Character(s) <==> InRange(2, Codepoint(s, 2))
  {
    assert Codepoint(s, 2) == (Codepoint(s, 0) * 64 + s[1] % 0x40) * 64 + s[2] % 0x40 by {
      assert Codepoint(s, 1) == Codepoint(s, 0) * 64 + s[1] % 0x40;
    }
  }

  lemma DecodedOfFour(s: seq<u8>)
    requires |s| == 4 && Continuation(s[0]) == 3 && Tail(s[1]) && Tail(s[2]) && Tail(s[3])
    ensures Character(s) <==> InRange(3, Codepoint(s, 3))
  {
    assert Codepoint(s, 3) == ((Codepoint(s, 0) * 64 + s[1] % 0x40) * 64 + s[2] % 0x40) * 64 + s[3] % 0x40 by {
      assert Codepoint(s, 1) == Codepoint(s, 0) * 64 + s[1] % 0x40;
      assert Codepoint(s, 2) == Codepoint(s, 1) * 64 + s[2] % 0x40;
    }
  }

  /** For a lead byte followed by the continuation bytes it announces, the
      grammar and the range test on the code point agree. */
  lemma DecodedCharacter(s: seq<u8>)
    requires s != [] && Continuation(s[0]) > 0 && |s| == Continuation(s[0]) + 1
    requires forall k | 1 <= k < |s| :: Tail(s[k])
    ensures Character(s) <==> InRange(Continuation(s[0]), Codepoint(s, Continuation(s[0])))
  {
    hide Character, InRange, Codepoint;
    match |s|
    case 2 => DecodedOfTwo(s);
    case 3 => DecodedOfThree(s);
    case _ => DecodedOfFour(s);
  }

  /** A character after the first, ASCII, range has as many continuation bytes
      as its lead byte announces. */
  lemma CharacterShape(s: seq<u8>)
    requires s != [] && s[0] > 0x7F
    ensures Character(s) ==>
              && Continuation(s[0]) > 0 && |s| == Continuation(s[0]) + 1
              && s[0] != 0xC0 && (Continuation(s[0]) == 3 ==> s[0] % 0x08 <= 4)
              && forall k | 1 <= k < |s| :: Tail(s[k])
  {
  }

  /** When no prefix that the lead byte announces is a character, none is. */
  lemma Malformed(s: seq<u8>)
    requires s != [] && s[0] > 0x7F
    requires var n := Continuation(s[0]) + 1;
             || n == 0 || n > |s| || !Character(s[..n])
    ensures !WellFormed(s)
  {
    forall n | 1 <= n <= |s| ensures !Character(s[..n]) {
      assert s[..n][0] == s[0];
      CharacterShape(s[..n]);
    }
  }

  /** Lead bytes the program turns away before it looks at the next byte. */
  lemma BadLead(s: seq<u8>)
    requires s != [] && (s[0] == 0xC0 || (Continuation(s[0]) == 3 && s[0] % 0x08 > 4))
    ensures !WellFormed(s)
  {
    var n := Continuation(s[0]) + 1;
    if n <= |s| {
      assert s[..n][0] == s[0];
      CharacterShape(s[..n]);
    }
    Malformed(s);
  }

  /** `validUtf8`.  The bit masks of the program are divisions and remainders
      by powers of two here. */
  method Validate(text: seq<u8>) returns (valid: bool)
    ensures valid <==> WellFormed(text)
  {
    var i := 0;
    while i < |text|
      invariant 0 <= i <= |text|
      invariant WellFormed(text) <==> WellFormed(text[i..])
    {
      ghost var here := text[i..];
      var c := text[i];
      i := i + 1;
      if c <= 0x7F {
        assert Character(here[..1]);
        SkipCharacter(here, 1);
        assert here[1..] == text[i..];
      } else {
        i, valid := ValidateLong(text, i);
        if !valid {
          return false;
        }
      }
    }
    return true;
  }

  /** The rest of the loop body: a character of several bytes whose lead byte
      stands just before i. */
  method ValidateLong(text: seq<u8>, i: nat) returns (next: nat, valid: bool)
    requires 0 < i <= |text| && text[i - 1] > 0x7F
    ensures valid ==> i <= next <= |text| && (WellFormed(text[i - 1..]) <==> WellFormed(text[next..]))
    ensures !valid ==> !WellFormed(text[i - 1..])
  {
    hide WellFormed, Character, InRange;
    ghost var here := text[i - 1..];
    var c := text[i - 1];
    next := i;
    var continuation := 0;
    var codepoint: nat := 0;
    if c / 0x20 == 0x06 {
      continuation, codepoint := 1, c % 0x20;
      if codepoint == 0 {
        BadLead(here);
        return next, false;
      }
    } else if c / 0x10 == 0x0E {
      continuation, codepoint := 2, c % 0x10;
    } else if c / 0x08 == 0x1E {
      continuation, codepoint := 3, c % 0x08;
      if codepoint > 4 {
        BadLead(here);
        return next, false;
      }
    } else {
      Malformed(here);
      return next, false;
    }
    if i + continuation > |text| {
      Malformed(here);
      return next, false;
    }
    ghost var character := here[..continuation + 1];
    for n := 0 to continuation
      invariant next == i + n
      invariant forall k | 1 <= k <= n :: Tail(character[k])
      invariant codepoint == Codepoint(character, n)
    {
      var byte := text[next];
      next := next + 1;
      assert byte == character[n + 1];
      if byte / 0x40 != 0x02 {
        assert !Tail(character[n + 1]);
        CharacterShape(character);
        Malformed(here);
        return next, false;
      }
      codepoint := codepoint * 64 + byte % 0x40;
    }
    DecodedCharacter(character);
    if !InRange(continuation, codepoint) {
      Malformed(here);
      return next, false;
    }
    SkipCharacter(here, continuation + 1);
    assert here[continuation + 1..] == text[next..];
    valid := true;
  }
}
