/** Windows command lines: how the program builds one, and how a C program
    takes it apart by the rules of "Parsing C command-line arguments". */
module CommandLine {

  // Building.

  predicate NeedsQuotes(c: char) {
    c in {' ', '\t', '\n', '\U{B}', '"'}
  }

  function Slashes(n: nat): (s: string)
    ensures |s| == n
  {
    seq(n, _ => '\\')
  }

  /** The quoted form of what is left of an argument, after n backslashes whose
      fate is still open, with the closing quote. */
  function Body(s: string, n: nat): string {
    if s == "" then Slashes(2 * n) + "\""
    else if s[0] == '\\' then Body(s[1..], n + 1)
    else if s[0] == '"' then Slashes(2 * n + 1) + "\"" + Body(s[1..], 0)
    else Slashes(n) + [s[0]] + Body(s[1..], 0)
  }

  predicate Bare(s: string) {
    s != "" && forall i | 0 <= i < |s| :: !NeedsQuotes(s[i])
  }

  function Quoted(s: string): string {
    if Bare(s) then s else "\"" + Body(s, 0)
  }

  function Tail(arguments: seq<string>): string {
    if arguments == [] then "" else " " + Quoted(arguments[0]) + Tail(arguments[1..])
  }

  function Built(executable: string, arguments: seq<string>): string {
    Quoted(executable) + Tail(arguments)
  }

  lemma SlashesAdd(m: nat, n: nat)
    ensures Slashes(m) + Slashes(n) == Slashes(m + n)
  {
  }

  lemma {:induction false} BodyIsLonger(s: string, n: nat)
    ensures |Body(s, n)| > |s| + n && Body(s, n)[|Body(s, n)| - 1] == '"'
    decreases |s|
  {
    if s != "" {
      BodyIsLonger(s[1..], if s[0] == '\\' then n + 1 else 0);
    }
  }

  /** An argument is left as it is exactly when it is not empty and has no blank, tab,
      line feed, vertical tab or quote; every other one is put between quotes. */
  lemma QuotedWhenNeeded(s: string)
    ensures Quoted(s) == s <==> s != "" && forall c | c in s :: c !in " \t\n\U{B}\""
    ensures Quoted(s) != s ==>
              |Quoted(s)| >= |s| + 2 && Quoted(s)[0] == '"' && Quoted(s)[|Quoted(s)| - 1] == '"'
  {
    BodyIsLonger(s, 0);
    if !Bare(s) && s != "" {
      var i :| 0 <= i < |s| && NeedsQuotes(s[i]);
      assert s[i] in s;
    }
  }

  method QuoteWindowsArgument(argument: string) returns (result: string)
    ensures result == Quoted(argument)
  {
    if argument == "" {
      assert Slashes(0) == "" && "\"" + (Slashes(0) + "\"") == "\"\"";
      return "\"\"";
    }
    var needsQuotes := false;
    for i := 0 to |argument|
      invariant !needsQuotes && forall k | 0 <= k < i :: !NeedsQuotes(argument[k])
    {
      if NeedsQuotes(argument[i]) {
        needsQuotes := true;
        break;
      }
    }
    if !needsQuotes {
      return argument;
    }
    result := "\"";
    var backslashes := 0;
    for i := 0 to |argument|
      invariant result + Body(argument[i..], backslashes) == "\"" + Body(argument, 0)
    {
      assert argument[i..][1..] == argument[i + 1..];
      if argument[i] == '\\' {
        backslashes := backslashes + 1;
        continue;
      }
      if argument[i] == '"' {
        result := result + (Slashes(backslashes * 2 + 1) + "\"");
        backslashes := 0;
        continue;
      }
      result := result + (Slashes(backslashes) + [argument[i]]);
      backslashes := 0;
    }
    assert argument[|argument|..] == "";
    result := result + (Slashes(backslashes * 2) + "\"");
  }

  method BuildWindowsCommandLine(executable: string, arguments: seq<string>) returns (commandLine: string)
    ensures commandLine == Built(executable, arguments)
  {
    hide Quoted;
    commandLine := QuoteWindowsArgument(executable);
    assert arguments[0..] == arguments;
    for i := 0 to |arguments|
      invariant commandLine + Tail(arguments[i..]) == Built(executable, arguments)
    {
      assert arguments[i..][1..] == arguments[i + 1..];
      commandLine := commandLine + " ";
      var quoted := QuoteWindowsArgument(arguments[i]);
      commandLine := commandLine + quoted;
    }
    assert arguments[|arguments|..] == [];
  }

  // Splitting.

  predicate Delimiter(c: char) {
    c == ' ' || c == '\t'
  }

  /** The program name: quotes group and disappear, and nothing escapes them. */
  function Program(s: string, inQuotes: bool): (string, string) {
    if s == "" || (!inQuotes && Delimiter(s[0])) then ("", s)
    else if s[0] == '"' then Program(s[1..], !inQuotes)
    else Before([s[0]], Program(s[1..], inQuotes))
  }

  function Before(prefix: string, r: (string, string)): (string, string) {
    (prefix + r.0, r.1)
  }

  /** An argument, after n backslashes: they are literal unless a quote follows;
      then each pair is one, and an odd one makes the quote literal.  Inside
      quotes a doubled quote is literal, too. */
  function Argument(s: string, n: nat, inQuotes: bool): (r: (string, string))
    ensures |r.1| <= |s|
  {
    if s == "" || (!inQuotes && Delimiter(s[0])) then (Slashes(n), s)
    else if s[0] == '\\' then Argument(s[1..], n + 1, inQuotes)
    else if s[0] == '"' then
      if n % 2 == 1 then Before(Slashes(n / 2) + "\"", Argument(s[1..], 0, inQuotes))
      else if inQuotes && |s| > 1 && s[1] == '"' then Before(Slashes(n / 2) + "\"", Argument(s[2..], 0, inQuotes))
      else Before(Slashes(n / 2), Argument(s[1..], 0, !inQuotes))
    else Before(Slashes(n) + [s[0]], Argument(s[1..], 0, inQuotes))
  }

  /** The arguments; a run of spaces and tabs separates them. */
  function Arguments(s: string): seq<string>
    decreases |s|, 1
  {
    if s == "" then []
    else if Delimiter(s[0]) then Arguments(s[1..])
    else
      ArgumentConsumes(s, 0, false);
      var (argument, rest) := Argument(s, 0, false);
      [argument] + Arguments(rest)
  }

  lemma ArgumentConsumes(s: string, n: nat, inQuotes: bool)
    requires s != "" && (inQuotes || !Delimiter(s[0]))
    ensures |Argument(s, n, inQuotes).1| < |s|
  {
  }

  /** A command line ends at its first NUL. */
  function CString(s: string): string {
    if s == "" || s[0] == '\0' then "" else [s[0]] + CString(s[1..])
  }

  function Split(commandLine: string): seq<string> {
    var (program, rest) := Program(CString(commandLine), false);
    [program] + Arguments(rest)
  }

  // One argument.

  ghost predicate Ends(rest: string) {
    rest == "" || Delimiter(rest[0])
  }

  lemma {:induction false} ReadSlashes(k: nat, n: nat, inQuotes: bool, rest: string)
    ensures Argument(Slashes(k) + rest, n, inQuotes) == Argument(rest, n + k, inQuotes)
    decreases k
  {
    if k == 0 {
      assert Slashes(0) + rest == rest;
    } else {
      ReadSlashes(k - 1, n + 1, inQuotes, rest);
      assert (Slashes(k) + rest)[1..] == Slashes(k - 1) + rest;
    }
  }

  lemma Close(n: nat, rest: string)
    requires Ends(rest)
    ensures Argument("\"" + rest, 2 * n, true) == (Slashes(n), rest)
  {
    assert ("\"" + rest)[1..] == rest;
    assert Argument(rest, 0, false) == (Slashes(0), rest);
    SlashesAdd(n, 0);
  }

  /** A quote after an odd number of backslashes, or any other character. */
  lemma OneCharacter(n: nat, c: char, rest: string)
    requires c != '\\'
    ensures Argument([c] + rest, if c == '"' then 2 * n + 1 else n, true)
         == Before(Slashes(n) + [c], Argument(rest, 0, true))
  {
    assert ([c] + rest)[1..] == rest;
  }

  lemma OneSlash(s: string, n: nat)
    requires s != "" && s[0] == '\\'
    ensures Slashes(n + 1) + s[1..] == Slashes(n) + s
  {
  }

  lemma Resume(s: string, n: nat, tail: string)
    requires s != ""
    ensures Slashes(n) + [s[0]] + (Slashes(0) + s[1..] + tail) == Slashes(n) + s + tail
    ensures Slashes(n) + [s[0]] + (Slashes(0) + s[1..]) == Slashes(n) + s
    ensures Slashes(n) + ([s[0]] + (Slashes(0) + s[1..] + tail)) == Slashes(n) + s + tail
  {
  }

  /** The quoted form of an argument reads back, backslash for backslash. */
  lemma {:induction false} BodyRead(s: string, n: nat, rest: string)
    requires Ends(rest)
    ensures Argument(Body(s, n) + rest, 0, true) == (Slashes(n) + s, rest)
    decreases |s|
  {
    hide Slashes, Argument, Ends;
    if s == "" {
      ReadSlashes(2 * n, 0, true, "\"" + rest);
      assert Body(s, n) + rest == Slashes(2 * n) + ("\"" + rest);
      Close(n, rest);
      assert Slashes(n) + s == Slashes(n);
    } else if s[0] == '\\' {
      BodyRead(s[1..], n + 1, rest);
      OneSlash(s, n);
    } else {
      var more := Body(s[1..], 0) + rest;
      BodyRead(s[1..], 0, rest);
      Resume(s, n, "");
      if s[0] == '"' {
        ReadSlashes(2 * n + 1, 0, true, "\"" + more);
        assert Body(s, n) + rest == Slashes(2 * n + 1) + ("\"" + more);
        OneCharacter(n, '"', more);
      } else {
        ReadSlashes(n, 0, true, [s[0]] + more);
        assert Body(s, n) + rest == Slashes(n) + ([s[0]] + more);
        OneCharacter(n, s[0], more);
      }
    }
  }

  lemma {:induction false} BareRead(s: string, n: nat, rest: string)
    requires Ends(rest) && forall i | 0 <= i < |s| :: !NeedsQuotes(s[i])
    ensures Argument(s + rest, n, false) == (Slashes(n) + s, rest)
    decreases |s|
  {
    if s == "" {
      assert s + rest == rest && Slashes(n) + s == Slashes(n);
    } else {
      assert !NeedsQuotes(s[0]);
      assert (s + rest)[1..] == s[1..] + rest;
      if s[0] == '\\' {
        BareRead(s[1..], n + 1, rest);
        assert Slashes(n + 1) + s[1..] == Slashes(n) + s;
      } else {
        BareRead(s[1..], 0, rest);
        assert Slashes(n) + [s[0]] + (Slashes(0) + s[1..]) == Slashes(n) + s;
      }
    }
  }

  /** Every argument, whatever it holds, is read back from its quoted form. */
  lemma QuotedRead(s: string, rest: string)
    requires Ends(rest)
    ensures Argument(Quoted(s) + rest, 0, false) == (s, rest)
    ensures Quoted(s) != "" && !Delimiter(Quoted(s)[0])
  {
    assert Slashes(0) + s == s;
    if Bare(s) {
      BareRead(s, 0, rest);
      assert !NeedsQuotes(s[0]);
    } else {
      BodyRead(s, 0, rest);
      OpenQuote(Body(s, 0) + rest, s);
      assert Quoted(s) + rest == "\"" + (Body(s, 0) + rest);
    }
  }

  lemma OpenQuote(rest: string, s: string)
    ensures Argument("\"" + rest, 0, false) == Argument(rest, 0, true)
  {
    assert ("\"" + rest)[1..] == rest;
    var r := Argument(rest, 0, true);
    assert Slashes(0) + r.0 == r.0;
  }

  lemma {:induction false} TailRead(arguments: seq<string>)
    ensures Arguments(Tail(arguments)) == arguments && Ends(Tail(arguments))
  {
    if arguments != [] {
      hide Quoted, Argument;
      var rest := Tail(arguments[1..]);
      TailRead(arguments[1..]);
      QuotedRead(arguments[0], rest);
      var s := Quoted(arguments[0]) + rest;
      assert Tail(arguments) == " " + s && (" " + s)[1..] == s;
      assert Arguments(s) == [arguments[0]] + Arguments(rest);
    }
  }

  // The program name.

  /** How many backslashes the quoted form doubles at its end. */
  function Doubled(s: string, n: nat): nat {
    if s == "" then n else if s[0] == '\\' then Doubled(s[1..], n + 1) else Doubled(s[1..], 0)
  }

  lemma {:induction false} DoubledIsTrailing(s: string, n: nat)
    ensures Doubled(s, n) == 0 <==> if s == "" then n == 0 else s[|s| - 1] != '\\'
    decreases |s|
  {
    if s != "" {
      DoubledIsTrailing(s[1..], if s[0] == '\\' then n + 1 else 0);
    }
  }

  lemma ProgramStep(rest: string)
    ensures Program("\\" + rest, true) == Before("\\", Program(rest, true))
    ensures Program("\"" + rest, false) == Program(rest, true)
  {
    assert ("\\" + rest)[1..] == rest && ("\"" + rest)[1..] == rest;
  }

  lemma {:induction false} ProgramSlashes(k: nat, rest: string)
    ensures Program(Slashes(k) + rest, true) == Before(Slashes(k), Program(rest, true))
    decreases k
  {
    hide Program;
    var name := Program(rest, true).0;
    if k == 0 {
      assert Slashes(0) + rest == rest && Slashes(0) + name == name;
    } else {
      ProgramSlashes(k - 1, rest);
      ProgramStep(Slashes(k - 1) + rest);
      assert Slashes(k) + rest == "\\" + (Slashes(k - 1) + rest);
      assert Slashes(k) + name == "\\" + (Slashes(k - 1) + name);
    }
  }

  lemma {:induction false} ProgramBody(s: string, n: nat, rest: string)
    requires Ends(rest) && '"' !in s
    ensures Program(Body(s, n) + rest, true) == (Slashes(n) + s + Slashes(Doubled(s, n)), rest)
    decreases |s|
  {
    hide Slashes;
    if s == "" {
      assert Body(s, n) + rest == Slashes(2 * n) + ("\"" + rest);
      ProgramSlashes(2 * n, "\"" + rest);
      assert ("\"" + rest)[1..] == rest;
      SlashesAdd(n, n);
      assert Slashes(n) + s == Slashes(n) && Slashes(2 * n) + "" == Slashes(2 * n);
    } else if s[0] == '\\' {
      ProgramBody(s[1..], n + 1, rest);
      OneSlash(s, n);
    } else {
      var more := Body(s[1..], 0) + rest;
      ProgramBody(s[1..], 0, rest);
      assert Body(s, n) + rest == Slashes(n) + ([s[0]] + more);
      ProgramSlashes(n, [s[0]] + more);
      assert ([s[0]] + more)[1..] == more;
      Resume(s, n, Slashes(Doubled(s, n)));
    }
  }

  lemma {:induction false} ProgramBare(s: string, rest: string)
    requires Ends(rest) && forall i | 0 <= i < |s| :: !NeedsQuotes(s[i])
    ensures Program(s + rest, false) == (s, rest)
  {
    if s == "" {
      assert s + rest == rest;
    } else {
      assert !NeedsQuotes(s[0]);
      assert (s + rest)[1..] == s[1..] + rest;
      ProgramBare(s[1..], rest);
      assert [s[0]] + s[1..] == s;
    }
  }

  lemma {:induction false} ProgramHasNoQuote(s: string, inQuotes: bool)
    ensures '"' !in Program(s, inQuotes).0
  {
    if !(s == "" || (!inQuotes && Delimiter(s[0]))) {
      ProgramHasNoQuote(s[1..], if s[0] == '"' then !inQuotes else inQuotes);
    }
  }

  /** What the first rule takes a program path for, exactly. */
  predicate SurvivesAsProgram(executable: string) {
    '"' !in executable && (Bare(executable) || executable == "" || executable[|executable| - 1] != '\\')
  }

  lemma ProgramRead(executable: string, rest: string)
    requires Ends(rest)
    ensures Program(Quoted(executable) + rest, false).0 == executable <==> SurvivesAsProgram(executable)
    ensures SurvivesAsProgram(executable) ==> Program(Quoted(executable) + rest, false).1 == rest
  {
    if Bare(executable) {
      ProgramBare(executable, rest);
      forall i | 0 <= i < |executable| ensures executable[i] != '"' {
        assert !NeedsQuotes(executable[i]);
      }
    } else if '"' in executable {
      ProgramHasNoQuote(Quoted(executable) + rest, false);
    } else {
      QuotedProgram(executable, rest);
    }
  }

  lemma QuotedProgram(executable: string, rest: string)
    requires Ends(rest) && !Bare(executable) && '"' !in executable
    ensures Program(Quoted(executable) + rest, false).0 == executable
       <==> executable == "" || executable[|executable| - 1] != '\\'
    ensures Program(Quoted(executable) + rest, false).1 == rest
  {
    hide Bare, Slashes, Body, Doubled;
    var body := Body(executable, 0);
    assert "\"" + body + rest == "\"" + (body + rest);
    assert ("\"" + (body + rest))[1..] == body + rest;
    assert Program("\"" + (body + rest), false) == Program(body + rest, true);
    ProgramBody(executable, 0, rest);
    DoubledIsTrailing(executable, 0);
    var extra := Slashes(Doubled(executable, 0));
    assert Slashes(0) + executable == executable by { assert Slashes(0) == ""; }
    assert executable + extra == executable <==> extra == "" by {
      assert |executable + extra| == |executable| + |extra|;
      assert extra == "" ==> executable + extra == executable;
    }
  }

  // NUL.

  predicate NulFree(s: string) {
    '\0' !in s
  }

  lemma {:induction false} CutAtNul(s: string)
    ensures NulFree(CString(s)) && (NulFree(s) ==> CString(s) == s)
  {
    if s != "" && s[0] != '\0' {
      CutAtNul(s[1..]);
      assert [s[0]] + s[1..] == s;
      assert NulFree(s) ==> NulFree(s[1..]);
    }
  }

  lemma {:induction false} BodyNulFree(s: string, n: nat)
    requires NulFree(s)
    ensures NulFree(Body(s, n))
    decreases |s|
  {
    if s != "" {
      assert s[0] in s && forall c | c in s[1..] :: c in s;
      BodyNulFree(s[1..], if s[0] == '\\' then n + 1 else 0);
    }
  }

  lemma {:induction false} TailNulFree(arguments: seq<string>)
    requires forall i | 0 <= i < |arguments| :: NulFree(arguments[i])
    ensures NulFree(Tail(arguments))
  {
    if arguments != [] {
      TailNulFree(arguments[1..]);
      assert NulFree(arguments[0]);
      BodyNulFree(arguments[0], 0);
    }
  }

  lemma {:induction false} ProgramNulFree(s: string, inQuotes: bool)
    requires NulFree(s)
    ensures NulFree(Program(s, inQuotes).0) && NulFree(Program(s, inQuotes).1)
  {
    if !(s == "" || (!inQuotes && Delimiter(s[0]))) {
      assert s[0] in s && forall c | c in s[1..] :: c in s;
      ProgramNulFree(s[1..], if s[0] == '"' then !inQuotes else inQuotes);
    }
  }

  lemma {:induction false} ArgumentNulFree(s: string, n: nat, inQuotes: bool)
    requires NulFree(s)
    ensures NulFree(Argument(s, n, inQuotes).0) && NulFree(Argument(s, n, inQuotes).1)
    decreases |s|
  {
    if !(s == "" || (!inQuotes && Delimiter(s[0]))) {
      assert s[0] in s && forall c | c in s[1..] :: c in s;
      ArgumentNulFree(s[1..], if s[0] == '\\' then n + 1 else 0, inQuotes);
      ArgumentNulFree(s[1..], 0, !inQuotes);
      if |s| > 1 {
        assert forall c | c in s[2..] :: c in s;
        ArgumentNulFree(s[2..], 0, inQuotes);
      }
    }
  }

  lemma {:induction false} ArgumentsNulFree(s: string)
    requires NulFree(s)
    ensures forall i | 0 <= i < |Arguments(s)| :: NulFree(Arguments(s)[i])
    decreases |s|
  {
    hide Argument;
    if s != "" {
      if Delimiter(s[0]) {
        assert forall c | c in s[1..] :: c in s;
        ArgumentsNulFree(s[1..]);
      } else {
        ArgumentConsumes(s, 0, false);
        ArgumentNulFree(s, 0, false);
        ArgumentsNulFree(Argument(s, 0, false).1);
      }
    }
  }

  lemma SplitNulFree(line: string)
    ensures forall i | 0 <= i < |Split(line)| :: NulFree(Split(line)[i])
  {
    hide Program, Arguments, NulFree, CString;
    CutAtNul(line);
    var (program, rest) := Program(CString(line), false);
    ProgramNulFree(CString(line), false);
    ArgumentsNulFree(rest);
  }

  lemma SplitBuiltNulFree(executable: string, arguments: seq<string>)
    requires NulFree(executable) && forall i | 0 <= i < |arguments| :: NulFree(arguments[i])
    ensures Split(Built(executable, arguments)) == [executable] + arguments <==> SurvivesAsProgram(executable)
  {
    hide Program, Arguments, Quoted, Tail, SurvivesAsProgram, NulFree, CString;
    var line := Built(executable, arguments);
    CutAtNul(line);
    BuiltNulFree(executable, arguments);
    TailRead(arguments);
    ProgramRead(executable, Tail(arguments));
    assert Split(line)[0] == Program(line, false).0;
  }

  /** The round trip: the child process receives exactly the executable and the
      arguments if and only if none of them holds a NUL, and the path of the
      executable holds no quote and, when it has to be quoted, does not end in
      a backslash. */
  lemma SplitBuilt(executable: string, arguments: seq<string>)
    ensures Split(Built(executable, arguments)) == [executable] + arguments
       <==> && SurvivesAsProgram(executable) && NulFree(executable)
            && forall i | 0 <= i < |arguments| :: NulFree(arguments[i])
  {
    hide Split, Built, SurvivesAsProgram, NulFree;
    var list := [executable] + arguments;
    if Split(Built(executable, arguments)) == list {
      SplitNulFree(Built(executable, arguments));
      assert NulFree(list[0]);
      forall i | 0 <= i < |arguments| ensures NulFree(arguments[i]) {
        assert NulFree(list[i + 1]);
      }
    }
    if NulFree(executable) && forall i | 0 <= i < |arguments| :: NulFree(arguments[i]) {
      SplitBuiltNulFree(executable, arguments);
    }
  }

  lemma BuiltNulFree(executable: string, arguments: seq<string>)
    requires NulFree(executable) && forall i | 0 <= i < |arguments| :: NulFree(arguments[i])
    ensures NulFree(Built(executable, arguments))
  {
    TailNulFree(arguments);
    BodyNulFree(executable, 0);
  }

  /** A path that has to be quoted and ends in a backslash: the child process
      sees one backslash more. */
  lemma TrailingBackslashDoubles()
    ensures Split(Built("a \\", [])) == ["a \\\\"] && Split(Built("a \\", [])) != ["a \\"]
  {
    hide Program, Arguments, Body, CString, Slashes, Doubled, NulFree;
    var path := "a \\";
    assert NeedsQuotes(path[1]) && NulFree(path) by {
      assert path == ['a', ' ', '\\'];
      PathIsNulFree(path);
    }
    var line := Built(path, []);
    assert line == "\"" + (Body(path, 0) + "");
    CutAtNul(line);
    BuiltNulFree(path, []);
    ProgramBody(path, 0, "");
    OneIsDoubled(path);
    assert ("\"" + (Body(path, 0) + ""))[1..] == Body(path, 0) + "";
    ProgramStep(Body(path, 0) + "");
    assert Slashes(0) + path + Slashes(1) == "a \\\\";
    NoArguments();
  }

  lemma PathIsNulFree(s: string)
    requires s == ['a', ' ', '\\']
    ensures NulFree(s)
  {
  }

  lemma NoArguments()
    ensures Arguments("") == []
  {
  }

  lemma OneIsDoubled(s: string)
    requires s == ['a', ' ', '\\']
    ensures Doubled(s, 0) == 1 && Slashes(0) == "" && Slashes(1) == "\\"
  {
    var last := s[1..][1..];
    assert s[1..] == [' ', '\\'] && last == ['\\'] && last[1..] == [];
    assert Doubled(last, 0) == Doubled(last[1..], 1) == 1;
    assert Doubled(s, 0) == Doubled(s[1..], 0) == Doubled(last, 0);
  }
}
