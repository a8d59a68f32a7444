/** The lifecycle environment file: one writer and two independently written readers, one
    undoing the escapes with two replacements, the other with a shell-style lexer. */
module EnvironmentFile {
  import opened Results

  const QUOTE: char := '\"'
  const BACKSLASH: char := '\\'

  /** Characters that end a line when text is split into lines. */
  predicate IsBoundary(c: char) {
    var n := c as int;
    || 10 <= n <= 13 || 28 <= n <= 30 || n == 0x85 || n == 0x2028 || n == 0x2029
  }

  predicate Clean(s: string) {
    forall c | c in s :: !IsBoundary(c)
  }

  predicate NoNulOrNewline(s: string) {
    '\0' !in s && '\n' !in s && '\r' !in s
  }

  /** Replace every occurrence, left to right and without overlap. */
  function ReplaceAll(s: string, pattern: string, with: string): string
    requires pattern != ""
  {
    if |s| < |pattern| then s
    else if s[..|pattern|] == pattern then with + ReplaceAll(s[|pattern|..], pattern, with)
    else [s[0]] + ReplaceAll(s[1..], pattern, with)
  }

  // ----- The writer

  function Escape(value: string): string {
    ReplaceAll(ReplaceAll(value, [BACKSLASH], [BACKSLASH, BACKSLASH]), [QUOTE], [BACKSLASH, QUOTE])
  }

  function EnvQuote(value: string): Option<string> {
    if !NoNulOrNewline(value) then None else Some([QUOTE] + Escape(value) + [QUOTE])
  }

  /** One character as the writer puts it down. */
  function EscapeChar(c: char): string {
    if c == BACKSLASH then [BACKSLASH, BACKSLASH]
    else if c == QUOTE then [BACKSLASH, QUOTE]
    else [c]
  }

  function Escaped(value: string): string {
    if value == "" then "" else EscapeChar(value[0]) + Escaped(value[1..])
  }

  function DoubleChar(c: char): string {
    if c == BACKSLASH then [BACKSLASH, BACKSLASH] else [c]
  }

  /** The value with every backslash doubled, and so every run of backslashes even. */
  function Doubled(value: string): string {
    if value == "" then "" else DoubleChar(value[0]) + Doubled(value[1..])
  }

  lemma ReplaceHit(pattern: string, rest: string, with: string)
    requires pattern != ""
    ensures ReplaceAll(pattern + rest, pattern, with) == with + ReplaceAll(rest, pattern, with)
  {
    assert (pattern + rest)[..|pattern|] == pattern && (pattern + rest)[|pattern|..] == rest;
  }

  lemma ReplaceMiss(c: char, rest: string, pattern: string, with: string)
    requires pattern != ""
    requires |pattern| <= |rest| + 1 ==> ([c] + rest)[..|pattern|] != pattern
    ensures ReplaceAll([c] + rest, pattern, with) == [c] + ReplaceAll(rest, pattern, with)
  {
    var s := [c] + rest;
    assert s[1..] == rest;
    if |s| < |pattern| {
      assert ReplaceAll(rest, pattern, with) == rest;
    }
  }

  lemma HeadMiss(c: char, rest: string, pattern: string, with: string)
    requires pattern != "" && pattern[0] != c
    ensures ReplaceAll([c] + rest, pattern, with) == [c] + ReplaceAll(rest, pattern, with)
  {
    assert |pattern| <= |rest| + 1 ==> ([c] + rest)[..|pattern|][0] == c;
    ReplaceMiss(c, rest, pattern, with);
  }

  lemma {:induction false} FirstPassDoubles(value: string)
    ensures ReplaceAll(value, [BACKSLASH], [BACKSLASH, BACKSLASH]) == Doubled(value)
  {
    if value != "" {
      FirstPassDoubles(value[1..]);
      assert value == [value[0]] + value[1..];
      if value[0] == BACKSLASH {
        ReplaceHit([BACKSLASH], value[1..], [BACKSLASH, BACKSLASH]);
      } else {
        ReplaceMiss(value[0], value[1..], [BACKSLASH], [BACKSLASH, BACKSLASH]);
      }
    }
  }

  lemma QuoteStep(c: char, rest: string)
    ensures ReplaceAll(DoubleChar(c) + rest, [QUOTE], [BACKSLASH, QUOTE]) ==
            EscapeChar(c) + ReplaceAll(rest, [QUOTE], [BACKSLASH, QUOTE])
  {
    if c == QUOTE {
      ReplaceHit([QUOTE], rest, [BACKSLASH, QUOTE]);
    } else if c == BACKSLASH {
      var done := ReplaceAll(rest, [QUOTE], [BACKSLASH, QUOTE]);
      HeadMiss(BACKSLASH, [BACKSLASH] + rest, [QUOTE], [BACKSLASH, QUOTE]);
      HeadMiss(BACKSLASH, rest, [QUOTE], [BACKSLASH, QUOTE]);
      assert DoubleChar(c) + rest == [BACKSLASH] + ([BACKSLASH] + rest);
      assert EscapeChar(c) + done == [BACKSLASH] + ([BACKSLASH] + done);
    } else {
      HeadMiss(c, rest, [QUOTE], [BACKSLASH, QUOTE]);
    }
  }

  lemma {:induction false} SecondPassQuotes(value: string)
    ensures ReplaceAll(Doubled(value), [QUOTE], [BACKSLASH, QUOTE]) == Escaped(value)
  {
    if value != "" {
      SecondPassQuotes(value[1..]);
      QuoteStep(value[0], Doubled(value[1..]));
    }
  }

  /** The writer's two replacements escape character by character. */
  lemma EscapeIsCharwise(value: string)
    ensures Escape(value) == Escaped(value)
  {
    FirstPassDoubles(value);
    SecondPassQuotes(value);
  }

  // ----- The reader with two replacements

  function Unescape(inner: string): string {
    ReplaceAll(ReplaceAll(inner, [BACKSLASH, QUOTE], [QUOTE]), [BACKSLASH, BACKSLASH], [BACKSLASH])
  }

  function TwoPassValue(raw: string): Option<string> {
    if |raw| < 2 || raw[0] != QUOTE || raw[|raw| - 1] != QUOTE then None
    else
      var value := Unescape(raw[1..|raw| - 1]);
      if value == "" || !NoNulOrNewline(value) then None else Some(value)
  }

  lemma NoQuoteInFront(value: string)
    ensures Escaped(value) != "" ==> Escaped(value)[0] != QUOTE
  {
    if value != "" {
      assert Escaped(value)[0] == EscapeChar(value[0])[0];
    }
  }

  /** After the first replacement every run of backslashes has even length. */
  lemma {:induction false} FirstUnescape(value: string)
    ensures ReplaceAll(Escaped(value), [BACKSLASH, QUOTE], [QUOTE]) == Doubled(value)
  {
    if value != "" {
      FirstUnescape(value[1..]);
      NoQuoteInFront(value[1..]);
      FirstStep(value[0], Escaped(value[1..]));
    }
  }

  lemma FirstStep(c: char, rest: string)
    requires rest != "" ==> rest[0] != QUOTE
    ensures ReplaceAll(EscapeChar(c) + rest, [BACKSLASH, QUOTE], [QUOTE]) ==
            DoubleChar(c) + ReplaceAll(rest, [BACKSLASH, QUOTE], [QUOTE])
  {
    var pattern, with := [BACKSLASH, QUOTE], [QUOTE];
    if c == QUOTE {
      ReplaceHit(pattern, rest, with);
    } else if c == BACKSLASH {
      var done := ReplaceAll(rest, pattern, with);
      TwoBackslashesStay(rest);
      assert EscapeChar(c) + rest == [BACKSLASH] + ([BACKSLASH] + rest);
      assert DoubleChar(c) + done == [BACKSLASH] + ([BACKSLASH] + done);
    } else {
      HeadMiss(c, rest, pattern, with);
    }
  }

  lemma TwoBackslashesStay(rest: string)
    requires rest != "" ==> rest[0] != QUOTE
    ensures ReplaceAll([BACKSLASH] + ([BACKSLASH] + rest), [BACKSLASH, QUOTE], [QUOTE]) ==
            [BACKSLASH] + ([BACKSLASH] + ReplaceAll(rest, [BACKSLASH, QUOTE], [QUOTE]))
  {
    var pattern, with := [BACKSLASH, QUOTE], [QUOTE];
    assert ([BACKSLASH] + ([BACKSLASH] + rest))[..2][1] == BACKSLASH;
    ReplaceMiss(BACKSLASH, [BACKSLASH] + rest, pattern, with);
    assert rest != "" ==> ([BACKSLASH] + rest)[..2][1] == rest[0];
    ReplaceMiss(BACKSLASH, rest, pattern, with);
  }

  lemma {:induction false} SecondUnescape(value: string)
    ensures ReplaceAll(Doubled(value), [BACKSLASH, BACKSLASH], [BACKSLASH]) == value
  {
    if value != "" {
      var pattern, with := [BACKSLASH, BACKSLASH], [BACKSLASH];
      SecondUnescape(value[1..]);
      if value[0] == BACKSLASH {
        ReplaceHit(pattern, Doubled(value[1..]), with);
      } else {
        assert ([value[0]] + Doubled(value[1..]))[0] != BACKSLASH;
        HeadMiss(value[0], Doubled(value[1..]), pattern, with);
      }
    }
  }

  // ----- The shell-style lexer, in its quoting (POSIX) mode

  datatype LexState = Space | Bare | Quoted(mark: char) | Escaping(within: LexState)

  predicate IsSpace(c: char) {
    c == ' ' || c == '\t' || c == '\r' || c == '\n'
  }

  predicate IsQuote(c: char) {
    c == QUOTE || c == '\''
  }

  function Prepend(token: string, rest: Option<seq<string>>): Option<seq<string>> {
    match rest
    case None => None
    case Some(tokens) => Some([token] + tokens)
  }

  /** The tokens of `s` read from a given state, or nothing on a missing closing quotation
      or a dangling escape.  `quoted` tells that the pending token has had quotes. */
  function Lex(s: string, state: LexState, token: string, quoted: bool): Option<seq<string>>
    decreases |s|
  {
    if s == "" then
      if state.Quoted? || state.Escaping? then None
      else if state.Bare? && (token != "" || quoted) then Some([token])
      else Some([])
    else
      var c, rest := s[0], s[1..];
      match state
      case Space =>
        if IsSpace(c) then Lex(rest, Space, "", false)
        else if c == BACKSLASH then Lex(rest, Escaping(Bare), "", false)
        else if IsQuote(c) then Lex(rest, Quoted(c), "", true)
        else Lex(rest, Bare, [c], false)
      case Bare =>
        if IsSpace(c) then
          if token != "" || quoted then Prepend(token, Lex(rest, Space, "", false)) else Lex(rest, Space, "", false)
        else if IsQuote(c) then Lex(rest, Quoted(c), token, true)
        else if c == BACKSLASH then Lex(rest, Escaping(Bare), token, quoted)
        else Lex(rest, Bare, token + [c], quoted)
      case Quoted(q) =>
        if c == q then Lex(rest, Bare, token, quoted)
        else if c == BACKSLASH && q == QUOTE then Lex(rest, Escaping(state), token, quoted)
        else Lex(rest, state, token + [c], quoted)
      case Escaping(within) =>
        if within.Quoted? && c != BACKSLASH && c != within.mark then Lex(rest, within, token + [BACKSLASH, c], quoted)
        else Lex(rest, within, token + [c], quoted)
  }

  function ShlexValue(raw: string): Option<string> {
    var parsed := Lex(raw, Space, "", false);
    if parsed.None? || |parsed.value| != 1 || parsed.value[0] == "" || '\0' in parsed.value[0] then None
    else Some(parsed.value[0])
  }

  lemma {:induction false} LexEscaped(value: string, token: string)
    ensures Lex(Escaped(value) + [QUOTE], Quoted(QUOTE), token, true) == Some([token + value])
  {
    if value == "" {
      assert Escaped(value) + [QUOTE] == [QUOTE];
      assert [QUOTE][1..] == "";
      assert token + value == token;
    } else {
      var c, rest := value[0], Escaped(value[1..]) + [QUOTE];
      LexEscaped(value[1..], token + [c]);
      assert token + [c] + value[1..] == token + value;
      assert Escaped(value) + [QUOTE] == EscapeChar(c) + rest;
      LexChar(c, rest, token);
    }
  }

  lemma LexChar(c: char, rest: string, token: string)
    ensures Lex(EscapeChar(c) + rest, Quoted(QUOTE), token, true) == Lex(rest, Quoted(QUOTE), token + [c], true)
  {
    var s := EscapeChar(c) + rest;
    if c == BACKSLASH || c == QUOTE {
      assert s[0] == BACKSLASH && s[1..] == [c] + rest;
      assert ([c] + rest)[0] == c && ([c] + rest)[1..] == rest;
    } else {
      assert s[0] == c && s[1..] == rest;
    }
  }

  // ----- Both readers invert the writer, value by value

  datatype Reader = TwoPass | Shlex

  function ReadValue(reader: Reader, raw: string): Option<string> {
    if reader == TwoPass then TwoPassValue(raw) else ShlexValue(raw)
  }

  /** Whatever the writer accepts, both readers read back, except the empty value, which
      both refuse. */
  lemma ValueRoundTrip(reader: Reader, value: string)
    requires NoNulOrNewline(value)
    ensures EnvQuote(value).Some?
    ensures ReadValue(reader, EnvQuote(value).value) == if value == "" then None else Some(value)
  {
    var raw := EnvQuote(value).value;
    EscapeIsCharwise(value);
    if reader == TwoPass {
      assert raw[1..|raw| - 1] == Escaped(value);
      FirstUnescape(value);
      SecondUnescape(value);
    } else {
      LexEscaped(value, "");
      assert raw == [QUOTE] + (Escaped(value) + [QUOTE]);
      assert raw[1..] == Escaped(value) + [QUOTE];
      assert "" + value == value;
    }
  }

  // ----- The file

  /** Length of the first line of a text. */
  function LineLength(text: string): (n: nat)
    ensures n <= |text| && Clean(text[..n]) && (n < |text| ==> IsBoundary(text[n]))
  {
    if text == "" || IsBoundary(text[0]) then 0
    else
      var n := LineLength(text[1..]);
      assert text[..n + 1] == [text[0]] + text[1..][..n];
      n + 1
  }

  /** Split a text at line boundaries; a carriage return and the line feed after it are
      one boundary, and a final boundary opens no further line. */
  function SplitLines(text: string): seq<string>
    decreases |text|
  {
    if text == "" then []
    else
      var n := LineLength(text);
      if n == |text| then [text]
      else
        var skip := if text[n] == '\r' && n + 1 < |text| && text[n + 1] == '\n' then 2 else 1;
        [text[..n]] + SplitLines(text[n + skip..])
  }

  datatype EnvError = LineInvalid | KeyInvalid | ValueInvalid | KeysIncomplete

  type Values = map<string, string>

  function IndexOfEquals(line: string): (n: nat)
    ensures n <= |line| && (n < |line| ==> line[n] == '=') && forall i | 0 <= i < n :: line[i] != '='
  {
    if line == "" || line[0] == '=' then 0 else IndexOfEquals(line[1..]) + 1
  }

  /** Blank lines and comment lines are skipped; the leading characters that stripping
      removes are left to `strips`. */
  function StripLeft(line: string, strips: char -> bool): string {
    if line != "" && strips(line[0]) then StripLeft(line[1..], strips) else line
  }

  predicate IsSkipped(line: string, strips: char -> bool) {
    var stripped := StripLeft(line, strips);
    line == "" || (stripped != "" && stripped[0] == '#')
  }

  /** One line's effect on the values read so far. */
  function ReadLine(reader: Reader, keys: set<string>, strips: char -> bool, line: string, values: Values)
    : Result<Values, EnvError>
  {
    if IsSkipped(line, strips) then Success(values)
    else
      var n := IndexOfEquals(line);
      if n == |line| then Failure(LineInvalid)
      else
        var name := line[..n];
        if name !in keys || name in values then Failure(KeyInvalid)
        else
          match ReadValue(reader, line[n + 1..])
          case None => Failure(ValueInvalid)
          case Some(value) => Success(values[name := value])
  }

  function ReadLines(reader: Reader, keys: set<string>, strips: char -> bool, lines: seq<string>, values: Values)
    : Result<Values, EnvError>
  {
    if lines == [] then Success(values)
    else
      match ReadLine(reader, keys, strips, lines[0], values)
      case Failure(error) => Failure(error)
      case Success(more) => ReadLines(reader, keys, strips, lines[1..], more)
  }

  function ReadText(reader: Reader, keys: set<string>, strips: char -> bool, text: string): Result<Values, EnvError> {
    match ReadLines(reader, keys, strips, SplitLines(text), map[])
    case Failure(error) => Failure(error)
    case Success(values) => if values.Keys == keys then Success(values) else Failure(KeysIncomplete)
  }

  /** The reading loop of all three tools. */
  method ParseEnvironment(reader: Reader, keys: set<string>, strips: char -> bool, text: string)
    returns (r: Result<Values, EnvError>)
    ensures r == ReadText(reader, keys, strips, text)
  {
    var lines := SplitLines(text);
    var values: Values := map[];
    assert lines[0..] == lines;
    for i := 0 to |lines|
      invariant ReadLines(reader, keys, strips, lines, map[]) == ReadLines(reader, keys, strips, lines[i..], values)
    {
      assert lines[i..][1..] == lines[i + 1..];
      var next := ReadLine(reader, keys, strips, lines[i], values);
      if next.Failure? {
        return Failure(next.error);
      }
      values := next.value;
    }
    if values.Keys != keys {
      return Failure(KeysIncomplete);
    }
    return Success(values);
  }

  datatype Setting = Setting(name: string, value: string)

  /** The file text, or nothing when the writer refuses a value. */
  function WriteText(settings: seq<Setting>): Option<string> {
    if settings == [] then Some("")
    else
      match EnvQuote(settings[0].value)
      case None => None
      case Some(raw) =>
        match WriteText(settings[1..])
        case None => None
        case Some(rest) => Some(settings[0].name + "=" + raw + "\n" + rest)
  }

  // ----- The file round trip

  /** A name that the readers take as the key of its line. */
  predicate GoodName(name: string, strips: char -> bool) {
    && name != "" && Clean(name) && '=' !in name && name[0] != '#' && !strips(name[0])
  }

  predicate GoodSettings(settings: seq<Setting>, strips: char -> bool) {
    && (forall s | s in settings :: GoodName(s.name, strips))
    && forall i, j | 0 <= i < j < |settings| :: settings[i].name != settings[j].name
  }

  function KeysOf(settings: seq<Setting>): set<string> {
    set s | s in settings :: s.name
  }

  function Merge(values: Values, settings: seq<Setting>): Values
    decreases |settings|
  {
    if settings == [] then values else Merge(values[settings[0].name := settings[0].value], settings[1..])
  }

  function ValuesOf(settings: seq<Setting>): Values {
    Merge(map[], settings)
  }

  lemma LineEnds(line: string, rest: string)
    requires Clean(line)
    ensures LineLength(line + "\n" + rest) == |line|
  {
    var text := line + "\n" + rest;
    if line != "" {
      assert text[0] == line[0] && text[0] in line;
      assert text[1..] == line[1..] + "\n" + rest;
      LineEnds(line[1..], rest);
    }
  }

  lemma SplitFirst(line: string, rest: string)
    requires Clean(line)
    ensures SplitLines(line + "\n" + rest) == [line] + SplitLines(rest)
  {
    var text := line + "\n" + rest;
    LineEnds(line, rest);
    assert text[..|line|] == line && text[|line| + 1..] == rest;
    assert text[|line|] == '\n';
  }

  lemma EqualsAfterName(name: string, raw: string)
    requires '=' !in name
    ensures IndexOfEquals(name + "=" + raw) == |name|
  {
    var line := name + "=" + raw;
    if name != "" {
      assert line[0] == name[0] && name[0] in name;
      assert line[1..] == name[1..] + "=" + raw;
      EqualsAfterName(name[1..], raw);
    }
  }

  lemma NamedLine(strips: char -> bool, name: string, raw: string)
    requires GoodName(name, strips)
    ensures var line := name + "=" + raw;
            && !IsSkipped(line, strips) && IndexOfEquals(line) == |name| < |line|
            && line[..|name|] == name && line[|name| + 1..] == raw
  {
    var line := name + "=" + raw;
    EqualsAfterName(name, raw);
    assert line[0] == name[0];
    assert StripLeft(line, strips) == line;
  }

  predicate Readable(value: string) {
    value != "" && Clean(value) && '\0' !in value
  }

  lemma {:induction false} EscapedClean(value: string)
    requires Clean(value)
    ensures Clean(Escaped(value))
  {
    if value != "" {
      assert value[0] in value;
      assert forall c | c in value[1..] :: c in value;
      EscapedClean(value[1..]);
    }
  }

  /** One written line reads back as its setting. */
  lemma LineReadsBack(reader: Reader, keys: set<string>, strips: char -> bool, s: Setting, values: Values)
    requires GoodName(s.name, strips) && Readable(s.value) && s.name in keys && s.name !in values
    ensures EnvQuote(s.value).Some?
    ensures var line := s.name + "=" + EnvQuote(s.value).value;
            Clean(line) && ReadLine(reader, keys, strips, line, values) == Success(values[s.name := s.value])
  {
    assert NoNulOrNewline(s.value);
    ValueRoundTrip(reader, s.value);
    var raw := EnvQuote(s.value).value;
    var line := s.name + "=" + raw;
    EscapeIsCharwise(s.value);
    EscapedClean(s.value);
    NamedLine(strips, s.name, raw);
  }

  lemma {:induction false} TextReadsBack(reader: Reader, keys: set<string>, strips: char -> bool,
                                         settings: seq<Setting>, values: Values)
    requires GoodSettings(settings, strips) && KeysOf(settings) <= keys && KeysOf(settings) !! values.Keys
    requires forall s | s in settings :: Readable(s.value)
    ensures WriteText(settings).Some?
    ensures ReadLines(reader, keys, strips, SplitLines(WriteText(settings).value), values) ==
              Success(Merge(values, settings))
  {
    if settings != [] {
      var s, rest := settings[0], settings[1..];
      assert s in settings && s.name in KeysOf(settings);
      RestOfSettings(settings, strips);
      LineReadsBack(reader, keys, strips, s, values);
      TextReadsBack(reader, keys, strips, rest, values[s.name := s.value]);
      var line := s.name + "=" + EnvQuote(s.value).value;
      SplitFirst(line, WriteText(rest).value);
      assert ([line] + SplitLines(WriteText(rest).value))[1..] == SplitLines(WriteText(rest).value);
    }
  }

  lemma RestOfSettings(settings: seq<Setting>, strips: char -> bool)
    requires settings != [] && GoodSettings(settings, strips)
    ensures GoodSettings(settings[1..], strips)
    ensures KeysOf(settings[1..]) == KeysOf(settings) - {settings[0].name}
    ensures forall s | s in settings[1..] :: s in settings
  {
    var rest := settings[1..];
    assert forall s | s in rest :: s in settings;
    forall s | s in rest
      ensures s.name != settings[0].name
    {
      var i :| 0 <= i < |rest| && rest[i] == s;
      assert settings[0].name != settings[i + 1].name;
    }
    assert forall s | s in settings :: s == settings[0] || s in rest;
    assert settings[0] in settings;
  }

  lemma {:induction false} MergeLookup(values: Values, settings: seq<Setting>, strips: char -> bool)
    requires GoodSettings(settings, strips)
    ensures Merge(values, settings).Keys == values.Keys + KeysOf(settings)
    ensures forall s | s in settings :: s.name in Merge(values, settings) && Merge(values, settings)[s.name] == s.value
    ensures forall name | name in values && name !in KeysOf(settings) ::
              name in Merge(values, settings) && Merge(values, settings)[name] == values[name]
    decreases |settings|
  {
    if settings != [] {
      var s, rest := settings[0], settings[1..];
      RestOfSettings(settings, strips);
      MergeLookup(values[s.name := s.value], rest, strips);
      assert s in settings && s.name in KeysOf(settings);
      assert forall r | r in settings :: r == s || r in rest;
    }
  }

  // ----- What readers can return at all

  lemma {:induction false} ReplaceClean(s: string, pattern: string, with: string)
    requires pattern != "" && Clean(s) && Clean(with)
    ensures Clean(ReplaceAll(s, pattern, with))
  {
    if |s| >= |pattern| {
      if s[..|pattern|] == pattern {
        assert forall c | c in s[|pattern|..] :: c in s;
        ReplaceClean(s[|pattern|..], pattern, with);
      } else {
        assert s[0] in s && forall c | c in s[1..] :: c in s;
        ReplaceClean(s[1..], pattern, with);
      }
    }
  }

  predicate AllClean(tokens: seq<string>) {
    forall t | t in tokens :: Clean(t)
  }

  lemma {:induction false} LexClean(s: string, state: LexState, token: string, quoted: bool)
    requires Clean(s) && Clean(token)
    ensures Lex(s, state, token, quoted).Some? ==> AllClean(Lex(s, state, token, quoted).value)
    decreases |s|
  {
    if s != "" {
      var c, rest := s[0], s[1..];
      assert c in s && forall d | d in rest :: d in s;
      match state
      case Space =>
        LexClean(rest, Space, "", false);
        LexClean(rest, Escaping(Bare), "", false);
        LexClean(rest, Quoted(c), "", true);
        LexClean(rest, Bare, [c], false);
      case Bare =>
        LexClean(rest, Space, "", false);
        LexClean(rest, Quoted(c), token, true);
        LexClean(rest, Escaping(Bare), token, quoted);
        LexClean(rest, Bare, token + [c], quoted);
      case Quoted(q) =>
        LexClean(rest, Bare, token, quoted);
        LexClean(rest, Escaping(state), token, quoted);
        LexClean(rest, state, token + [c], quoted);
      case Escaping(within) =>
        LexClean(rest, within, token + [BACKSLASH, c], quoted);
        LexClean(rest, within, token + [c], quoted);
    }
  }

  lemma ReadValueClean(reader: Reader, raw: string)
    requires Clean(raw)
    ensures ReadValue(reader, raw).Some? ==> ReadValue(reader, raw).value != "" && Clean(ReadValue(reader, raw).value)
  {
    if reader == TwoPass {
      if |raw| >= 2 {
        var inner := raw[1..|raw| - 1];
        assert forall c | c in inner :: c in raw;
        ReplaceClean(inner, [BACKSLASH, QUOTE], [QUOTE]);
        ReplaceClean(ReplaceAll(inner, [BACKSLASH, QUOTE], [QUOTE]), [BACKSLASH, BACKSLASH], [BACKSLASH]);
      }
    } else {
      LexClean(raw, Space, "", false);
    }
  }

  predicate CleanValues(values: Values) {
    forall name | name in values :: values[name] != "" && Clean(values[name])
  }

  lemma {:induction false} LinesClean(text: string)
    ensures AllClean(SplitLines(text))
    decreases |text|
  {
    if text != "" {
      var n := LineLength(text);
      if n == |text| {
        assert text[..n] == text;
      } else {
        var skip := if text[n] == '\r' && n + 1 < |text| && text[n + 1] == '\n' then 2 else 1;
        LinesClean(text[n + skip..]);
      }
    }
  }

  lemma {:induction false} ReadLinesClean(reader: Reader, keys: set<string>, strips: char -> bool, lines: seq<string>,
                                          values: Values)
    requires AllClean(lines) && CleanValues(values)
    ensures var r := ReadLines(reader, keys, strips, lines, values); r.Success? ==> CleanValues(r.value)
  {
    if lines != [] {
      var line := lines[0];
      assert line in lines;
      var n := IndexOfEquals(line);
      if n < |line| {
        assert forall c | c in line[n + 1..] :: c in line;
        ReadValueClean(reader, line[n + 1..]);
      }
      var next := ReadLine(reader, keys, strips, line, values);
      if next.Success? {
        assert forall l | l in lines[1..] :: l in lines;
        ReadLinesClean(reader, keys, strips, lines[1..], next.value);
      }
    }
  }

  /** The written file reads back as the settings exactly when no value is empty and none
      contains a line boundary.  The writer lets most of the boundaries through. */
  lemma FileRoundTripIff(reader: Reader, strips: char -> bool, settings: seq<Setting>)
    requires GoodSettings(settings, strips) && WriteText(settings).Some?
    ensures ReadText(reader, KeysOf(settings), strips, WriteText(settings).value) == Success(ValuesOf(settings)) <==>
              forall s | s in settings :: s.value != "" && Clean(s.value)
  {
    WrittenHasNoNul(settings);
    MergeLookup(map[], settings, strips);
    var text := WriteText(settings).value;
    if forall s | s in settings :: s.value != "" && Clean(s.value) {
      TextReadsBack(reader, KeysOf(settings), strips, settings, map[]);
    }
    if ReadText(reader, KeysOf(settings), strips, text) == Success(ValuesOf(settings)) {
      LinesClean(text);
      ReadLinesClean(reader, KeysOf(settings), strips, SplitLines(text), map[]);
      assert CleanValues(ValuesOf(settings));
    }
  }

  lemma {:induction false} WrittenHasNoNul(settings: seq<Setting>)
    requires WriteText(settings).Some?
    ensures forall s | s in settings :: NoNulOrNewline(s.value)
  {
    if settings != [] {
      WrittenHasNoNul(settings[1..]);
      assert forall s | s in settings :: s == settings[0] || s in settings[1..];
    }
  }

  // ----- A written file that the lexing reader does not take

  lemma {:induction false} EscapedSplit(x: string, y: string)
    ensures Escaped(x + y) == Escaped(x) + Escaped(y)
  {
    if x == "" {
      assert x + y == y;
    } else {
      assert (x + y)[0] == x[0] && (x + y)[1..] == x[1..] + y;
      EscapedSplit(x[1..], y);
    }
  }

  lemma {:induction false} LexUnclosed(value: string, token: string)
    ensures Lex(Escaped(value), Quoted(QUOTE), token, true) == None
  {
    if value != "" {
      LexUnclosed(value[1..], token + [value[0]]);
      LexChar(value[0], Escaped(value[1..]), token);
    }
  }

  lemma CutAt(line: string, c: char, rest: string)
    requires Clean(line) && IsBoundary(c)
    ensures LineLength(line + [c] + rest) == |line|
  {
    var text := line + [c] + rest;
    if line != "" {
      assert text[0] == line[0] && text[0] in line;
      assert text[1..] == line[1..] + [c] + rest;
      CutAt(line[1..], c, rest);
    }
  }

  lemma FirstLine(line: string, c: char, rest: string)
    requires Clean(line) && IsBoundary(c)
    ensures SplitLines(line + [c] + rest) != [] && SplitLines(line + [c] + rest)[0] == line
  {
    CutAt(line, c, rest);
    assert (line + [c] + rest)[..|line|] == line;
  }

  lemma ReadNamed(reader: Reader, keys: set<string>, strips: char -> bool, name: string, raw: string, values: Values)
    requires GoodName(name, strips) && ReadValue(reader, raw) == None
    ensures ReadLine(reader, keys, strips, name + "=" + raw, values).Failure?
  {
    NamedLine(strips, name, raw);
  }

  lemma EscapedAround(front: string, c: char, back: string)
    requires IsBoundary(c)
    ensures Escaped(front + ([c] + back)) == Escaped(front) + ([c] + Escaped(back))
  {
    EscapedSplit(front, [c] + back);
    assert ([c] + back)[1..] == back;
  }

  lemma Regrouped(front: string, c: char, back: string)
    ensures front + ([c] + back) == front + [c] + back
  {
  }

  lemma AtIndex(value: string, n: nat)
    requires n < |value|
    ensures value[..n] + ([value[n]] + value[n + 1..]) == value
  {
  }

  lemma CutParts(value: string, n: nat)
    requires n < |value| && IsBoundary(value[n])
    ensures Escape(value) == Escaped(value[..n]) + [value[n]] + Escaped(value[n + 1..])
  {
    EscapeIsCharwise(value);
    AtIndex(value, n);
    EscapedAround(value[..n], value[n], value[n + 1..]);
    Regrouped(Escaped(value[..n]), value[n], Escaped(value[n + 1..]));
  }

  lemma NotClean(value: string)
    requires !Clean(value)
    ensures LineLength(value) < |value|
  {
    assert value[..|value|] == value;
  }

  lemma CutQuoted(value: string) returns (front: string, c: char, back: string)
    requires value != "" && !Clean(value)
    ensures Clean(front) && IsBoundary(c) && Escape(value) == Escaped(front) + [c] + Escaped(back)
  {
    NotClean(value);
    var n := LineLength(value);
    CutParts(value, n);
    front, c, back := value[..n], value[n], value[n + 1..];
  }

  lemma Assemble(name: string, front: string, c: char, back: string, rest: string)
    ensures name + "=" + ([QUOTE] + (front + [c] + back) + [QUOTE]) + "\n" + rest ==
            name + "=" + ([QUOTE] + front) + [c] + (back + [QUOTE] + "\n" + rest)
  {
  }

  lemma EmptyLine(name: string, rest: string)
    requires Clean(name)
    ensures ReadValue(Shlex, [QUOTE, QUOTE]) == None
    ensures var lines := SplitLines(name + "=" + [QUOTE, QUOTE] + "\n" + rest);
            lines != [] && lines[0] == name + "=" + [QUOTE, QUOTE]
  {
    ValueRoundTrip(Shlex, "");
    EscapeIsCharwise("");
    assert EnvQuote("").value == [QUOTE, QUOTE];
    FirstLine(name + "=" + [QUOTE, QUOTE], '\n', rest);
  }

  /** The first line of an unreadable value is the value cut at its first boundary, which
      leaves the quotation open; an empty value is refused as it stands. */
  lemma UnreadableLine(strips: char -> bool, s: Setting, rest: string) returns (raw: string)
    requires GoodName(s.name, strips) && EnvQuote(s.value).Some? && !Readable(s.value)
    ensures ReadValue(Shlex, raw) == None
    ensures var lines := SplitLines(s.name + "=" + EnvQuote(s.value).value + "\n" + rest);
            lines != [] && lines[0] == s.name + "=" + raw
  {
    if s.value == "" {
      raw := [QUOTE, QUOTE];
      EscapeIsCharwise("");
      assert EnvQuote("").value == [QUOTE, QUOTE];
      EmptyLine(s.name, rest);
    } else {
      var front, c, back := CutQuoted(s.value);
      raw := [QUOTE] + Escaped(front);
      EscapedClean(front);
      OpenQuotation(front);
      Assemble(s.name, Escaped(front), c, Escaped(back), rest);
      FirstLine(s.name + "=" + raw, c, Escaped(back) + [QUOTE] + "\n" + rest);
    }
  }

  lemma OpenQuotation(value: string)
    ensures ReadValue(Shlex, [QUOTE] + Escaped(value)) == None
  {
    var raw := [QUOTE] + Escaped(value);
    assert raw[1..] == Escaped(value);
    LexUnclosed(value, "");
  }

  predicate AllReadable(settings: seq<Setting>) {
    forall s | s in settings :: Readable(s.value)
  }

  lemma {:induction false} UnreadableStops(keys: set<string>, strips: char -> bool, settings: seq<Setting>,
                                           values: Values)
    requires GoodSettings(settings, strips) && KeysOf(settings) <= keys && KeysOf(settings) !! values.Keys
    requires WriteText(settings).Some? && !AllReadable(settings)
    ensures ReadLines(Shlex, keys, strips, SplitLines(WriteText(settings).value), values).Failure?
  {
    var s, rest := settings[0], settings[1..];
    assert s in settings && s.name in KeysOf(settings);
    RestOfSettings(settings, strips);
    var after := WriteText(rest).value;
    if Readable(s.value) {
      LineReadsBack(Shlex, keys, strips, s, values);
      assert !AllReadable(rest) by {
        assert forall r | r in settings :: r == s || r in rest;
      }
      UnreadableStops(keys, strips, rest, values[s.name := s.value]);
      var line := s.name + "=" + EnvQuote(s.value).value;
      SplitFirst(line, after);
      assert ([line] + SplitLines(after))[1..] == SplitLines(after);
    } else {
      var raw := UnreadableLine(strips, s, after);
      ReadNamed(Shlex, keys, strips, s.name, raw, values);
    }
  }

  /** The lexing reader takes a written file exactly when every value is readable, and then
      with the written values. */
  lemma ShlexReadsIff(strips: char -> bool, settings: seq<Setting>)
    requires GoodSettings(settings, strips) && WriteText(settings).Some?
    ensures var r := ReadText(Shlex, KeysOf(settings), strips, WriteText(settings).value);
            && (r.Success? <==> AllReadable(settings))
            && (r.Success? ==> r.value == ValuesOf(settings))
  {
    MergeLookup(map[], settings, strips);
    if AllReadable(settings) {
      TextReadsBack(Shlex, KeysOf(settings), strips, settings, map[]);
    } else {
      UnreadableStops(KeysOf(settings), strips, settings, map[]);
    }
  }

  // ----- What the two-pass reader makes of a written file

  predicate AllSkipped(lines: seq<string>, strips: char -> bool) {
    forall line | line in lines :: IsSkipped(line, strips)
  }

  /** An unreadable value that the two-pass reader takes all the same: its first line ends in
      a quotation mark, which the reader takes for the closing one, and every further line is
      blank or a comment. */
  predicate SlipsThrough(value: string, strips: char -> bool) {
    var n := LineLength(value);
    && 0 < n < |value| && value[n - 1] == QUOTE
    && AllSkipped(SplitLines(Escape(value[n + 1..]) + [QUOTE]), strips)
  }

  /** What is then read: the first line, with the backslash of its last escape for a value. */
  function Seen(value: string): string {
    var n := LineLength(value);
    if Readable(value) || n == 0 then value else value[..n - 1] + [BACKSLASH]
  }

  /** Every quotation mark but a final one has a backslash before it. */
  predicate Guarded(text: string) {
    forall i | 0 <= i < |text| && text[i] == QUOTE :: i + 1 == |text| || (i > 0 && text[i - 1] == BACKSLASH)
  }

  lemma {:induction false} EscapedGuarded(value: string)
    ensures Guarded(Escaped(value) + [QUOTE])
  {
    if value != "" {
      var c, rest := value[0], Escaped(value[1..]) + [QUOTE];
      EscapedGuarded(value[1..]);
      NoQuoteInFront(value[1..]);
      assert Escaped(value) + [QUOTE] == EscapeChar(c) + rest;
      GuardedStep(c, rest);
    }
  }

  lemma GuardedStep(c: char, rest: string)
    requires rest != "" && Guarded(rest) && (rest[0] == QUOTE ==> |rest| == 1)
    ensures Guarded(EscapeChar(c) + rest)
  {
    var text, k := EscapeChar(c) + rest, |EscapeChar(c)|;
    forall i | 0 <= i < |text| && text[i] == QUOTE
      ensures i + 1 == |text| || (i > 0 && text[i - 1] == BACKSLASH)
    {
      if i >= k {
        assert text[i] == rest[i - k];
        assert i > k ==> text[i - 1] == rest[i - k - 1];
      }
    }
  }

  /** No line of such a text is read as a setting. */
  lemma GuardedLine(keys: set<string>, strips: char -> bool, line: string, values: Values)
    requires Guarded(line) && !IsSkipped(line, strips)
    ensures ReadLine(TwoPass, keys, strips, line, values).Failure?
  {
    var n := IndexOfEquals(line);
    if n < |line| {
      var raw := line[n + 1..];
      assert raw != "" ==> raw[0] == line[n + 1];
    }
  }

  lemma GuardedCut(text: string, n: nat)
    requires Guarded(text) && n < |text| && IsBoundary(text[n])
    ensures Guarded(text[..n]) && Guarded(text[n + 1..])
  {
    var rest := text[n + 1..];
    forall i | 0 <= i < |rest| && rest[i] == QUOTE
      ensures i + 1 == |rest| || (i > 0 && rest[i - 1] == BACKSLASH)
    {
      assert text[n + 1 + i] == QUOTE && text[n + i] == (if i > 0 then rest[i - 1] else text[n]);
    }
  }

  lemma {:induction false} GuardedLines(text: string)
    requires Guarded(text)
    ensures forall line | line in SplitLines(text) :: Guarded(line)
    decreases |text|
  {
    if text != "" {
      var n := LineLength(text);
      if n == |text| {
        assert text[..n] == text;
      } else {
        GuardedCut(text, n);
        var next := text[n + 1..];
        if text[n] == '\r' && n + 1 < |text| && text[n + 1] == '\n' {
          GuardedCut(next, 0);
          assert next[1..] == text[n + 2..];
          GuardedLines(text[n + 2..]);
        } else {
          GuardedLines(next);
        }
      }
    }
  }

  /** Lines of which none can be read are passed over exactly when all are skipped. */
  lemma {:induction false} SkippedOrRefused(keys: set<string>, strips: char -> bool, lines: seq<string>, values: Values)
    requires forall line | line in lines :: Guarded(line)
    ensures ReadLines(TwoPass, keys, strips, lines, values).Success? <==> AllSkipped(lines, strips)
    ensures var r := ReadLines(TwoPass, keys, strips, lines, values); r.Success? ==> r.value == values
  {
    if lines != [] {
      assert lines[0] in lines;
      assert forall line | line in lines :: line == lines[0] || line in lines[1..];
      if IsSkipped(lines[0], strips) {
        SkippedOrRefused(keys, strips, lines[1..], values);
      } else {
        GuardedLine(keys, strips, lines[0], values);
      }
    }
  }

  lemma {:induction false} ReadJoined(reader: Reader, keys: set<string>, strips: char -> bool, a: seq<string>,
                                      b: seq<string>, values: Values)
    ensures ReadLines(reader, keys, strips, a + b, values) ==
            match ReadLines(reader, keys, strips, a, values)
            case Failure(error) => Failure(error)
            case Success(more) => ReadLines(reader, keys, strips, b, more)
  {
    if a == [] {
      assert a + b == b;
    } else {
      assert (a + b)[0] == a[0] && (a + b)[1..] == a[1..] + b;
      var next := ReadLine(reader, keys, strips, a[0], values);
      if next.Success? {
        ReadJoined(reader, keys, strips, a[1..], b, next.value);
      }
    }
  }

  lemma CutApart(text: string)
    requires LineLength(text) < |text| && text[LineLength(text)] != '\r'
    ensures SplitLines(text) == [text[..LineLength(text)]] + SplitLines(text[LineLength(text) + 1..])
  {
  }

  lemma FirstBoundary(text: string, n: nat)
    requires n < |text| && Clean(text[..n]) && IsBoundary(text[n])
    ensures LineLength(text) == n
  {
    var m := LineLength(text);
    assert forall j | 0 <= j < n :: text[..n][j] == text[j] && text[j] in text[..n];
    assert forall j | 0 <= j < m :: text[..m][j] == text[j] && text[j] in text[..m];
  }

  lemma CutSplits(line: string, c: char, rest: string)
    requires Clean(line) && IsBoundary(c) && c != '\r'
    ensures SplitLines(line + [c] + rest) == [line] + SplitLines(rest)
  {
    var text := line + [c] + rest;
    assert text[..|line|] == line && text[|line|] == c && text[|line| + 1..] == rest;
    FirstBoundary(text, |line|);
    CutApart(text);
  }

  lemma JoinedParts(text: string, rest: string, n: nat)
    requires n < |text|
    ensures var joined := text + "\n" + rest;
            joined[..n] == text[..n] && joined[n] == text[n] && joined[n + 1..] == text[n + 1..] + "\n" + rest
  {
  }

  lemma Regroup(line: string, a: seq<string>, b: seq<string>)
    ensures [line] + a + b == [line] + (a + b)
  {
  }

  /** Text that ends in no boundary is split apart from what follows its line feed. */
  lemma {:induction false} SplitJoined(text: string, rest: string)
    requires text != "" && !IsBoundary(text[|text| - 1]) && '\r' !in text
    ensures SplitLines(text + "\n" + rest) == SplitLines(text) + SplitLines(rest)
    decreases |text|
  {
    var n := LineLength(text);
    if n == |text| {
      assert text[..n] == text;
      SplitFirst(text, rest);
    } else {
      var more := text[n + 1..];
      Remainder(text, n);
      SplitJoined(more, rest);
      JoinedParts(text, rest, n);
      SplitBoth(text, text + "\n" + rest, n);
      Regroup(text[..n], SplitLines(more), SplitLines(rest));
    }
  }

  lemma Remainder(text: string, n: nat)
    requires n < |text| && IsBoundary(text[n]) && !IsBoundary(text[|text| - 1]) && '\r' !in text
    ensures var more := text[n + 1..];
            more != "" && more[|more| - 1] == text[|text| - 1] && '\r' !in more && text[n] != '\r'
  {
    assert forall c | c in text[n + 1..] :: c in text;
    assert text[n] in text;
  }

  lemma SplitBoth(text: string, joined: string, n: nat)
    requires n == LineLength(text) < |text| && text[n] != '\r'
    requires n < |joined| && joined[..n] == text[..n] && joined[n] == text[n]
    ensures SplitLines(text) == [text[..n]] + SplitLines(text[n + 1..])
    ensures SplitLines(joined) == [text[..n]] + SplitLines(joined[n + 1..])
  {
    FirstBoundary(joined, n);
    CutApart(text);
    CutApart(joined);
  }

  lemma {:induction false} LastEscaped(value: string)
    requires value != ""
    ensures Escaped(value) != "" && Escaped(value)[|Escaped(value)| - 1] == value[|value| - 1]
  {
    if |value| > 1 {
      LastEscaped(value[1..]);
    }
  }

  /** A cut value is taken exactly when it ends in a quotation mark, which then counts as the
      closing one and leaves its backslash. */
  lemma CutValue(front: string)
    requires NoNulOrNewline(front)
    ensures var r := TwoPassValue([QUOTE] + Escaped(front));
            if front != "" && front[|front| - 1] == QUOTE then r == Some(front[..|front| - 1] + [BACKSLASH])
            else r == None
  {
    if front != "" && front[|front| - 1] == QUOTE {
      CutAtQuote(front[..|front| - 1]);
      ButLast(front);
    } else {
      EndsOpen(front);
      NotClosed([QUOTE] + Escaped(front));
    }
  }

  lemma ButLast(s: string)
    requires s != ""
    ensures s[..|s| - 1] + [s[|s| - 1]] == s
  {
  }

  lemma EndsOpen(front: string)
    requires front != "" ==> front[|front| - 1] != QUOTE
    ensures var raw := [QUOTE] + Escaped(front); |raw| > 1 ==> raw[|raw| - 1] != QUOTE
  {
    if front != "" {
      LastEscaped(front);
    }
  }

  lemma NotClosed(raw: string)
    requires raw != "" && (|raw| > 1 ==> raw[|raw| - 1] != QUOTE)
    ensures TwoPassValue(raw) == None
  {
  }

  lemma CutAtQuote(kept: string)
    requires NoNulOrNewline(kept)
    ensures TwoPassValue([QUOTE] + Escaped(kept + [QUOTE])) == Some(kept + [BACKSLASH])
  {
    EndsInQuote(kept);
    UnescapeDangling(kept);
    ClosedBy(Escaped(kept));
    assert BACKSLASH in kept + [BACKSLASH];
  }

  lemma ClosedBy(body: string)
    ensures var raw := [QUOTE] + (body + [BACKSLASH, QUOTE]);
            raw[0] == QUOTE && raw[|raw| - 1] == QUOTE && raw[1..|raw| - 1] == body + [BACKSLASH]
  {
  }

  lemma EndsInQuote(kept: string)
    ensures Escaped(kept + [QUOTE]) == Escaped(kept) + [BACKSLASH, QUOTE]
  {
    EscapedSplit(kept, [QUOTE]);
    assert [QUOTE][1..] == "";
    assert Escaped([QUOTE]) == [BACKSLASH, QUOTE];
  }

  lemma {:induction false} FirstDangling(value: string)
    ensures ReplaceAll(Escaped(value) + [BACKSLASH], [BACKSLASH, QUOTE], [QUOTE]) == Doubled(value) + [BACKSLASH]
  {
    if value == "" {
      assert Escaped(value) + [BACKSLASH] == [BACKSLASH];
    } else {
      var rest := Escaped(value[1..]) + [BACKSLASH];
      FirstDangling(value[1..]);
      NoQuoteInFront(value[1..]);
      FirstStep(value[0], rest);
      assert Escaped(value) + [BACKSLASH] == EscapeChar(value[0]) + rest;
    }
  }

  lemma {:induction false} SecondDangling(value: string)
    ensures ReplaceAll(Doubled(value) + [BACKSLASH], [BACKSLASH, BACKSLASH], [BACKSLASH]) == value + [BACKSLASH]
  {
    var pattern, with := [BACKSLASH, BACKSLASH], [BACKSLASH];
    if value == "" {
      assert Doubled(value) + [BACKSLASH] == [BACKSLASH];
    } else {
      var rest := Doubled(value[1..]) + [BACKSLASH];
      SecondDangling(value[1..]);
      assert Doubled(value) + [BACKSLASH] == DoubleChar(value[0]) + rest;
      if value[0] == BACKSLASH {
        ReplaceHit(pattern, rest, with);
      } else {
        HeadMiss(value[0], rest, pattern, with);
      }
    }
  }

  lemma UnescapeDangling(value: string)
    ensures Unescape(Escaped(value) + [BACKSLASH]) == value + [BACKSLASH]
  {
    FirstDangling(value);
    SecondDangling(value);
  }

  lemma {:induction false} EscapedMembers(value: string, c: char)
    requires c != BACKSLASH && c in Escaped(value)
    ensures c in value
  {
    if value != "" && c !in EscapeChar(value[0]) {
      EscapedMembers(value[1..], c);
    }
  }

  /** The lines of an unreadable value that is not empty. */
  lemma CutLines(name: string, value: string, rest: string)
    requires Clean(name) && NoNulOrNewline(value) && LineLength(value) < |value|
    ensures var n := LineLength(value);
            SplitLines(name + "=" + EnvQuote(value).value + "\n" + rest) ==
            [name + "=" + ([QUOTE] + Escaped(value[..n]))]
            + (SplitLines(Escape(value[n + 1..]) + [QUOTE]) + SplitLines(rest))
  {
    hide EnvQuote;
    var n := LineLength(value);
    CutQuote(value, n);
    QuotedLines(name, Escaped(value[..n]), value[n], Escaped(value[n + 1..]), EnvQuote(value).value, rest);
  }

  lemma CutQuote(value: string, n: nat)
    requires NoNulOrNewline(value) && n < |value| && IsBoundary(value[n])
    ensures EnvQuote(value) == Some([QUOTE] + (Escaped(value[..n]) + [value[n]] + Escaped(value[n + 1..])) + [QUOTE])
    ensures Escape(value[n + 1..]) == Escaped(value[n + 1..])
    ensures value[n] != '\r' && '\r' !in Escaped(value[n + 1..]) + [QUOTE]
    ensures Clean(value[..n]) ==> Clean(Escaped(value[..n]))
  {
    CutParts(value, n);
    EscapeIsCharwise(value[n + 1..]);
    NoReturn(value, n);
    if Clean(value[..n]) {
      EscapedClean(value[..n]);
    }
  }

  lemma QuotedLines(name: string, front: string, c: char, back: string, raw: string, rest: string)
    requires Clean(name) && Clean(front) && IsBoundary(c) && c != '\r' && '\r' !in back + [QUOTE]
    requires raw == [QUOTE] + (front + [c] + back) + [QUOTE]
    ensures SplitLines(name + "=" + raw + "\n" + rest) ==
            [name + "=" + ([QUOTE] + front)] + (SplitLines(back + [QUOTE]) + SplitLines(rest))
  {
    Assemble(name, front, c, back, rest);
    CutSplits(name + "=" + ([QUOTE] + front), c, back + [QUOTE] + "\n" + rest);
    SplitJoined(back + [QUOTE], rest);
  }

  lemma NoReturn(value: string, n: nat)
    requires n < |value| && '\r' !in value
    ensures value[n] != '\r' && '\r' !in Escaped(value[n + 1..]) + [QUOTE]
  {
    assert value[n] in value;
    if '\r' in Escaped(value[n + 1..]) {
      EscapedMembers(value[n + 1..], '\r');
    }
  }

  /** The first of those lines. */
  lemma CutLine(keys: set<string>, strips: char -> bool, name: string, value: string, values: Values)
    requires GoodName(name, strips) && name in keys && name !in values
    requires NoNulOrNewline(value) && LineLength(value) < |value|
    ensures var n := LineLength(value);
            var r := ReadLine(TwoPass, keys, strips, name + "=" + ([QUOTE] + Escaped(value[..n])), values);
            && (r.Success? <==> n > 0 && value[n - 1] == QUOTE)
            && (r.Success? ==> r.value == values[name := Seen(value)])
  {
    var n := LineLength(value);
    var raw := [QUOTE] + Escaped(value[..n]);
    NamedLine(strips, name, raw);
    CutTaken(value);
  }

  lemma CutTaken(value: string)
    requires NoNulOrNewline(value) && LineLength(value) < |value|
    ensures var n := LineLength(value);
            TwoPassValue([QUOTE] + Escaped(value[..n])) ==
            if n > 0 && value[n - 1] == QUOTE then Some(Seen(value)) else None
  {
    var n := LineLength(value);
    CutValue(value[..n]);
    CutSeen(value);
    CutTwice(value, n);
  }

  lemma CutTwice(value: string, n: nat)
    requires n <= |value|
    ensures n > 0 ==> value[..n][n - 1] == value[n - 1] && value[..n][..n - 1] == value[..n - 1]
  {
  }

  lemma CutSeen(value: string)
    requires LineLength(value) < |value|
    ensures var n := LineLength(value); n > 0 ==> Seen(value) == value[..n - 1] + [BACKSLASH]
  {
    assert value[LineLength(value)] in value;
  }

  /** And the others. */
  lemma FurtherLines(keys: set<string>, strips: char -> bool, value: string, more: seq<string>, values: Values)
    ensures var lines := SplitLines(Escape(value) + [QUOTE]);
            if AllSkipped(lines, strips)
            then
              ReadLines(TwoPass, keys, strips, lines + more, values) == ReadLines(TwoPass, keys, strips, more, values)
            else ReadLines(TwoPass, keys, strips, lines + more, values).Failure?
  {
    var lines := SplitLines(Escape(value) + [QUOTE]);
    EscapeIsCharwise(value);
    EscapedGuarded(value);
    GuardedLines(Escaped(value) + [QUOTE]);
    SkippedOrRefused(keys, strips, lines, values);
    ReadJoined(TwoPass, keys, strips, lines, more, values);
  }

  lemma EmptyRead(keys: set<string>, strips: char -> bool, name: string, rest: string, values: Values)
    requires GoodName(name, strips)
    ensures EnvQuote("") == Some([QUOTE, QUOTE]) && !SlipsThrough("", strips)
    ensures ReadLines(TwoPass, keys, strips, SplitLines(name + "=" + [QUOTE, QUOTE] + "\n" + rest), values).Failure?
  {
    EscapeIsCharwise("");
    assert [QUOTE] + "" + [QUOTE] == [QUOTE, QUOTE];
    EmptyLine(name, rest);
    ReadNamed(TwoPass, keys, strips, name, [QUOTE, QUOTE], values);
  }

  lemma UnreadableRead(keys: set<string>, strips: char -> bool, s: Setting, rest: string, values: Values)
    requires GoodName(s.name, strips) && s.name in keys && s.name !in values
    requires EnvQuote(s.value).Some? && !Readable(s.value)
    ensures var lines := SplitLines(s.name + "=" + EnvQuote(s.value).value + "\n" + rest);
            var r := ReadLines(TwoPass, keys, strips, lines, values);
            if SlipsThrough(s.value, strips)
            then r == ReadLines(TwoPass, keys, strips, SplitLines(rest), values[s.name := Seen(s.value)])
            else r.Failure?
  {
    if s.value == "" {
      EmptyRead(keys, strips, s.name, rest, values);
    } else {
      NotClean(s.value);
      BoundaryRead(keys, strips, s.name, s.value, rest, values);
    }
  }

  lemma BoundaryRead(keys: set<string>, strips: char -> bool, name: string, value: string, rest: string, values: Values)
    requires GoodName(name, strips) && name in keys && name !in values
    requires NoNulOrNewline(value) && LineLength(value) < |value|
    ensures var lines := SplitLines(name + "=" + EnvQuote(value).value + "\n" + rest);
            var r := ReadLines(TwoPass, keys, strips, lines, values);
            if SlipsThrough(value, strips)
            then r == ReadLines(TwoPass, keys, strips, SplitLines(rest), values[name := Seen(value)])
            else r.Failure?
  {
    CutLines(name, value, rest);
    LinesRead(keys, strips, name, value, SplitLines(rest), values);
  }

  lemma LinesRead(keys: set<string>, strips: char -> bool, name: string, value: string, more: seq<string>,
                  values: Values)
    requires GoodName(name, strips) && name in keys && name !in values
    requires NoNulOrNewline(value) && LineLength(value) < |value|
    ensures var n := LineLength(value);
            var first := name + "=" + ([QUOTE] + Escaped(value[..n]));
            var others := SplitLines(Escape(value[n + 1..]) + [QUOTE]) + more;
            var r := ReadLines(TwoPass, keys, strips, [first] + others, values);
            if SlipsThrough(value, strips) then r == ReadLines(TwoPass, keys, strips, more, values[name := Seen(value)])
            else r.Failure?
  {
    var n := LineLength(value);
    var first := name + "=" + ([QUOTE] + Escaped(value[..n]));
    var others := SplitLines(Escape(value[n + 1..]) + [QUOTE]) + more;
    CutLine(keys, strips, name, value, values);
    FurtherLines(keys, strips, value[n + 1..], more, values[name := Seen(value)]);
    ReadFirst(keys, strips, first, others, values);
  }

  lemma ReadFirst(keys: set<string>, strips: char -> bool, first: string, others: seq<string>, values: Values)
    ensures var next := ReadLine(TwoPass, keys, strips, first, values);
            var r := ReadLines(TwoPass, keys, strips, [first] + others, values);
            if next.Success? then r == ReadLines(TwoPass, keys, strips, others, next.value) else r.Failure?
  {
    assert ([first] + others)[1..] == others;
  }

  function AsSeen(settings: seq<Setting>): seq<Setting> {
    if settings == [] then [] else [Setting(settings[0].name, Seen(settings[0].value))] + AsSeen(settings[1..])
  }

  predicate TakesAll(settings: seq<Setting>, strips: char -> bool) {
    forall s | s in settings :: Readable(s.value) || SlipsThrough(s.value, strips)
  }

  lemma {:induction false} TwoPassReads(keys: set<string>, strips: char -> bool, settings: seq<Setting>, values: Values)
    requires GoodSettings(settings, strips) && KeysOf(settings) <= keys && KeysOf(settings) !! values.Keys
    requires WriteText(settings).Some?
    ensures var r := ReadLines(TwoPass, keys, strips, SplitLines(WriteText(settings).value), values);
            && (r.Success? <==> TakesAll(settings, strips))
            && (r.Success? ==> r.value == Merge(values, AsSeen(settings)))
  {
    if settings != [] {
      var s, rest := settings[0], settings[1..];
      assert s in settings && s.name in KeysOf(settings);
      RestOfSettings(settings, strips);
      var after := WriteText(rest).value;
      TwoPassReads(keys, strips, rest, values[s.name := Seen(s.value)]);
      assert forall r | r in settings :: r == s || r in rest;
      assert AsSeen(settings)[1..] == AsSeen(rest);
      if Readable(s.value) {
        LineReadsBack(TwoPass, keys, strips, s, values);
        var line := s.name + "=" + EnvQuote(s.value).value;
        SplitFirst(line, after);
        assert ([line] + SplitLines(after))[1..] == SplitLines(after);
      } else {
        UnreadableRead(keys, strips, s, after, values);
      }
    }
  }

  lemma {:induction false} SeenKeys(settings: seq<Setting>, values: Values)
    ensures Merge(values, AsSeen(settings)).Keys == values.Keys + KeysOf(settings)
  {
    if settings != [] {
      var s, rest := settings[0], settings[1..];
      assert AsSeen(settings)[1..] == AsSeen(rest);
      SeenKeys(rest, values[s.name := Seen(s.value)]);
      assert KeysOf(settings) == {s.name} + KeysOf(rest) by {
        assert s in settings && forall r | r in rest :: r in settings;
        assert forall r | r in settings :: r == s || r in rest;
      }
    }
  }

  /** The two-pass reader takes a written file exactly when every value is readable or slips
      through; it then returns the written values only if all are readable. */
  lemma TwoPassReadsIff(strips: char -> bool, settings: seq<Setting>)
    requires GoodSettings(settings, strips) && WriteText(settings).Some?
    ensures var r := ReadText(TwoPass, KeysOf(settings), strips, WriteText(settings).value);
            && (r.Success? <==> TakesAll(settings, strips))
            && (r.Success? ==> r.value == ValuesOf(AsSeen(settings)))
            && (r.Success? ==> (r.value == ValuesOf(settings) <==> AllReadable(settings)))
  {
    TwoPassReads(KeysOf(settings), strips, settings, map[]);
    SeenKeys(settings, map[]);
    FileRoundTripIff(TwoPass, strips, settings);
    WrittenHasNoNul(settings);
  }

  lemma OneSetting(name: string, value: string, strips: char -> bool)
    requires GoodName(name, strips) && NoNulOrNewline(value)
    ensures var settings := [Setting(name, value)];
            && GoodSettings(settings, strips) && KeysOf(settings) == {name} && WriteText(settings).Some?
            && (AllReadable(settings) <==> Readable(value))
            && (TakesAll(settings, strips) <==> Readable(value) || SlipsThrough(value, strips))
  {
    var settings := [Setting(name, value)];
    assert WriteText(settings[1..]) == Some("");
    assert EnvQuote(value).Some?;
    assert settings[0] in settings && settings[0].name in KeysOf(settings);
  }

  lemma OneSeen(name: string, value: string)
    ensures ValuesOf(AsSeen([Setting(name, value)])) == map[name := Seen(value)]
  {
    var settings, seen := [Setting(name, value)], [Setting(name, Seen(value))];
    assert AsSeen(settings[1..]) == [];
    assert AsSeen(settings) == seen;
    var values: Values := map[];
    assert Merge(values[name := Seen(value)], seen[1..]) == values[name := Seen(value)];
  }

  /** A form feed in a path is accepted by the writer and by neither reader. */
  lemma FormFeedIsLost(reader: Reader, strips: char -> bool, name: string)
    requires GoodName(name, strips)
    ensures var settings := [Setting(name, "a\U{0C}b")];
            && WriteText(settings).Some?
            && ReadText(reader, {name}, strips, WriteText(settings).value).Failure?
  {
    var value := "a\U{0C}b";
    assert "a" + ['\U{0C}'] + "b" == value;
    FirstOf("a", '\U{0C}', "b");
    OneSetting(name, value, strips);
    if reader == Shlex {
      ShlexReadsIff(strips, [Setting(name, value)]);
    } else {
      TwoPassReadsIff(strips, [Setting(name, value)]);
    }
  }

  lemma FirstOf(front: string, c: char, back: string)
    requires Clean(front) && IsBoundary(c)
    ensures var value := front + [c] + back;
            && LineLength(value) == |front| && !Readable(value)
            && value[..|front|] == front && value[|front| + 1..] == back
  {
    var value := front + [c] + back;
    CutAt(front, c, back);
    assert value[|front|] == c && c in value;
  }

  /** A quotation mark before a vertical tab and a hash sign gets a value past the two-pass
      reader, which then reads another value; the lexing reader refuses the file. */
  lemma QuoteSlipsThrough(strips: char -> bool, name: string)
    requires GoodName(name, strips) && !strips('#')
    ensures var settings := [Setting(name, "a\"\U{0B}#x")];
            && WriteText(settings).Some?
            && ReadText(TwoPass, {name}, strips, WriteText(settings).value) == Success(map[name := "a\\"])
            && ReadText(Shlex, {name}, strips, WriteText(settings).value).Failure?
  {
    var value := "a\"\U{0B}#x";
    ValueSlips(strips);
    OneSetting(name, value, strips);
    OneSeen(name, value);
    ShlexReadsIff(strips, [Setting(name, value)]);
    TwoPassReadsIff(strips, [Setting(name, value)]);
  }

  lemma ValueSlips(strips: char -> bool)
    requires !strips('#')
    ensures var value := "a\"\U{0B}#x";
            NoNulOrNewline(value) && !Readable(value) && SlipsThrough(value, strips) && Seen(value) == "a\\"
  {
    var value := "a\"\U{0B}#x";
    assert "a\"" + ['\U{0B}'] + "#x" == value;
    FirstOf("a\"", '\U{0B}', "#x");
    assert value[..1] + [BACKSLASH] == "a\\";
    CommentLine(strips);
  }

  lemma CommentLine(strips: char -> bool)
    requires !strips('#')
    ensures AllSkipped(SplitLines(Escape("#x") + [QUOTE]), strips)
  {
    var line := "#x" + [QUOTE];
    EscapeIsCharwise("#x");
    EscapedTwo('#', 'x');
    LineOfClean(line);
  }

  lemma EscapedTwo(c: char, d: char)
    requires c != QUOTE && c != BACKSLASH && d != QUOTE && d != BACKSLASH
    ensures Escaped([c, d]) == [c, d]
  {
    assert [c, d][1..] == [d] && [d][1..] == "";
    assert Escaped([d]) == [d] + "";
  }

  lemma LineOfClean(line: string)
    requires line != "" && Clean(line)
    ensures SplitLines(line) == [line]
  {
    var n := LineLength(line);
    assert line[..|line|] == line;
  }

  // ----- The lifecycle's nine keys

  function EnvNames(): seq<string> {
    ["N3WFC4_CERT_SERVER_CERT_FILE", "N3WFC4_CERT_SERVER_KEY_FILE", "N3WFC4_CERT_CA_CERT_FILE",
     "N3WFC4_CERT_CA_KEY_FILE", "N3WFC4_CERT_SYSTEM_CA_FILE", "N3WFC4_CERT_SERVER_NAME",
     "N3WFC4_CERT_STATUS_FILE", "N3WFC4_CERT_ALLOWED_ROOT_FC4", "N3WFC4_CERT_ALLOWED_ROOT_SYSTEM"]
  }

  predicate IsNameChar(c: char) {
    'A' <= c <= 'Z' || '0' <= c <= '9' || c == '_'
  }

  predicate PlainName(name: string) {
    name != "" && name[0] == 'N' && forall i | 0 <= i < |name| :: IsNameChar(name[i])
  }

  lemma FirstNamesArePlain(k: nat)
    requires k < 3
    ensures PlainName(EnvNames()[k])
  {
  }

  lemma MiddleNamesArePlain(k: nat)
    requires 3 <= k < 6
    ensures PlainName(EnvNames()[k])
  {
  }

  lemma LastNamesArePlain(k: nat)
    requires 6 <= k < 9
    ensures PlainName(EnvNames()[k])
  {
  }

  lemma NamesArePlain(k: nat)
    requires k < 9
    ensures PlainName(EnvNames()[k])
  {
    if k < 3 {
      FirstNamesArePlain(k);
    } else if k < 6 {
      MiddleNamesArePlain(k);
    } else {
      LastNamesArePlain(k);
    }
  }

  lemma NamesAreGood(k: nat, strips: char -> bool)
    requires k < 9 && !strips('N')
    ensures GoodName(EnvNames()[k], strips)
  {
    NamesArePlain(k);
    PlainIsGood(EnvNames()[k], strips);
  }

  lemma PlainIsGood(name: string, strips: char -> bool)
    requires PlainName(name) && !strips('N')
    ensures GoodName(name, strips)
  {
    forall c | c in name
      ensures IsNameChar(c)
    {
      var i :| 0 <= i < |name| && name[i] == c;
    }
  }

  lemma NamesAreDistinct(j: nat, k: nat)
    requires j < k < 9
    ensures EnvNames()[j] != EnvNames()[k]
  {
    var n := EnvNames();
    assert n[3][12] != n[5][12] && n[3][12] != n[6][12] && n[5][13] != n[6][13] && n[0][12] != n[7][12];
  }

  function LifecycleSettings(values: seq<string>): (settings: seq<Setting>)
    requires |values| == 9
    ensures |settings| == 9 && forall k | 0 <= k < 9 :: settings[k] == Setting(EnvNames()[k], values[k])
  {
    seq(9, k requires 0 <= k < 9 => Setting(EnvNames()[k], values[k]))
  }

  lemma LifecycleGood(values: seq<string>, strips: char -> bool)
    requires |values| == 9 && !strips('N')
    ensures GoodSettings(LifecycleSettings(values), strips)
  {
    var settings := LifecycleSettings(values);
    forall s | s in settings
      ensures GoodName(s.name, strips)
    {
      var k :| 0 <= k < 9 && settings[k] == s;
      NamesAreGood(k, strips);
    }
    forall i, j | 0 <= i < j < 9
      ensures settings[i].name != settings[j].name
    {
      NamesAreDistinct(i, j);
    }
  }

  /** The installed file parses to the nine written values in all three tools, exactly when
      every value is non-empty and free of line boundaries. */
  lemma LifecycleFileReadsBack(reader: Reader, strips: char -> bool, values: seq<string>)
    requires |values| == 9 && !strips('N')
    requires WriteText(LifecycleSettings(values)).Some?
    ensures var settings := LifecycleSettings(values);
            ReadText(reader, KeysOf(settings), strips, WriteText(settings).value) == Success(ValuesOf(settings)) <==>
              forall k | 0 <= k < 9 :: values[k] != "" && Clean(values[k])
  {
    var settings := LifecycleSettings(values);
    LifecycleGood(values, strips);
    FileRoundTripIff(reader, strips, settings);
    forall k | 0 <= k < 9
      ensures settings[k] in settings && settings[k].value == values[k]
    {
    }
  }

  function EnvKeys(): set<string> {
    set name | name in EnvNames()
  }

  lemma LifecycleKeys(values: seq<string>)
    requires |values| == 9
    ensures KeysOf(LifecycleSettings(values)) == EnvKeys()
  {
    var settings, names := LifecycleSettings(values), EnvNames();
    assert forall k | 0 <= k < 9 :: settings[k].name == names[k] && settings[k] in settings && names[k] in names;
    forall name | name in EnvKeys()
      ensures name in KeysOf(settings)
    {
      var k :| 0 <= k < 9 && names[k] == name;
      assert settings[k].name == name;
    }
  }

  lemma LifecycleReadable(values: seq<string>)
    requires |values| == 9
    ensures AllReadable(LifecycleSettings(values)) <==> forall k | 0 <= k < 9 :: Readable(values[k])
  {
    var settings := LifecycleSettings(values);
    assert forall k | 0 <= k < 9 :: settings[k] in settings && settings[k].value == values[k];
  }

  lemma LifecycleValue(values: seq<string>, k: nat)
    requires |values| == 9 && k < 9
    ensures var v := ValuesOf(LifecycleSettings(values)); EnvNames()[k] in v && v[EnvNames()[k]] == values[k]
  {
    var settings := LifecycleSettings(values);
    LifecycleGood(values, c => false);
    MergeLookup(map[], settings, c => false);
    assert settings[k] in settings;
  }

  /** The installed file as each tool reads it: the lexing tools read it exactly when every
      value is readable, the enabling tool then too, and all with the written values. */
  lemma LifecycleReads(strips: char -> bool, values: seq<string>)
    requires |values| == 9 && !strips('N') && WriteText(LifecycleSettings(values)).Some?
    ensures var text := WriteText(LifecycleSettings(values)).value;
            var v := ValuesOf(LifecycleSettings(values));
            && (ReadText(Shlex, EnvKeys(), strips, text).Success? <==> forall k | 0 <= k < 9 :: Readable(values[k]))
            && (ReadText(Shlex, EnvKeys(), strips, text).Success? ==>
                  && ReadText(Shlex, EnvKeys(), strips, text) == Success(v)
                  && ReadText(TwoPass, EnvKeys(), strips, text) == Success(v))
  {
    var settings := LifecycleSettings(values);
    LifecycleGood(values, strips);
    LifecycleKeys(values);
    LifecycleReadable(values);
    ShlexReadsIff(strips, settings);
    if AllReadable(settings) {
      FileRoundTripIff(TwoPass, strips, settings);
    }
  }
}
