/** The text of the CLI's configuration file: what saving writes, what loading reads, and
    exactly when the two agree. Source: internal/app/cli/config.go. */
module CliConfigFormat {
  import opened Common

  datatype ConfigKey = Addr | Token | TokenFile | TokenKeyring

  /** All keys, in the order of their names. */
  const KEYS: seq<ConfigKey> := [Addr, Token, TokenFile, TokenKeyring]

  function Name(k: ConfigKey): string {
    match k
    case Addr => "addr"
    case Token => "token"
    case TokenFile => "token_file"
    case TokenKeyring => "token_keyring"
  }

  type Config = map<ConfigKey, string>

  /** A missing key reads as the empty string. */
  function Value(cfg: Config, k: ConfigKey): string {
    if k in cfg then cfg[k] else ""
  }

  // ----- White space -----

  /** The white space of the Unicode standard, as the trimming function sees it. */
  predicate IsSpace(c: char) {
    || '\t' <= c <= '\r' || c == ' ' || c == '\U{85}' || c == '\U{A0}' || c == '\U{1680}'
    || '\U{2000}' <= c <= '\U{200A}' || c == '\U{2028}' || c == '\U{2029}' || c == '\U{202F}'
    || c == '\U{205F}' || c == '\U{3000}'
  }

  function TrimRight(s: string): string {
    if s != [] && IsSpace(Last(s)) then TrimRight(Front(s)) else s
  }

  function TrimLeft(s: string): string {
    if s != [] && IsSpace(s[0]) then TrimLeft(s[1..]) else s
  }

  function Trim(s: string): string {
    TrimLeft(TrimRight(s))
  }

  lemma {:induction false} TrimRightAfter(a: string, b: string)
    requires a != [] && !IsSpace(Last(a))
    ensures TrimRight(a + b) == a + TrimRight(b)
  {
    if b == [] {
      assert a + b == a;
    } else {
      assert Last(a + b) == Last(b) && Front(a + b) == a + Front(b);
      if IsSpace(Last(b)) {
        TrimRightAfter(a, Front(b));
      }
    }
  }

  lemma {:induction false} TrimRightEnds(s: string)
    ensures TrimRight(s) == [] || !IsSpace(Last(TrimRight(s)))
    ensures TrimRight(TrimRight(s)) == TrimRight(s)
    ensures forall c :: c in TrimRight(s) ==> c in s
  {
    if s != [] && IsSpace(Last(s)) {
      TrimRightEnds(Front(s));
    }
  }

  lemma {:induction false} TrimLeftEnds(s: string)
    requires s == [] || !IsSpace(Last(s))
    ensures TrimLeft(s) == [] || (!IsSpace(Last(TrimLeft(s))) && !IsSpace(TrimLeft(s)[0]))
    ensures forall c :: c in TrimLeft(s) ==> c in s
  {
    if s != [] && IsSpace(s[0]) {
      assert s[1..] != [] ==> Last(s[1..]) == Last(s);
      TrimLeftEnds(s[1..]);
    }
  }

  lemma TrimTwice(s: string)
    ensures Trim(Trim(s)) == Trim(s) && Trim(TrimRight(s)) == Trim(s)
    ensures forall c :: c in Trim(s) ==> c in s
  {
    TrimRightEnds(s);
    TrimLeftEnds(TrimRight(s));
  }

  // ----- Lines -----

  function IndexOf(s: string, c: char): (i: nat)
    ensures i <= |s| && c !in s[..i] && (i < |s| ==> s[i] == c)
  {
    if s == [] || s[0] == c then 0 else
      var i := 1 + IndexOf(s[1..], c);
      assert s[..i] == [s[0]] + s[1..][..i - 1];
      i
  }

  /** The lines of a text; a text that ends with a line break has no line after it. */
  function Lines(text: string): seq<string>
    decreases |text|
  {
    if text == [] then []
    else
      var n := IndexOf(text, '\n');
      if n == |text| then [text] else [text[..n]] + Lines(text[n + 1..])
  }

  lemma IndexIsFirst(s: string, c: char, n: nat)
    requires n < |s| && s[n] == c && c !in s[..n]
    ensures IndexOf(s, c) == n
  {
    AbsentBefore(s, c, n);
    AbsentBefore(s, c, IndexOf(s, c));
  }

  lemma AbsentBefore(s: string, c: char, n: nat)
    requires n <= |s| && c !in s[..n]
    ensures forall i :: 0 <= i < n ==> s[i] != c
  {
    forall i | 0 <= i < n ensures s[i] != c {
      assert s[i] in s[..n];
    }
  }

  lemma LinesFirst(line: string, rest: string)
    requires '\n' !in line
    ensures Lines(line + "\n" + rest) == [line] + Lines(rest)
  {
    var text := line + "\n" + rest;
    assert text[|line|] == '\n' && text[..|line|] == line && text[|line| + 1..] == rest;
    IndexIsFirst(text, '\n', |line|);
  }

  // ----- Parsing -----

  const MAX_LINE := 65536

  function Utf8Length(c: char): nat {
    if c < '\U{80}' then 1 else if c < '\U{800}' then 2 else if c < '\U{10000}' then 3 else 4
  }

  function ByteLength(s: string): nat {
    if s == [] then 0 else ByteLength(Front(s)) + Utf8Length(Last(s))
  }

  /** The scanner's buffer must hold the line and its line break. */
  predicate Fits(line: string) {
    ByteLength(line) + 1 <= MAX_LINE
  }

  datatype ParseError = LineTooLong | NoEquals | UnknownKey | ExclusiveSources

  datatype Parsed = Ok(cfg: Config) | Err(error: ParseError)

  function DropCR(line: string): string {
    if line != [] && Last(line) == '\r' then Front(line) else line
  }

  function KeyNamed(name: string): Option<ConfigKey> {
    if name == "addr" then Some(Addr)
    else if name == "token" then Some(Token)
    else if name == "token_file" then Some(TokenFile)
    else if name == "token_keyring" then Some(TokenKeyring)
    else None
  }

  /** One line: blank lines and comments are skipped, anything else sets a known key. */
  function ParseLine(raw: string, cfg: Config): Parsed {
    if !Fits(raw) then Err(LineTooLong)
    else
      var line := Trim(DropCR(raw));
      if line == "" || line[0] == '#' then Ok(cfg)
      else
        var n := IndexOf(line, '=');
        if n == |line| then Err(NoEquals)
        else
          var key := KeyNamed(Trim(line[..n]));
          if key.None? then Err(UnknownKey) else Ok(cfg[key.value := Trim(line[n + 1..])])
  }

  function ParseLines(lines: seq<string>, cfg: Config): Parsed {
    if lines == [] then Ok(cfg)
    else
      var first := ParseLine(lines[0], cfg);
      if first.Err? then first else ParseLines(lines[1..], first.cfg)
  }

  predicate IsSource(cfg: Config, k: ConfigKey) {
    !k.Addr? && Trim(Value(cfg, k)) != ""
  }

  predicate OneSource(cfg: Config) {
    forall j, k :: IsSource(cfg, j) && IsSource(cfg, k) ==> j == k
  }

  function Parse(text: string): Parsed {
    var p := ParseLines(Lines(text), map[]);
    if p.Ok? && !OneSource(p.cfg) then Err(ExclusiveSources) else p
  }

  // ----- Saving -----

  function Line(k: ConfigKey, v: string): string {
    Name(k) + "=" + v
  }

  function RenderKeys(cfg: Config, keys: seq<ConfigKey>): string {
    if keys == [] then ""
    else (if Value(cfg, keys[0]) == "" then "" else Line(keys[0], Value(cfg, keys[0])) + "\n") + RenderKeys(cfg, keys[1..])
  }

  function Render(cfg: Config): string {
    RenderKeys(cfg, KEYS)
  }

  /** The saved text, spelled out: one line per set key, in the order of the names. */
  lemma RenderExactly(cfg: Config)
    ensures Render(cfg) == OneLine("addr", Value(cfg, Addr)) + (OneLine("token", Value(cfg, Token))
                           + (OneLine("token_file", Value(cfg, TokenFile)) + OneLine("token_keyring", Value(cfg, TokenKeyring))))
  {
    var last: seq<ConfigKey> := [TokenKeyring];
    var two: seq<ConfigKey> := [TokenFile] + last;
    var three: seq<ConfigKey> := [Token] + two;
    assert KEYS == [Addr] + three && KEYS[1..] == three && three[1..] == two && two[1..] == last && last[1..] == [];
    assert RenderKeys(cfg, []) == "";
    RenderMore(cfg, TokenKeyring, []);
    assert last == [TokenKeyring] + [];
    RenderMore(cfg, TokenFile, last);
    RenderMore(cfg, Token, two);
    RenderMore(cfg, Addr, three);
    hide RenderKeys, OneLine;
  }

  lemma RenderMore(cfg: Config, k: ConfigKey, keys: seq<ConfigKey>)
    ensures RenderKeys(cfg, [k] + keys) == OneLine(Name(k), Value(cfg, k)) + RenderKeys(cfg, keys)
  {
    assert ([k] + keys)[1..] == keys;
    assert Line(k, Value(cfg, k)) + "\n" == Name(k) + "=" + Value(cfg, k) + "\n";
  }

  function OneLine(name: string, value: string): string {
    if value == "" then "" else name + "=" + value + "\n"
  }

  // ----- Reading back one line -----

  lemma NameFacts(k: ConfigKey)
    ensures Name(k) != [] && !IsSpace(Name(k)[0]) && Name(k)[0] != '#'
    ensures Trim(Name(k)) == Name(k) && '=' !in Name(k) && '\n' !in Name(k)
    ensures KeyNamed(Name(k)) == Some(k)
  {
    assert !IsSpace(Last(Name(k)));
  }

  /** A line written for a value is read as that value, trimmed. */
  lemma ReadsBack(k: ConfigKey, v: string, cfg: Config)
    requires Fits(Line(k, v)) && v != ""
    ensures ParseLine(Line(k, v), cfg) == Ok(cfg[k := Trim(v)])
  {
    var raw := Line(k, v);
    NameFacts(k);
    var head := Name(k) + "=";
    assert TrimRight(DropCR(raw)) == TrimRight(raw);
    TrimRightAfter(head, v);
    var line := head + TrimRight(v);
    assert Trim(DropCR(raw)) == line;
    assert line[|Name(k)|] == '=' && line[..|Name(k)|] == Name(k) && line[|Name(k)| + 1..] == TrimRight(v);
    IndexIsFirst(line, '=', |Name(k)|);
    TrimTwice(v);
  }

  // ----- Reading back a whole file -----

  /** No value holds a line break. */
  ghost predicate SingleLines(cfg: Config) {
    forall k :: '\n' !in Value(cfg, k)
  }

  ghost predicate AllFit(cfg: Config) {
    forall k :: Value(cfg, k) != "" ==> Fits(Line(k, Value(cfg, k)))
  }

  /** What is read back for a value that was saved. */
  function Trimmed(cfg: Config): Config {
    map k | k in cfg && cfg[k] != "" :: Trim(cfg[k])
  }

  /** The accumulator after reading the lines of `keys`. */
  function ReadOn(cfg: Config, keys: seq<ConfigKey>, acc: Config): Config {
    if keys == [] then acc
    else ReadOn(cfg, keys[1..], if Value(cfg, keys[0]) == "" then acc else acc[keys[0] := Trim(Value(cfg, keys[0]))])
  }

  lemma {:induction false} KeysReadBack(cfg: Config, keys: seq<ConfigKey>, acc: Config)
    requires SingleLines(cfg)
    ensures (forall k :: k in keys && Value(cfg, k) != "" ==> Fits(Line(k, Value(cfg, k)))) ==>
              ParseLines(Lines(RenderKeys(cfg, keys)), acc) == Ok(ReadOn(cfg, keys, acc))
    ensures !(forall k :: k in keys && Value(cfg, k) != "" ==> Fits(Line(k, Value(cfg, k)))) ==>
              ParseLines(Lines(RenderKeys(cfg, keys)), acc) == Err(LineTooLong)
  {
    if keys != [] {
      var k, v := keys[0], Value(cfg, keys[0]);
      var rest := RenderKeys(cfg, keys[1..]);
      if v == "" {
        assert RenderKeys(cfg, keys) == rest;
        KeysReadBack(cfg, keys[1..], acc);
      } else {
        NameFacts(k);
        var line := Line(k, v);
        LinesFirst(line, rest);
        var lines := Lines(RenderKeys(cfg, keys));
        assert lines == [line] + Lines(rest) && lines[1..] == Lines(rest);
        if Fits(line) {
          ReadsBack(k, v, acc);
          KeysReadBack(cfg, keys[1..], acc[k := Trim(v)]);
        }
      }
    }
  }

  lemma {:induction false} ReadOnKeys(cfg: Config, keys: seq<ConfigKey>, acc: Config)
    ensures var r := ReadOn(cfg, keys, acc);
            && (forall k :: k in r <==> k in acc || (k in keys && Value(cfg, k) != ""))
            && (forall k :: k in r ==> r[k] == if k in keys && Value(cfg, k) != "" then Trim(Value(cfg, k)) else acc[k])
  {
    if keys != [] {
      var k := keys[0];
      ReadOnKeys(cfg, keys[1..], if Value(cfg, k) == "" then acc else acc[k := Trim(Value(cfg, k))]);
      assert keys == [k] + keys[1..];
    }
  }

  lemma ReadOnAll(cfg: Config)
    ensures ReadOn(cfg, KEYS, map[]) == Trimmed(cfg)
  {
    ReadOnKeys(cfg, KEYS, map[]);
    forall k ensures k in KEYS { AllKeys(k); }
  }

  lemma AllKeys(k: ConfigKey)
    ensures k in KEYS
  {
    assert KEYS[0] == Addr && KEYS[1] == Token && KEYS[2] == TokenFile && KEYS[3] == TokenKeyring;
  }

  /** What loading a saved file without line breaks in its values gives: every value trimmed,
      unless a line is too long for the scanner or two token sources are set. */
  lemma ParseOfRender(cfg: Config)
    requires SingleLines(cfg)
    ensures Parse(Render(cfg)) ==
              if !AllFit(cfg) then Err(LineTooLong)
              else if !OneSource(cfg) then Err(ExclusiveSources)
              else Ok(Trimmed(cfg))
  {
    forall k ensures k in KEYS { AllKeys(k); }
    KeysReadBack(cfg, KEYS, map[]);
    ReadOnAll(cfg);
    forall k ensures IsSource(Trimmed(cfg), k) == IsSource(cfg, k) {
      TrimTwice(Value(cfg, k));
    }
  }

  // ----- What any text can yield -----

  /** Values as loading produces them. */
  ghost predicate Clean(cfg: Config) {
    forall k :: Trim(Value(cfg, k)) == Value(cfg, k) && '\n' !in Value(cfg, k)
  }

  lemma {:induction false} LinesHaveNoBreaks(text: string)
    ensures forall line :: line in Lines(text) ==> '\n' !in line
    decreases |text|
  {
    if text != [] {
      var n := IndexOf(text, '\n');
      if n == |text| {
        assert text[..n] == text;
      } else {
        LinesHaveNoBreaks(text[n + 1..]);
      }
    }
  }

  lemma TrimIn(s: string, c: char)
    requires c in Trim(s)
    ensures c in s
  {
    TrimTwice(s);
  }

  /** The text after the equals sign has no characters the line did not have. */
  lemma ValueIn(raw: string, n: nat, c: char)
    requires n < |Trim(DropCR(raw))| && c in Trim(Trim(DropCR(raw))[n + 1..])
    ensures c in raw
  {
    hide Trim;
    var line := Trim(DropCR(raw));
    TrimIn(line[n + 1..], c);
    assert c in line;
    TrimIn(DropCR(raw), c);
  }

  lemma ParsedLineIsClean(raw: string, cfg: Config)
    requires Clean(cfg) && '\n' !in raw
    ensures ParseLine(raw, cfg).Ok? ==> Clean(ParseLine(raw, cfg).cfg)
  {
    hide Clean, Trim, Fits, DropCR;
    var line := Trim(DropCR(raw));
    var n := IndexOf(line, '=');
    if n < |line| {
      var v := Trim(line[n + 1..]);
      TrimTwice(line[n + 1..]);
      if '\n' in v {
        ValueIn(raw, n, '\n');
      }
      var key := KeyNamed(Trim(line[..n]));
      if key.Some? {
        SetClean(cfg, key.value, v);
      }
    }
  }

  lemma SetClean(cfg: Config, k: ConfigKey, v: string)
    requires Clean(cfg) && Trim(v) == v && '\n' !in v
    ensures Clean(cfg[k := v])
  {
    hide Trim;
    var after := cfg[k := v];
    forall j ensures Trim(Value(after, j)) == Value(after, j) && '\n' !in Value(after, j) {
      assert Value(after, j) == if j == k then v else Value(cfg, j);
    }
  }

  lemma {:induction false} ParsedLinesAreClean(lines: seq<string>, cfg: Config)
    requires Clean(cfg) && forall line :: line in lines ==> '\n' !in line
    ensures ParseLines(lines, cfg).Ok? ==> Clean(ParseLines(lines, cfg).cfg)
  {
    hide Clean, ParseLine;
    if lines != [] {
      assert lines[0] in lines;
      ParsedLineIsClean(lines[0], cfg);
      var first := ParseLine(lines[0], cfg);
      if first.Ok? {
        ParsedLinesAreClean(lines[1..], first.cfg);
      }
    }
  }

  lemma ParsedIsClean(text: string)
    ensures Parse(text).Ok? ==> Clean(Parse(text).cfg) && OneSource(Parse(text).cfg)
  {
    LinesHaveNoBreaks(text);
    ParsedLinesAreClean(Lines(text), map[]);
  }

  /** A configuration survives saving and loading exactly when every value is trimmed and free of
      line breaks, every line fits the scanner, and at most one token source is set. */
  lemma RoundTripIff(cfg: Config)
    ensures (Parse(Render(cfg)).Ok? && forall k :: Value(Parse(Render(cfg)).cfg, k) == Value(cfg, k))
            <==> Clean(cfg) && AllFit(cfg) && OneSource(cfg)
  {
    if Parse(Render(cfg)).Ok? && forall k :: Value(Parse(Render(cfg)).cfg, k) == Value(cfg, k) {
      ParsedIsClean(Render(cfg));
      forall k ensures Trim(Value(cfg, k)) == Value(cfg, k) && '\n' !in Value(cfg, k) {
        assert Value(cfg, k) == Value(Parse(Render(cfg)).cfg, k);
      }
      ParseOfRender(cfg);
    }
    if Clean(cfg) && AllFit(cfg) && OneSource(cfg) {
      ParseOfRender(cfg);
      forall k ensures Value(Trimmed(cfg), k) == Value(cfg, k) {
        assert Trim(Value(cfg, k)) == Value(cfg, k);
      }
    }
  }

  lemma RenderOne(k: ConfigKey, v: string)
    requires v != ""
    ensures Render(map[k := v]) == Line(k, v) + "\n"
  {
    var cfg: Config := map[k := v];
    assert KEYS[1..] == [Token, TokenFile, TokenKeyring] && KEYS[1..][1..] == [TokenFile, TokenKeyring];
    assert KEYS[1..][1..][1..] == [TokenKeyring] && KEYS[1..][1..][1..][1..] == [];
    hide Line;
    assert RenderKeys(cfg, KEYS[1..][1..][1..]) == if k == TokenKeyring then Line(k, v) + "\n" else "";
    assert RenderKeys(cfg, KEYS[1..][1..]) == if k in [TokenFile, TokenKeyring] then Line(k, v) + "\n" else "";
    assert RenderKeys(cfg, KEYS[1..]) == if k in [Token, TokenFile, TokenKeyring] then Line(k, v) + "\n" else "";
  }

  lemma LineWithoutEquals(raw: string, cfg: Config)
    requires Fits(raw) && '=' !in raw && Trim(DropCR(raw)) != "" && Trim(DropCR(raw))[0] != '#'
    ensures ParseLine(raw, cfg) == Err(NoEquals)
  {
    hide Trim;
    var line := Trim(DropCR(raw));
    var n := IndexOf(line, '=');
    if n < |line| {
      assert line[n] in line;
      TrimIn(DropCR(raw), '=');
    }
  }

  lemma TwoLinesOfRender(k: ConfigKey, a: string, b: string)
    requires a != "" && '\n' !in a && '\n' !in b
    ensures Lines(Render(map[k := a + "\n" + b])) == [Line(k, a), b]
  {
    RenderOne(k, a + "\n" + b);
    NameFacts(k);
    assert Line(k, a + "\n" + b) + "\n" == Line(k, a) + "\n" + (b + "\n" + "");
    LinesFirst(Line(k, a), b + "\n" + "");
    LinesFirst(b, "");
    assert Lines("") == [];
  }

  /** What follows a line break inside a value is read as a line of its own: it may be skipped, make
      the whole file unreadable, or set any key. */
  lemma LineBreakStartsLine(k: ConfigKey, a: string, b: string)
    requires a != "" && '\n' !in a && '\n' !in b
    ensures Parse(Render(map[k := a + "\n" + b])) ==
              if !Fits(Line(k, a)) then Err(LineTooLong)
              else
                var p := ParseLine(b, map[k := Trim(a)]);
                if p.Ok? && !OneSource(p.cfg) then Err(ExclusiveSources) else p
  {
    TwoLinesOfRender(k, a, b);
    hide Line, Trim, DropCR, Fits, ParseLine, Render, Lines, OneSource;
    if Fits(Line(k, a)) {
      ReadsBack(k, a, map[]);
      TwoLines(Line(k, a), b, map[], map[k := Trim(a)]);
    } else {
      assert ParseLine(Line(k, a), map[]) == Err(LineTooLong) by { TooLong(Line(k, a)); }
    }
  }

  lemma TooLong(raw: string)
    requires !Fits(raw)
    ensures ParseLine(raw, map[]) == Err(LineTooLong)
  {}

  /** Without an equals sign it makes the file unreadable ... */
  lemma LineBreakBreaksFile(k: ConfigKey, a: string, b: string)
    requires a != "" && '\n' !in a && '\n' !in b && '=' !in b
    requires Trim(DropCR(b)) != "" && Trim(DropCR(b))[0] != '#'
    requires Fits(Line(k, a)) && Fits(b)
    ensures Parse(Render(map[k := a + "\n" + b])) == Err(NoEquals)
  {
    LineBreakStartsLine(k, a, b);
    LineWithoutEquals(b, map[k := Trim(a)]);
    hide Line, Trim, DropCR, Fits, ParseLine, Render, Lines, OneSource;
  }

  /** ... and a written line of another key sets that key. */
  lemma LineBreakSetsKey(k: ConfigKey, a: string, j: ConfigKey, v: string)
    requires a != "" && '\n' !in a && v != "" && '\n' !in v && Fits(Line(k, a)) && Fits(Line(j, v))
    requires OneSource(map[k := Trim(a)][j := Trim(v)])
    ensures Parse(Render(map[k := a + "\n" + Line(j, v)])) == Ok(map[k := Trim(a)][j := Trim(v)])
  {
    NameFacts(j);
    assert '\n' !in Line(j, v);
    LineBreakStartsLine(k, a, Line(j, v));
    ReadsBack(j, v, map[k := Trim(a)]);
    hide Line, Trim, DropCR, Fits, ParseLine, Render, Lines, OneSource;
  }

  lemma TwoLines(first: string, second: string, cfg: Config, cfg': Config)
    requires ParseLine(first, cfg) == Ok(cfg')
    ensures ParseLines([first, second], cfg) == ParseLine(second, cfg')
  {
    hide ParseLine;
    assert [first, second][1..] == [second] && [second][1..] == [];
    assert ParseLines([second], cfg') == ParseLine(second, cfg');
  }

  lemma {:induction false} ByteLengthBounds(s: string)
    ensures |s| <= ByteLength(s) <= 4 * |s|
  {
    if s != [] {
      ByteLengthBounds(Front(s));
    }
  }

  // ----- Comments -----

  ghost predicate Blank(s: string) {
    forall c :: c in s ==> IsSpace(c)
  }

  lemma {:induction false} TrimBlank(s: string)
    requires Blank(s)
    ensures TrimRight(s) == ""
  {
    if s != [] {
      assert Last(s) in s;
      TrimBlank(Front(s));
    }
  }

  lemma {:induction false} TrimLeftBlank(blank: string, s: string)
    requires Blank(blank) && (s == [] || !IsSpace(s[0]))
    ensures TrimLeft(blank + s) == s
  {
    if blank == [] {
      assert blank + s == s;
    } else {
      assert blank[0] in blank;
      assert (blank + s)[1..] == blank[1..] + s;
      TrimLeftBlank(blank[1..], s);
    }
  }

  /** A comment: a number sign, white space before it and anything but a line break after it. */
  ghost predicate IsComment(line: string) {
    exists n :: 0 <= n < |line| && line[n] == '#' && Blank(line[..n])
  }

  lemma SkippedLine(line: string, cfg: Config)
    requires Fits(line) && (Blank(line) || IsComment(line))
    ensures ParseLine(line, cfg) == Ok(cfg)
  {
    var short := DropCR(line);
    if Blank(line) {
      TrimBlank(short);
    } else {
      var n :| 0 <= n < |line| && line[n] == '#' && Blank(line[..n]);
      assert short == line[..n] + "#" + short[n + 1..];
      TrimRightAfter(line[..n] + "#", short[n + 1..]);
      assert line[..n] + "#" + TrimRight(short[n + 1..]) == line[..n] + ("#" + TrimRight(short[n + 1..]));
      TrimLeftBlank(line[..n], "#" + TrimRight(short[n + 1..]));
    }
  }

  lemma FirstBreak(a: string) returns (line: string, rest: string)
    requires a != "" && Last(a) == '\n'
    ensures a == line + "\n" + rest && '\n' !in line && (rest == "" || Last(rest) == '\n')
  {
    var n := IndexOf(a, '\n');
    AbsentBefore(a, '\n', n);
    line, rest := a[..n], a[n + 1..];
  }

  lemma LinesJoinFirst(line: string, rest: string, b: string)
    requires '\n' !in line && Lines(rest + b) == Lines(rest) + Lines(b)
    ensures Lines(line + "\n" + rest + b) == Lines(line + "\n" + rest) + Lines(b)
  {
    hide Lines;
    LinesFirst(line, rest);
    LinesFirst(line, rest + b);
    assert line + "\n" + rest + b == line + "\n" + (rest + b);
    JoinSeqs([line], Lines(rest), Lines(b));
  }

  lemma JoinSeqs<T>(a: seq<T>, b: seq<T>, c: seq<T>)
    ensures a + (b + c) == a + b + c
  {}

  lemma {:induction false} LinesJoin(a: string, b: string)
    requires a == "" || Last(a) == '\n'
    ensures Lines(a + b) == Lines(a) + Lines(b)
    decreases |a|
  {
    if a == "" {
      assert a + b == b;
    } else {
      var line, rest := FirstBreak(a);
      hide Lines;
      LinesJoin(rest, b);
      LinesJoinFirst(line, rest, b);
    }
  }

  lemma {:induction false} SkipLine(before: seq<string>, line: string, after: seq<string>, cfg: Config)
    requires Fits(line) && (Blank(line) || IsComment(line))
    ensures ParseLines(before + [line] + after, cfg) == ParseLines(before + after, cfg)
  {
    hide ParseLine, Fits, Blank, IsComment;
    if before == [] {
      SkippedLine(line, cfg);
      assert before + [line] + after == [line] + after && before + after == after;
      assert ([line] + after)[1..] == after;
    } else {
      var first := ParseLine(before[0], cfg);
      assert (before + [line] + after)[1..] == before[1..] + [line] + after && (before + after)[1..] == before[1..] + after;
      if first.Ok? {
        SkipLine(before[1..], line, after, first.cfg);
      }
    }
  }

  /** A blank line or a comment that is not too long may stand anywhere between the lines of a
      file, or be taken out, without any effect on what the file says. */
  lemma CommentsAreSkipped(before: string, line: string, after: string)
    requires before == "" || Last(before) == '\n'
    requires '\n' !in line && Fits(line) && (Blank(line) || IsComment(line))
    ensures Parse(before + line + "\n" + after) == Parse(before + after)
  {
    hide ParseLine, Lines, Fits, Blank, IsComment;
    assert before + line + "\n" + after == before + (line + "\n" + after);
    LinesJoin(before, line + "\n" + after);
    LinesFirst(line, after);
    LinesJoin(before, after);
    SkipLine(Lines(before), line, Lines(after), map[]);
    assert Lines(before) + ([line] + Lines(after)) == Lines(before) + [line] + Lines(after);
  }
}
