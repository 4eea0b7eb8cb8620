/** Loading, saving and editing the CLI configuration as the code does it, with its scanning and
    rendering loops, proved against CliConfigFormat and CliConfigCommands. */
module CliConfig {
  import opened Common
  import opened CliConfigFormat
  import opened CliConfigCommands

  /** parseCLIConfig: scan line by line, then check the token sources. */
  method ParseCLIConfig(text: string) returns (r: Parsed)
    ensures r == Parse(text)
  {
    hide ParseLine, Lines, OneSource;
    var cfg: Config := map[];
    var pos := 0;
    assert text[0..] == text;
    while pos < |text|
      invariant 0 <= pos <= |text|
      invariant ParseLines(Lines(text), map[]) == ParseLines(Lines(text[pos..]), cfg)
      decreases |text| - pos
    {
      var raw, next := ScanLine(text, pos);
      r := ReadLine(raw, cfg);
      assert ([raw] + Lines(text[next..]))[1..] == Lines(text[next..]);
      if r.Err? {
        return;
      }
      cfg := r.cfg;
      pos := next;
    }
    assert text[pos..] == "";
    NoLines();
    var exclusive := ValidateTokenSources(cfg);
    if !exclusive {
      return Err(ExclusiveSources);
    }
    return Ok(cfg);
  }

  lemma NoLines()
    ensures Lines("") == []
  {}

  /** The scanner's next line and where the one after it starts. */
  method ScanLine(text: string, pos: nat) returns (raw: string, next: nat)
    requires pos < |text|
    ensures pos < next <= |text|
    ensures Lines(text[pos..]) == [raw] + Lines(text[next..])
  {
    hide Lines;
    var end := pos;
    while end < |text| && text[end] != '\n'
      invariant pos <= end <= |text| && '\n' !in text[pos..end]
    {
      end := end + 1;
    }
    raw := text[pos..end];
    LineInText(text, pos, end);
    next := if end < |text| then end + 1 else |text|;
  }

  lemma LineAt(rest: string, n: nat)
    requires rest != "" && n <= |rest| && '\n' !in rest[..n] && (n < |rest| ==> rest[n] == '\n')
    ensures Lines(rest) == [rest[..n]] + (if n < |rest| then Lines(rest[n + 1..]) else [])
  {
    if n < |rest| {
      IndexIsFirst(rest, '\n', n);
    } else {
      assert rest[..n] == rest;
      AbsentBefore(rest, '\n', n);
    }
  }

  lemma LineInText(text: string, pos: nat, end: nat)
    requires pos < |text| && pos <= end <= |text| && '\n' !in text[pos..end] && (end < |text| ==> text[end] == '\n')
    ensures Lines(text[pos..]) == [text[pos..end]] + Lines(text[if end < |text| then end + 1 else |text|..])
  {
    hide Lines;
    var rest, n := text[pos..], end - pos;
    assert rest[..n] == text[pos..end];
    LineAt(rest, n);
    if end < |text| {
      assert rest[n + 1..] == text[end + 1..];
    } else {
      NoLines();
      assert text[|text|..] == "";
    }
  }

  method ReadLine(raw: string, cfg: Config) returns (r: Parsed)
    ensures r == ParseLine(raw, cfg)
  {
    if ByteLength(raw) + 1 > MAX_LINE {
      return Err(LineTooLong);
    }
    var line := Trim(DropCR(raw));
    if line == "" || line[0] == '#' {
      return Ok(cfg);
    }
    var n := IndexOf(line, '=');
    if n == |line| {
      return Err(NoEquals);
    }
    var key := KeyNamed(Trim(line[..n]));
    if key.None? {
      return Err(UnknownKey);
    }
    return Ok(cfg[key.value := Trim(line[n + 1..])]);
  }

  /** validateCLITokenSourceConfig counts the token sources that are set. */
  method ValidateTokenSources(cfg: Config) returns (ok: bool)
    ensures ok <==> OneSource(cfg)
  {
    var candidates := [Token, TokenFile, TokenKeyring];
    var keys: seq<ConfigKey> := [];
    for i := 0 to |candidates|
      invariant forall k :: k in keys <==> k in candidates[..i] && IsSource(cfg, k)
      invariant forall a, b :: 0 <= a < b < |keys| ==> keys[a] != keys[b]
    {
      assert candidates[0] == Token && candidates[1] == TokenFile && candidates[2] == TokenKeyring;
      assert candidates[i] !in candidates[..i];
      if Trim(Value(cfg, candidates[i])) != "" {
        keys := keys + [candidates[i]];
      }
    }
    assert candidates[..|candidates|] == candidates;
    forall k | IsSource(cfg, k) ensures k in keys {
      assert candidates[0] == Token && candidates[1] == TokenFile && candidates[2] == TokenKeyring;
    }
    if |keys| > 1 {
      assert keys[0] in keys && keys[1] in keys;
    }
    return |keys| <= 1;
  }

  /** saveCLIConfig: the set keys in the order of their names, one line each. */
  method RenderCLIConfig(cfg: Config) returns (text: string)
    ensures text == Render(cfg)
  {
    hide Name, RenderKeys;
    text := "";
    assert KEYS[0..] == KEYS;
    for i := 0 to |KEYS|
      invariant text + RenderKeys(cfg, KEYS[i..]) == Render(cfg)
    {
      RenderStep(cfg, i);
      var before, rest := text, RenderKeys(cfg, KEYS[i + 1..]);
      var line := "";
      if Value(cfg, KEYS[i]) != "" {
        line := Name(KEYS[i]) + "=" + cfg[KEYS[i]] + "\n";
      }
      text := before + line;
      assert (before + line) + rest == before + (line + rest);
    }
    RenderNothing(cfg);
  }

  lemma RenderStep(cfg: Config, i: nat)
    requires i < |KEYS|
    ensures RenderKeys(cfg, KEYS[i..]) ==
              (if Value(cfg, KEYS[i]) == "" then "" else Name(KEYS[i]) + "=" + Value(cfg, KEYS[i]) + "\n")
              + RenderKeys(cfg, KEYS[i + 1..])
  {
    assert KEYS[i..][1..] == KEYS[i + 1..];
  }

  lemma RenderNothing(cfg: Config)
    ensures RenderKeys(cfg, KEYS[|KEYS|..]) == ""
  {}

  class CliHome {
    const tokenPath: string
    var file: Option<string>
    var tokenFile: Option<string>
    var keyring: map<string, string>

    function View(): Home
      reads this
    {
      Home(file, tokenFile, keyring)
    }

    constructor (tokenPath: string)
      ensures this.tokenPath == tokenPath && View() == EMPTY
    {
      this.tokenPath := tokenPath;
      file, tokenFile, keyring := None, None, map[];
    }

    method LoadCLIConfig() returns (r: Parsed)
      ensures r == Load(View())
    {
      if file.None? {
        return Ok(map[]);
      }
      r := ParseCLIConfig(file.value);
    }

    method SaveCLIConfig(cfg: Config)
      modifies this`file
      ensures View() == Save(old(View()), cfg)
    {
      var text := RenderCLIConfig(cfg);
      file := Some(text);
    }

    /** cleanupPreviousTokenBackend and, with the roles exchanged, rollbackNewTokenBackend. */
    method DeleteBackend(gone: Config, kept: Config, cleaning: Cleaning) returns (ok: bool)
      modifies this`tokenFile, this`keyring
      ensures (View(), ok) == CliConfigCommands.DeleteBackend(old(View()), tokenPath, gone, kept, cleaning)
    {
      var goneFile, goneKeyring := Value(gone, TokenFile), Value(gone, TokenKeyring);
      if goneFile != "" && goneFile != Value(kept, TokenFile) {
        if goneFile == tokenPath {
          if cleaning.FileKept? {
            return false;
          }
          tokenFile := None;
        }
      }
      if goneKeyring != "" && goneKeyring != Value(kept, TokenKeyring) {
        if cleaning.KeyringKept? {
          return false;
        }
        keyring := keyring - {Account(goneKeyring)};
      }
      return true;
    }

    method RunConfigSet(name: string, value: string, saveOk: bool, cleaning: Cleaning) returns (ok: bool)
      modifies this
      ensures (View(), ok) == RunSet(old(View()), tokenPath, Set(name, value, saveOk, cleaning))
    {
      if name == "token" || KeyNamed(name).None? || '\n' in value || '\r' in value || '\0' in value {
        return false;
      }
      var r := LoadCLIConfig();
      if r.Err? {
        return false;
      }
      var key := KeyNamed(name).value;
      var cfg := r.cfg[key := value];
      if key.TokenFile? {
        cfg := cfg - {Token, TokenKeyring};
      }
      if key.TokenKeyring? {
        cfg := cfg - {Token, TokenFile};
      }
      if !saveOk {
        return false;
      }
      SaveCLIConfig(cfg);
      ok := DeleteBackend(r.cfg, cfg, cleaning);
    }

    method RunConfigUnset(name: string, saveOk: bool) returns (ok: bool)
      modifies this
      ensures (View(), ok) == RunUnset(old(View()), name, saveOk)
    {
      if KeyNamed(name).None? {
        return false;
      }
      var r := LoadCLIConfig();
      if r.Err? || !saveOk {
        return false;
      }
      SaveCLIConfig(r.cfg - {KeyNamed(name).value});
      return true;
    }

    method RunConfigSetToken(secret: string, storage: Storage, storeOk: bool, saveOk: bool, cleaning: Cleaning)
      returns (ok: bool)
      modifies this
      ensures (View(), ok) == RunSetToken(old(View()), tokenPath, SetToken(secret, storage, storeOk, saveOk, cleaning))
    {
      var r := LoadCLIConfig();
      var token := Trim(secret);
      if r.Err? || token == "" {
        return false;
      }
      var cfg := r.cfg - {Token, TokenFile, TokenKeyring};
      match storage {
        case Inline =>
          cfg := cfg[Token := token];
        case File =>
          if !storeOk {
            return false;
          }
          tokenFile := Some(token + "\n");
          cfg := cfg[TokenFile := tokenPath];
        case Keyring =>
          if !storeOk {
            return false;
          }
          keyring := keyring[Account(DEFAULT_KEYRING) := token];
          cfg := cfg[TokenKeyring := DEFAULT_KEYRING];
      }
      assert cfg == TokenConfig(r.cfg, tokenPath, token, storage);
      if !saveOk {
        var _ := DeleteBackend(cfg, r.cfg, cleaning);
        return false;
      }
      SaveCLIConfig(cfg);
      ok := DeleteBackend(r.cfg, cfg, cleaning);
    }

    method RunConfigUnsetToken(saveOk: bool, cleaning: Cleaning) returns (ok: bool)
      modifies this
      ensures (View(), ok) == RunUnsetToken(old(View()), tokenPath, saveOk, cleaning)
    {
      var r := LoadCLIConfig();
      if r.Err? || !saveOk {
        return false;
      }
      var cfg := r.cfg - {Token, TokenFile, TokenKeyring};
      SaveCLIConfig(cfg);
      ok := DeleteBackend(r.cfg, cfg, cleaning);
    }
  }
}
