/** The `composia config` commands over the configuration file, the default token file and the
    system keyring. Source: internal/app/cli/config.go. */
module CliConfigCommands {
  import opened Common
  import opened CliConfigFormat

  /** `file` and `tokenFile` are the two files under the CLI's directory; the keyring maps
      accounts to secrets. */
  datatype Home = Home(file: Option<string>, tokenFile: Option<string>, keyring: map<string, string>)

  const DEFAULT_KEYRING := "default"

  function Account(name: string): string {
    "cli:" + (if Trim(name) == "" then DEFAULT_KEYRING else Trim(name)) + ":controller-token"
  }

  function Load(h: Home): Parsed {
    if h.file.None? then Ok(map[]) else Parse(h.file.value)
  }

  function Save(h: Home, cfg: Config): Home {
    h.(file := Some(Render(cfg)))
  }

  /** How far deleting a token backend gets: the file goes first, and an error ends it. */
  datatype Cleaning = Cleaned | FileKept | KeyringKept

  /** Deletes what `gone` names and `kept` does not: the default token file and the keyring entry. */
  function DeleteBackend(h: Home, path: string, gone: Config, kept: Config, cleaning: Cleaning): (Home, bool) {
    var f, k := Value(gone, TokenFile), Value(gone, TokenKeyring);
    var deletesFile := f != "" && f != Value(kept, TokenFile) && f == path;
    var deletesEntry := k != "" && k != Value(kept, TokenKeyring);
    if deletesFile && cleaning.FileKept? then (h, false)
    else
      var h1 := if deletesFile then h.(tokenFile := None) else h;
      if !deletesEntry then (h1, true)
      else if cleaning.KeyringKept? then (h1, false)
      else (h1.(keyring := h1.keyring - {Account(k)}), true)
  }

  // ----- The commands -----

  datatype Storage = Keyring | File | Inline

  /** `saveOk` says whether the configuration file could be written, `storeOk` whether the token
      could be put into its new place. */
  datatype Command =
    | Set(name: string, value: string, saveOk: bool, cleaning: Cleaning)
    | Unset(name: string, saveOk: bool)
    | SetToken(token: string, storage: Storage, storeOk: bool, saveOk: bool, cleaning: Cleaning)
    | UnsetToken(saveOk: bool, cleaning: Cleaning)

  /** `config set`: refuses the token itself, unknown keys, and values with line breaks or NUL;
      setting one token source drops the others. */
  function SetConfig(cfg: Config, k: ConfigKey, value: string): Config {
    var c := cfg[k := value];
    match k
    case TokenFile => c - {Token, TokenKeyring}
    case TokenKeyring => c - {Token, TokenFile}
    case _ => c
  }

  function SetAllowed(name: string, value: string): bool {
    name != "token" && KeyNamed(name).Some? && '\n' !in value && '\r' !in value && '\0' !in value
  }

  /** Saves `c` in the place of `cfg`, then deletes the backend that `c` no longer names. */
  function Replace(h: Home, path: string, cfg: Config, c: Config, saveOk: bool, cleaning: Cleaning): (Home, bool) {
    if !saveOk then (h, false) else DeleteBackend(Save(h, c), path, cfg, c, cleaning)
  }

  function RunSet(h: Home, path: string, cmd: Command): (Home, bool)
    requires cmd.Set?
  {
    if !SetAllowed(cmd.name, cmd.value) || Load(h).Err? then (h, false)
    else Replace(h, path, Load(h).cfg, SetConfig(Load(h).cfg, KeyNamed(cmd.name).value, cmd.value), cmd.saveOk, cmd.cleaning)
  }

  function RunUnset(h: Home, name: string, saveOk: bool): (Home, bool) {
    if KeyNamed(name).None? || Load(h).Err? || !saveOk then (h, false)
    else (Save(h, Load(h).cfg - {KeyNamed(name).value}), true)
  }

  const SOURCES := {Token, TokenFile, TokenKeyring}

  /** The configuration with the token in its new place. */
  function TokenConfig(cfg: Config, path: string, token: string, storage: Storage): Config {
    var c := cfg - SOURCES;
    match storage
    case Inline => c[Token := token]
    case File => c[TokenFile := path]
    case Keyring => c[TokenKeyring := DEFAULT_KEYRING]
  }

  function StoreToken(h: Home, token: string, storage: Storage): Home {
    match storage
    case Inline => h
    case File => h.(tokenFile := Some(token + "\n"))
    case Keyring => h.(keyring := h.keyring[Account(DEFAULT_KEYRING) := token])
  }

  /** `config set-token`: when the configuration cannot be saved, the new backend is deleted. */
  function RunSetToken(h: Home, path: string, cmd: Command): (Home, bool)
    requires cmd.SetToken?
  {
    var token := Trim(cmd.token);
    if Load(h).Err? || token == "" || (!cmd.storage.Inline? && !cmd.storeOk) then (h, false)
    else
      var cfg := Load(h).cfg;
      var c := TokenConfig(cfg, path, token, cmd.storage);
      var stored := StoreToken(h, token, cmd.storage);
      if !cmd.saveOk then (DeleteBackend(stored, path, c, cfg, cmd.cleaning).0, false)
      else Replace(stored, path, cfg, c, true, cmd.cleaning)
  }

  function RunUnsetToken(h: Home, path: string, saveOk: bool, cleaning: Cleaning): (Home, bool) {
    if Load(h).Err? then (h, false)
    else Replace(h, path, Load(h).cfg, Load(h).cfg - SOURCES, saveOk, cleaning)
  }

  function Next(h: Home, path: string, cmd: Command): Home {
    match cmd
    case Set(_, _, _, _) => RunSet(h, path, cmd).0
    case Unset(name, saveOk) => RunUnset(h, name, saveOk).0
    case SetToken(_, _, _, _, _) => RunSetToken(h, path, cmd).0
    case UnsetToken(saveOk, cleaning) => RunUnsetToken(h, path, saveOk, cleaning).0
  }

  function Run(h: Home, path: string, cmds: seq<Command>): Home {
    if cmds == [] then h else Next(Run(h, path, Front(cmds)), path, Last(cmds))
  }

  const EMPTY := Home(None, None, map[])

  // ----- What was loaded can be saved again -----

  lemma {:induction false} ByteLengthConcat(a: string, b: string)
    ensures ByteLength(a + b) == ByteLength(a) + ByteLength(b)
  {
    if b == [] {
      assert a + b == a;
    } else {
      assert Front(a + b) == a + Front(b);
      ByteLengthConcat(a, Front(b));
    }
  }

  lemma {:induction false} TrimRightShrinks(s: string)
    ensures ByteLength(TrimRight(s)) <= ByteLength(s)
  {
    if s != [] && IsSpace(Last(s)) {
      TrimRightShrinks(Front(s));
    }
  }

  lemma {:induction false} TrimLeftShrinks(s: string)
    ensures ByteLength(TrimLeft(s)) <= ByteLength(s)
  {
    if s != [] && IsSpace(s[0]) {
      assert s == s[..1] + s[1..];
      ByteLengthConcat(s[..1], s[1..]);
      TrimLeftShrinks(s[1..]);
    }
  }

  lemma TrimShrinks(s: string)
    ensures ByteLength(Trim(s)) <= ByteLength(s)
  {
    TrimRightShrinks(s);
    TrimLeftShrinks(TrimRight(s));
  }

  /** A line rebuilt from a trimmed name and a trimmed value is no longer than the original. */
  lemma RebuiltIsShorter(line: string, n: nat, name: string, v: string)
    requires n < |line| && line[n] == '=' && name == Trim(line[..n]) && v == Trim(line[n + 1..])
    ensures ByteLength(name + "=" + v) <= ByteLength(line)
  {
    hide Trim;
    assert line == line[..n] + "=" + line[n + 1..];
    ThreeParts(line[..n], line[n + 1..]);
    ThreeParts(name, v);
    TrimShrinks(line[..n]);
    TrimShrinks(line[n + 1..]);
  }

  lemma ThreeParts(a: string, b: string)
    ensures ByteLength(a + "=" + b) == ByteLength(a) + ByteLength("=") + ByteLength(b)
  {
    ByteLengthConcat(a + "=", b);
    ByteLengthConcat(a, "=");
  }

  lemma NameOfKey(name: string)
    ensures KeyNamed(name).Some? ==> Name(KeyNamed(name).value) == name
  {}

  lemma ParsedLineFits(raw: string, cfg: Config)
    requires AllFit(cfg)
    ensures ParseLine(raw, cfg).Ok? ==> AllFit(ParseLine(raw, cfg).cfg)
  {
    var line := Trim(DropCR(raw));
    TrimShrinks(DropCR(raw));
    assert ByteLength(DropCR(raw)) <= ByteLength(raw);
    hide Trim, AllFit, ByteLength, DropCR, KeyNamed, Name;
    var n := IndexOf(line, '=');
    if n < |line| {
      var key := KeyNamed(Trim(line[..n]));
      NameOfKey(Trim(line[..n]));
      if key.Some? && Fits(raw) {
        var v := Trim(line[n + 1..]);
        RebuiltIsShorter(line, n, Name(key.value), v);
        SetFits(cfg, key.value, v);
      }
    }
  }

  lemma SetFits(cfg: Config, k: ConfigKey, v: string)
    requires AllFit(cfg) && Fits(Line(k, v))
    ensures AllFit(cfg[k := v])
  {
    var after := cfg[k := v];
    forall j | Value(after, j) != "" ensures Fits(Line(j, Value(after, j))) {
      assert Value(after, j) == if j == k then v else Value(cfg, j);
    }
  }

  lemma {:induction false} ParsedLinesFit(lines: seq<string>, cfg: Config)
    requires AllFit(cfg)
    ensures ParseLines(lines, cfg).Ok? ==> AllFit(ParseLines(lines, cfg).cfg)
  {
    if lines != [] {
      hide ParseLine, AllFit;
      ParsedLineFits(lines[0], cfg);
      if ParseLine(lines[0], cfg).Ok? {
        ParsedLinesFit(lines[1..], ParseLine(lines[0], cfg).cfg);
      }
    }
  }

  /** A configuration that was loaded has trimmed, single-line values, at most one token source,
      and lines that fit: it can be saved and loaded again. */
  lemma LoadedIsGood(h: Home)
    requires Load(h).Ok?
    ensures Clean(Load(h).cfg) && OneSource(Load(h).cfg) && AllFit(Load(h).cfg)
  {
    if h.file.Some? {
      ParsedIsClean(h.file.value);
      ParsedLinesFit(Lines(h.file.value), map[]);
    }
  }

  // ----- Commands keep the file readable -----

  /** Saving a configuration with at most one token source and no line breaks: it can be loaded
      exactly when its lines fit, and then every value comes back trimmed. */
  lemma SavedLoads(h: Home, cfg: Config)
    requires SingleLines(cfg) && OneSource(cfg) && h.file == Some(Render(cfg))
    ensures Load(h).Ok? <==> AllFit(cfg)
    ensures Load(h).Ok? ==> Load(h).cfg == Trimmed(cfg)
  {
    ParseOfRender(cfg);
  }

  lemma FewerValues(cfg: Config, keys: set<ConfigKey>)
    requires Clean(cfg) && OneSource(cfg) && AllFit(cfg)
    ensures Clean(cfg - keys) && OneSource(cfg - keys) && AllFit(cfg - keys)
  {
    hide Trim, Fits;
    var c := cfg - keys;
    forall k ensures Value(c, k) == if k in keys then "" else Value(cfg, k) {}
    forall k ensures Trim(Value(c, k)) == Value(c, k) && '\n' !in Value(c, k) {
      assert Trim("") == "" by { TrimEmpty(); }
    }
    forall j, k | IsSource(c, j) && IsSource(c, k) ensures j == k {
      TrimEmpty();
      assert IsSource(cfg, j) && IsSource(cfg, k);
    }
    forall k | Value(c, k) != "" ensures Fits(Line(k, Value(c, k))) {
      assert Value(c, k) == Value(cfg, k);
    }
  }

  lemma TrimEmpty()
    ensures Trim("") == ""
  {}

  /** Setting a value: the sources stay exclusive, and everything fits when the value does. */
  lemma SetConfigGood(cfg: Config, k: ConfigKey, v: string)
    requires Clean(cfg) && OneSource(cfg) && AllFit(cfg) && !k.Token? && '\n' !in v
    ensures var c := SetConfig(cfg, k, v);
            && SingleLines(c) && OneSource(c)
            && (AllFit(c) <==> v == "" || Fits(Line(k, v)))
            && (forall j :: Value(c, j) ==
                  if j == k then v else if !k.Addr? && j in SOURCES then "" else Value(cfg, j))
  {
    hide Trim, Fits;
    TrimEmpty();
    var c := SetConfig(cfg, k, v);
    forall j ensures Value(c, j) == if j == k then v else if !k.Addr? && j in SOURCES then "" else Value(cfg, j) {}
    forall i, j | IsSource(c, i) && IsSource(c, j) ensures i == j {
      if k.Addr? {
        assert IsSource(cfg, i) && IsSource(cfg, j);
      }
    }
    forall j ensures '\n' !in Value(c, j) {}
    if v == "" || Fits(Line(k, v)) {
      forall j | Value(c, j) != "" ensures Fits(Line(j, Value(c, j))) {
        assert j == k || Value(c, j) == Value(cfg, j);
      }
    }
    if AllFit(c) && v != "" {
      assert Value(c, k) == v;
    }
  }

  /** Setting succeeds, as far as old backends can be deleted, exactly for a key other than the token
      and a value without line breaks and NUL, on a readable and writable file; refused, it changes
      nothing. */
  lemma SetSucceedsIff(h: Home, path: string, name: string, value: string, saveOk: bool)
    ensures var (h', ok) := RunSet(h, path, Set(name, value, saveOk, Cleaned));
            && (ok <==>
                  && name in ["addr", "token_file", "token_keyring"]
                  && (forall c :: c in value ==> c != '\n' && c != '\r' && c != '\0')
                  && Load(h).Ok? && saveOk)
            && (!ok ==> h' == h)
  {
    assert name == "addr" ==> Name(Addr) == name;
    hide Load, Render;
  }

  /** The same for unsetting any key, and for setting and unsetting the token, which must not be blank
      and must fit into its place. */
  lemma OthersSucceedIff(h: Home, path: string, name: string, token: string, storage: Storage, storeOk: bool, saveOk: bool)
    ensures var (h', ok) := RunUnset(h, name, saveOk);
            && (ok <==> name in ["addr", "token", "token_file", "token_keyring"] && Load(h).Ok? && saveOk)
            && (!ok ==> h' == h)
    ensures var (h', ok) := RunSetToken(h, path, SetToken(token, storage, storeOk, saveOk, Cleaned));
            && (ok <==> Load(h).Ok? && Trim(token) != "" && (storage.Inline? || storeOk) && saveOk)
            && (!ok && saveOk ==> h' == h)
    ensures var (h', ok) := RunUnsetToken(h, path, saveOk, Cleaned);
            && (ok <==> Load(h).Ok? && saveOk)
            && (!ok ==> h' == h)
  {
    hide Load, Render, Trim;
  }

  lemma DeletesNoConfig(h: Home, path: string, gone: Config, kept: Config, cleaning: Cleaning)
    ensures DeleteBackend(h, path, gone, kept, cleaning).0.file == h.file
  {}

  /** `config set` on a readable file, once saved: it stays readable exactly when the new line fits the
      scanner, and then the key reads as the trimmed value, a new token source has replaced the
      others, and no other key changed. */
  lemma SetExactly(h: Home, path: string, cmd: Command)
    requires Load(h).Ok? && cmd.Set? && SetAllowed(cmd.name, cmd.value) && cmd.saveOk
    ensures var k, value := KeyNamed(cmd.name).value, cmd.value; var h' := RunSet(h, path, cmd).0;
            && (Load(h').Ok? <==> value == "" || Fits(Line(k, value)))
            && (Load(h').Ok? ==> forall j ::
                  Value(Load(h').cfg, j) ==
                    if j == k then Trim(value) else if !k.Addr? && j in SOURCES then "" else Value(Load(h).cfg, j))
  {
    var k, value, cfg := KeyNamed(cmd.name).value, cmd.value, Load(h).cfg;
    var c := SetConfig(cfg, k, value);
    LoadedIsGood(h);
    SetConfigGood(cfg, k, value);
    var h' := RunSet(h, path, cmd).0;
    DeletesNoConfig(Save(h, c), path, cfg, c, cmd.cleaning);
    SavedLoads(h', c);
    TrimEmpty();
    hide SetConfig, Trim, Load, Fits;
    forall j ensures Value(Trimmed(c), j) == Trim(Value(c, j)) {}
    forall j ensures Trim(Value(cfg, j)) == Value(cfg, j) {}
  }

  /** `config unset` and `config unset-token` never make a readable file unreadable; they remove
      the keys they are about and change no other value. */
  lemma UnsetExactly(h: Home, path: string, name: string, cleaning: Cleaning)
    requires Load(h).Ok?
    ensures var h' := RunUnset(h, name, true).0;
            && Load(h').Ok?
            && forall j :: Value(Load(h').cfg, j) == if KeyNamed(name) == Some(j) then "" else Value(Load(h).cfg, j)
    ensures var h' := RunUnsetToken(h, path, true, cleaning).0;
            && Load(h').Ok?
            && forall j :: Value(Load(h').cfg, j) == if j in SOURCES then "" else Value(Load(h).cfg, j)
  {
    LoadedIsGood(h);
    if KeyNamed(name).Some? {
      RemovedLoads(h, RunUnset(h, name, true).0, {KeyNamed(name).value});
    }
    DeletesNoConfig(Save(h, Load(h).cfg - SOURCES), path, Load(h).cfg, Load(h).cfg - SOURCES, cleaning);
    RemovedLoads(h, RunUnsetToken(h, path, true, cleaning).0, SOURCES);
  }

  lemma RemovedLoads(h: Home, h': Home, keys: set<ConfigKey>)
    requires Load(h).Ok? && h'.file == Some(Render(Load(h).cfg - keys))
    ensures Load(h').Ok? && forall j :: Value(Load(h').cfg, j) == if j in keys then "" else Value(Load(h).cfg, j)
  {
    var cfg := Load(h).cfg;
    LoadedIsGood(h);
    FewerValues(cfg, keys);
    SavedLoads(h', cfg - keys);
    hide Trim, Load;
    TrimEmpty();
    forall j ensures Value(Trimmed(cfg - keys), j) == Trim(Value(cfg - keys, j)) {}
    forall j ensures Trim(Value(cfg, j)) == Value(cfg, j) {}
  }

  // ----- Tokens -----

  /** Where the client finds the token that the file names. */
  datatype Resolved = NoToken | Found(token: string) | Missing | External(path: string)

  function Resolve(h: Home, path: string): Resolved {
    if Load(h).Err? then NoToken
    else
      var cfg := Load(h).cfg;
      if Value(cfg, Token) != "" then Found(Value(cfg, Token))
      else if Value(cfg, TokenFile) != "" then
        if Value(cfg, TokenFile) != path then External(Value(cfg, TokenFile))
        else if h.tokenFile.None? then Missing
        else Found(Trim(h.tokenFile.value))
      else if Value(cfg, TokenKeyring) != "" then
        var account := Account(Value(cfg, TokenKeyring));
        if account in h.keyring then Found(Trim(h.keyring[account])) else Missing
      else NoToken
  }

  /** The path of the default token file is a clean, short enough string. */
  ghost predicate GoodPath(path: string) {
    path != "" && Trim(path) == path && '\n' !in path && Fits(Line(TokenFile, path))
  }

  /** What a token must satisfy to be stored: inline, it may not contain a line break. */
  predicate Storable(token: string, storage: Storage) {
    token != "" && (storage.Inline? ==> '\n' !in token && Fits(Line(Token, token)))
  }

  lemma TokenConfigGood(cfg: Config, path: string, token: string, storage: Storage)
    requires Clean(cfg) && OneSource(cfg) && AllFit(cfg) && GoodPath(path)
    requires Trim(token) == token && Storable(token, storage)
    ensures var c := TokenConfig(cfg, path, token, storage);
            && Clean(c) && OneSource(c) && AllFit(c) && Value(c, Addr) == Value(cfg, Addr)
            && Value(c, Token) == (if storage.Inline? then token else "")
            && Value(c, TokenFile) == (if storage.File? then path else "")
            && Value(c, TokenKeyring) == (if storage.Keyring? then DEFAULT_KEYRING else "")
  {
    var c := TokenConfig(cfg, path, token, storage);
    DefaultIsGood();
    TrimEmpty();
    hide Trim, Fits;
    assert Value(c, Addr) == Value(cfg, Addr);
    assert Value(c, Token) == if storage.Inline? then token else "";
    assert Value(c, TokenFile) == if storage.File? then path else "";
    assert Value(c, TokenKeyring) == if storage.Keyring? then DEFAULT_KEYRING else "";
    hide TokenConfig;
    forall k ensures Trim(Value(c, k)) == Value(c, k) && '\n' !in Value(c, k) {
      match k
      case Addr => assert Value(c, k) == Value(cfg, k);
      case _ =>
    }
    forall k | Value(c, k) != "" ensures Fits(Line(k, Value(c, k))) {
      match k
      case Addr => assert Value(c, k) == Value(cfg, k);
      case _ =>
    }
  }

  lemma DefaultIsGood()
    ensures Trim(DEFAULT_KEYRING) == DEFAULT_KEYRING && '\n' !in DEFAULT_KEYRING
    ensures Fits(Line(TokenKeyring, DEFAULT_KEYRING))
  {
    ByteLengthBounds(Line(TokenKeyring, DEFAULT_KEYRING));
  }

  lemma CleanReadsBack(c: Config)
    requires Clean(c)
    ensures forall j :: Value(Trimmed(c), j) == Value(c, j)
  {
    hide Trim;
    TrimEmpty();
    forall j ensures Value(Trimmed(c), j) == Value(c, j) {
      assert Trim(Value(c, j)) == Value(c, j);
    }
  }

  lemma SameAccount(p: string, q: string)
    requires p != "" && Trim(p) == p && q != "" && Trim(q) == q && Account(p) == Account(q)
    ensures p == q
  {
    hide Trim;
    assert |p| == |q|;
    assert Account(p)[4..4 + |p|] == p && Account(q)[4..4 + |q|] == q;
  }

  /** What the client finds after the token was stored, the old backend deleted or not, and `c`
      saved and loaded. */
  lemma StoredResolves(h: Home, h': Home, path: string, token: string, storage: Storage, cfg: Config, c: Config, cleaning: Cleaning)
    requires Load(h').Ok? && Clean(cfg) && Trim(token) == token && token != "" && path != ""
    requires h' == DeleteBackend(Save(StoreToken(h, token, storage), c), path, cfg, c, cleaning).0
    requires forall j :: Value(Load(h').cfg, j) == Value(c, j)
    requires Value(c, Token) == (if storage.Inline? then token else "")
    requires Value(c, TokenFile) == (if storage.File? then path else "")
    requires Value(c, TokenKeyring) == (if storage.Keyring? then DEFAULT_KEYRING else "")
    ensures Resolve(h', path) == Found(token)
  {
    DefaultIsGood();
    TrimNewline(token);
    var pk := Value(cfg, TokenKeyring);
    assert Trim(pk) == pk;
    if pk != "" && Account(pk) == Account(DEFAULT_KEYRING) {
      SameAccount(pk, DEFAULT_KEYRING);
    }
    assert Value(Load(h').cfg, Token) == Value(c, Token);
    assert Value(Load(h').cfg, TokenFile) == Value(c, TokenFile);
    assert Value(Load(h').cfg, TokenKeyring) == Value(c, TokenKeyring);
    hide Trim, Load, Account, Render;
  }

  /** After `config set-token` has saved a storable token the file is readable, names exactly the
      chosen source, and the client finds the trimmed token there; once nothing failed, a default
      token file or keyring entry that held the token before and is no longer named is gone. */
  lemma SetTokenExactly(h: Home, path: string, cmd: Command)
    requires Load(h).Ok? && GoodPath(path) && cmd.SetToken? && cmd.saveOk && (cmd.storage.Inline? || cmd.storeOk)
    requires Storable(Trim(cmd.token), cmd.storage)
    ensures var (h', ok) := RunSetToken(h, path, cmd); var cfg := Load(h).cfg;
            && Load(h').Ok? && OneSource(Load(h').cfg)
            && Resolve(h', path) == Found(Trim(cmd.token))
            && Value(Load(h').cfg, Addr) == Value(cfg, Addr)
            && (cmd.cleaning.Cleaned? ==> ok)
            && (ok && Value(cfg, TokenFile) == path && !cmd.storage.File? ==> h'.tokenFile.None?)
            && (ok && Value(cfg, TokenKeyring) != "" && Value(cfg, TokenKeyring) != Value(Load(h').cfg, TokenKeyring) ==>
                  Account(Value(cfg, TokenKeyring)) !in h'.keyring)
  {
    var token, cfg := Trim(cmd.token), Load(h).cfg;
    var c := TokenConfig(cfg, path, token, cmd.storage);
    LoadedIsGood(h);
    TrimTwice(cmd.token);
    TokenConfigGood(cfg, path, token, cmd.storage);
    var h' := RunSetToken(h, path, cmd).0;
    var stored := Save(StoreToken(h, token, cmd.storage), c);
    assert h' == DeleteBackend(stored, path, cfg, c, cmd.cleaning).0;
    DeletesNoConfig(stored, path, cfg, c, cmd.cleaning);
    assert h'.file == Some(Render(c)) && SingleLines(c);
    SavedLoads(h', c);
    LoadedIsGood(h');
    CleanReadsBack(c);
    hide Trim, Load, Render, TokenConfig, Account, Clean, OneSource, AllFit;
    assert Clean(cfg);
    StoredResolves(h, h', path, token, cmd.storage, cfg, c, cmd.cleaning);
  }

  /** Nothing the client could be pointed to holds `token` already. */
  predicate Unknown(h: Home, token: string) {
    && (h.tokenFile.Some? ==> Trim(h.tokenFile.value) != token)
    && forall a :: a in h.keyring ==> Trim(h.keyring[a]) != token
  }

  /** A saved token that was not known before is found if and only if it is storable. */
  lemma SetTokenFoundIff(h: Home, path: string, cmd: Command)
    requires Load(h).Ok? && GoodPath(path) && cmd.SetToken? && cmd.saveOk && (cmd.storage.Inline? || cmd.storeOk)
    requires Trim(cmd.token) != "" && Unknown(h, Trim(cmd.token))
    ensures Resolve(RunSetToken(h, path, cmd).0, path) == Found(Trim(cmd.token)) <==> Storable(Trim(cmd.token), cmd.storage)
  {
    var token := Trim(cmd.token);
    hide Load, Trim, Account, TokenConfig, Resolve, Unknown, RunSetToken;
    if Storable(token, cmd.storage) {
      SetTokenExactly(h, path, cmd);
    } else {
      var h' := RunSetToken(h, path, cmd).0;
      NotStorable(h, path, cmd);
      InlineAddsNoBackend(h, path, cmd);
      NotFound(h', path, token);
    }
  }

  lemma InlineAddsNoBackend(h: Home, path: string, cmd: Command)
    requires Load(h).Ok? && cmd.SetToken? && cmd.saveOk && cmd.storage.Inline? && Unknown(h, Trim(cmd.token))
    ensures Unknown(RunSetToken(h, path, cmd).0, Trim(cmd.token))
  {
    hide Load, Trim, Account, TokenConfig, Render;
  }

  lemma NotFound(h: Home, path: string, token: string)
    requires Unknown(h, token) && (Load(h).Ok? ==> Value(Load(h).cfg, Token) != token)
    ensures Resolve(h, path) != Found(token)
  {
    hide Load, Trim, Account;
  }

  /** The file does not give back an inline token that is not storable. */
  lemma NotStorable(h: Home, path: string, cmd: Command)
    requires Load(h).Ok? && cmd.SetToken? && cmd.saveOk && cmd.storage.Inline?
    requires Trim(cmd.token) != "" && !Storable(Trim(cmd.token), cmd.storage)
    ensures var h' := RunSetToken(h, path, cmd).0; Load(h').Ok? ==> Value(Load(h').cfg, Token) != Trim(cmd.token)
  {
    var token, cfg := Trim(cmd.token), Load(h).cfg;
    var c := TokenConfig(cfg, path, token, Inline);
    var h' := RunSetToken(h, path, cmd).0;
    DeletesNoConfig(Save(h, c), path, cfg, c, cmd.cleaning);
    assert h'.file == Some(Render(c));
    if '\n' in token {
      if Load(h').Ok? { LoadedIsGood(h'); }
    } else {
      LoadedIsGood(h);
      assert Value(c, Token) == token && !Fits(Line(Token, Value(c, Token)));
      assert forall k :: k != Token ==> Value(c, k) == if k.Addr? then Value(cfg, k) else "";
      assert SingleLines(c) && !AllFit(c);
      ParseOfRender(c);
    }
  }

  /** When the configuration could not be saved, the token that was found before is still found,
      unless the new one went to the very place it was in. */
  lemma FailedSetTokenKeepsIff(h: Home, path: string, cmd: Command, old_: string)
    requires Load(h).Ok? && path != "" && cmd.SetToken? && !cmd.saveOk && Trim(cmd.token) != ""
    requires cmd.storage.Inline? || cmd.storeOk
    requires Resolve(h, path) == Found(old_) && old_ != Trim(cmd.token)
    ensures var cfg := Load(h).cfg;
            Resolve(RunSetToken(h, path, cmd).0, path) == Found(old_) <==>
              || Value(cfg, Token) != ""
              || !((cmd.storage.File? && Value(cfg, TokenFile) == path) ||
                   (cmd.storage.Keyring? && Value(cfg, TokenKeyring) == DEFAULT_KEYRING))
  {
    var token, cfg := Trim(cmd.token), Load(h).cfg;
    var c := TokenConfig(cfg, path, token, cmd.storage);
    var stored := StoreToken(h, token, cmd.storage);
    var h' := DeleteBackend(stored, path, c, cfg, cmd.cleaning).0;
    DeletesNoConfig(stored, path, c, cfg, cmd.cleaning);
    assert Load(h') == Load(h);
    LoadedIsGood(h);
    DefaultIsGood();
    TrimTwice(cmd.token);
    TrimNewline(token);
    assert Value(c, TokenFile) == (if cmd.storage.File? then path else "");
    assert Value(c, TokenKeyring) == (if cmd.storage.Keyring? then DEFAULT_KEYRING else "");
    AtMostOne(cfg);
    KeyringIsOther(cfg);
    hide Trim, Load, Account, TokenConfig, OneSource, Clean, AllFit;
  }

  /** A loaded keyring name other than the default has an account of its own. */
  lemma KeyringIsOther(cfg: Config)
    requires Clean(cfg)
    ensures var k := Value(cfg, TokenKeyring);
            k != "" && k != DEFAULT_KEYRING ==> Account(k) != Account(DEFAULT_KEYRING)
  {
    var k := Value(cfg, TokenKeyring);
    DefaultIsGood();
    assert Trim(k) == k;
    if k != "" && Account(k) == Account(DEFAULT_KEYRING) {
      SameAccount(k, DEFAULT_KEYRING);
    }
  }

  lemma AtMostOne(cfg: Config)
    requires Clean(cfg) && OneSource(cfg)
    ensures Value(cfg, TokenFile) == "" || Value(cfg, TokenKeyring) == ""
    ensures Value(cfg, Token) != "" ==> Value(cfg, TokenFile) == "" && Value(cfg, TokenKeyring) == ""
  {
    hide Trim;
    assert forall k: ConfigKey :: !k.Addr? && Value(cfg, k) != "" ==> IsSource(cfg, k);
  }

  // ----- Inline tokens of several lines -----

  /** A line that loading accepts. */
  predicate Readable(raw: string) {
    && Fits(raw)
    && var line := Trim(DropCR(raw));
       line == "" || line[0] == '#' || Setting(raw).Some?
  }

  /** The key and the value a line sets. */
  function Setting(raw: string): Option<(ConfigKey, string)> {
    var line := Trim(DropCR(raw));
    var n := IndexOf(line, '=');
    if line == "" || line[0] == '#' || n == |line| || KeyNamed(Trim(line[..n])).None? then None
    else Some((KeyNamed(Trim(line[..n])).value, Trim(line[n + 1..])))
  }

  /** What the last of the lines that set `k` sets it to. */
  function LastSet(lines: seq<string>, k: ConfigKey, otherwise: string): string {
    if lines == [] then otherwise
    else if Setting(Last(lines)).Some? && Setting(Last(lines)).value.0 == k then Setting(Last(lines)).value.1
    else LastSet(Front(lines), k, otherwise)
  }

  lemma ParseLineIff(raw: string, cfg: Config)
    ensures ParseLine(raw, cfg).Ok? <==> Readable(raw)
    ensures Readable(raw) ==> forall k :: Value(ParseLine(raw, cfg).cfg, k) == LastSet([raw], k, Value(cfg, k))
  {
    hide Trim, DropCR, KeyNamed;
    assert Front([raw]) == [] && Last([raw]) == raw;
    assert forall k :: LastSet([], k, Value(cfg, k)) == Value(cfg, k);
  }

  lemma {:induction false} LastSetAfter(first: string, rest: seq<string>, k: ConfigKey, otherwise: string)
    ensures LastSet([first] + rest, k, otherwise) == LastSet(rest, k, LastSet([first], k, otherwise))
  {
    hide Setting;
    if rest == [] {
      assert [first] + rest == [first];
    } else {
      assert Last([first] + rest) == Last(rest) && Front([first] + rest) == [first] + Front(rest);
      LastSetAfter(first, Front(rest), k, otherwise);
    }
  }

  /** A text loads, sources aside, exactly when each of its lines does, and the last line that sets
      a key wins. */
  lemma {:induction false} ParseLinesIff(lines: seq<string>, cfg: Config)
    ensures ParseLines(lines, cfg).Ok? <==> forall i :: 0 <= i < |lines| ==> Readable(lines[i])
    ensures ParseLines(lines, cfg).Ok? ==>
              forall k :: Value(ParseLines(lines, cfg).cfg, k) == LastSet(lines, k, Value(cfg, k))
  {
    hide ParseLine, Readable, Setting;
    if lines != [] {
      var rest := lines[1..];
      assert lines == [lines[0]] + rest;
      ParseLineIff(lines[0], cfg);
      var first := ParseLine(lines[0], cfg);
      if first.Ok? {
        ParseLinesIff(rest, first.cfg);
        assert forall i :: 0 <= i < |rest| ==> rest[i] == lines[i + 1];
        forall k ensures LastSet(lines, k, Value(cfg, k)) == LastSet(rest, k, Value(first.cfg, k)) {
          LastSetAfter(lines[0], rest, k, Value(cfg, k));
        }
        assert (forall i :: 0 <= i < |lines| ==> Readable(lines[i])) <==> (forall i :: 0 <= i < |rest| ==> Readable(rest[i])) by {
          if forall i :: 0 <= i < |lines| ==> Readable(lines[i]) {
            forall i | 0 <= i < |rest| ensures Readable(rest[i]) { assert Readable(lines[i + 1]); }
          }
          if forall i :: 0 <= i < |rest| ==> Readable(rest[i]) {
            forall i | 0 <= i < |lines| ensures Readable(lines[i]) { assert i > 0 ==> lines[i] == rest[i - 1]; }
          }
        }
      }
    }
  }

  lemma OneLineOnly(s: string)
    requires s != "" && '\n' !in s
    ensures Lines(s) == [s] && Lines(s + "\n") == [s]
  {
    var n := IndexOf(s, '\n');
    assert s + "\n" + "" == s + "\n";
    LinesFirst(s, "");
  }

  /** A text with a line break, taken apart at the first one. */
  lemma Broken(s: string) returns (line: string, rest: string)
    requires '\n' in s
    ensures s == line + "\n" + rest && '\n' !in line
  {
    var n := IndexOf(s, '\n');
    line, rest := s[..n], s[n + 1..];
  }

  lemma {:induction false} LinesBeforeBreak(s: string)
    requires s != "" && Last(s) != '\n'
    ensures Lines(s + "\n") == Lines(s) && Lines(s) != []
    decreases |s|
  {
    hide Lines;
    if '\n' !in s {
      OneLineOnly(s);
    } else {
      var line, rest := Broken(s);
      assert rest != "" && Last(rest) == Last(s);
      LinesBeforeBreak(rest);
      LinesFirst(line, rest);
      LinesFirst(line, rest + "\n");
      assert s + "\n" == line + "\n" + (rest + "\n");
    }
  }

  /** What stands before a text without a line break is put before its first line. */
  lemma LinesWithPrefix(prefix: string, s: string)
    requires s != "" && '\n' !in prefix
    ensures Lines(s) != [] && Lines(prefix + s) == [prefix + Lines(s)[0]] + Lines(s)[1..]
  {
    hide Lines;
    if '\n' !in s {
      OneLineOnly(s);
      OneLineOnly(prefix + s);
    } else {
      var line, rest := Broken(s);
      LinesFirst(line, rest);
      LinesFirst(prefix + line, rest);
      assert prefix + s == prefix + line + "\n" + rest;
    }
  }

  /** The file that `config set-token --inline` writes. */
  lemma InlineLines(cfg: Config, path: string, token: string)
    requires token != "" && Last(token) != '\n' && '\n' !in Value(cfg, Addr)
    ensures var c := TokenConfig(cfg, path, token, Inline); var a := Value(cfg, Addr); var lines := Lines(token);
            && lines != []
            && Lines(Render(c)) == (if a == "" then [] else [Line(Addr, a)]) + ([Line(Token, lines[0])] + lines[1..])
  {
    var c := TokenConfig(cfg, path, token, Inline);
    var a := Value(cfg, Addr);
    assert Value(c, Addr) == a && Value(c, Token) == token && Value(c, TokenFile) == "" && Value(c, TokenKeyring) == "";
    var tail := Line(Token, token) + "\n";
    assert KEYS[1..] == [Token, TokenFile, TokenKeyring] && KEYS[1..][1..] == [TokenFile, TokenKeyring];
    assert KEYS[1..][1..][1..] == [TokenKeyring] && KEYS[1..][1..][1..][1..] == [];
    hide Line, Lines;
    assert RenderKeys(c, KEYS[1..][1..][1..]) == "";
    assert RenderKeys(c, KEYS[1..][1..]) == "";
    assert RenderKeys(c, KEYS[1..]) == tail;
    assert Render(c) == (if a == "" then "" else Line(Addr, a) + "\n") + tail;
    NameFacts(Token);
    InlineTail(Name(Token) + "=", token);
    TokenLine(token);
    TokenLine(Lines(token)[0]);
    if a != "" {
      NameFacts(Addr);
      LineHasNoBreak(Addr, a);
      LinesFirst(Line(Addr, a), tail);
    } else {
      assert Render(c) == tail;
    }
  }

  lemma TokenLine(v: string)
    ensures Line(Token, v) == Name(Token) + "=" + v
  {}

  lemma LineHasNoBreak(k: ConfigKey, v: string)
    requires '\n' !in v
    ensures '\n' !in Line(k, v)
  {
    NameFacts(k);
  }

  lemma InlineTail(head: string, token: string)
    requires token != "" && Last(token) != '\n' && '\n' !in head
    ensures Lines(token) != [] && Lines(head + token + "\n") == [head + Lines(token)[0]] + Lines(token)[1..]
  {
    LinesBeforeBreak(token);
    LinesWithPrefix(head, token + "\n");
    assert head + token + "\n" == head + (token + "\n");
    hide Lines;
  }

  /** The value of a token source after loading a file with the inline `token`. */
  function InlineValue(token: string, k: ConfigKey): string
    requires Lines(token) != []
  {
    LastSet(Lines(token)[1..], k, if k.Token? then Trim(Lines(token)[0]) else "")
  }

  /** The lines of an inline token can be loaded: its first line fits behind the key, every other
      line is one that loading accepts, and together they name one source at most. */
  ghost predicate InlineLoads(token: string) {
    && Lines(token) != []
    && Fits(Line(Token, Lines(token)[0]))
    && (forall i :: 1 <= i < |Lines(token)| ==> Readable(Lines(token)[i]))
    && forall j: ConfigKey, k: ConfigKey ::
         !j.Addr? && !k.Addr? && InlineValue(token, j) != "" && InlineValue(token, k) != "" ==> j == k
  }

  lemma TokenEnds(token: string)
    requires token != "" && Trim(token) == token
    ensures Last(token) != '\n' && token[0] != '\n'
  {
    TrimRightEnds(token);
    TrimLeftEnds(TrimRight(token));
  }

  /** A line that was written for a value sets that value. */
  lemma WrittenLine(k: ConfigKey, v: string)
    requires v != ""
    ensures Readable(Line(k, v)) <==> Fits(Line(k, v))
    ensures Fits(Line(k, v)) ==> forall j, o :: LastSet([Line(k, v)], j, o) == if j == k then Trim(v) else o
  {
    if Fits(Line(k, v)) {
      forall j, o: string ensures LastSet([Line(k, v)], j, o) == if j == k then Trim(v) else o {
        var cfg: Config := map[j := o];
        ReadsBack(k, v, cfg);
        hide ParseLine, Trim, Setting, Readable, Line;
        ParseLineIff(Line(k, v), cfg);
        assert Value(cfg, j) == o;
      }
      ParseLineIff(Line(k, v), map[]);
      ReadsBack(k, v, map[]);
    }
  }

  /** What the lines of that file say. */
  lemma InlineLinesSay(cfg: Config, token: string, all: seq<string>)
    requires Clean(cfg) && AllFit(cfg) && Lines(token) != [] && Lines(token)[0] != ""
    requires var a := Value(cfg, Addr);
             all == (if a == "" then [] else [Line(Addr, a)]) + ([Line(Token, Lines(token)[0])] + Lines(token)[1..])
    ensures (forall i :: 0 <= i < |all| ==> Readable(all[i])) <==>
              Fits(Line(Token, Lines(token)[0])) && forall i :: 1 <= i < |Lines(token)| ==> Readable(Lines(token)[i])
    ensures Fits(Line(Token, Lines(token)[0])) ==>
              forall k :: LastSet(all, k, "") == (if k.Addr? then LastSet(Lines(token)[1..], Addr, Value(cfg, Addr)) else InlineValue(token, k))
  {
    var lines := Lines(token);
    var first := Line(Token, lines[0]);
    WrittenLine(Token, lines[0]);
    AddressFirst(cfg, [first] + lines[1..]);
    BodyReadable(first, lines);
    hide Lines, Trim, Line, Readable, Setting, Fits, LastSet;
    if Fits(first) {
      forall k ensures LastSet(all, k, "") == if k.Addr? then LastSet(lines[1..], Addr, Value(cfg, Addr)) else InlineValue(token, k) {
        var o := if k.Addr? then Value(cfg, Addr) else "";
        LastSetAfter(first, lines[1..], k, o);
        assert LastSet([first], k, o) == if k.Token? then Trim(lines[0]) else o;
      }
    }
  }

  lemma LastSetIsTrimmed(lines: seq<string>, k: ConfigKey, otherwise: string)
    requires Trim(otherwise) == "" ==> otherwise == ""
    ensures Trim(LastSet(lines, k, otherwise)) == "" ==> LastSet(lines, k, otherwise) == ""
  {
    if lines != [] {
      SettingIsTrimmed(Last(lines));
      hide Trim, Setting;
      LastSetIsTrimmed(Front(lines), k, otherwise);
    }
  }

  lemma SettingIsTrimmed(raw: string)
    ensures Setting(raw).Some? ==> (Trim(Setting(raw).value.1) == Setting(raw).value.1)
  {
    var line := Trim(DropCR(raw));
    var n := IndexOf(line, '=');
    if n < |line| { TrimTwice(line[n + 1..]); }
    hide Trim, DropCR;
  }

  /** Exactly when the file of an inline token loads, and what it then says. */
  lemma InlineTokenLoadsIff(cfg: Config, path: string, token: string)
    requires Clean(cfg) && AllFit(cfg) && token != "" && Trim(token) == token
    ensures var p := Parse(Render(TokenConfig(cfg, path, token, Inline)));
            && Lines(token) != []
            && (p.Ok? <==> InlineLoads(token))
            && (p.Ok? ==> forall k ::
                  Value(p.cfg, k) == (if k.Addr? then LastSet(Lines(token)[1..], Addr, Value(cfg, Addr)) else InlineValue(token, k)))
  {
    var all := Lines(Render(TokenConfig(cfg, path, token, Inline)));
    TokenEnds(token);
    InlineLines(cfg, path, token);
    FirstLineIsNotEmpty(token);
    InlineLinesSay(cfg, token, all);
    ParseLinesIff(all, map[]);
    hide Lines, Trim, Line, Readable, Setting, Fits, ParseLines, Render, InlineValue, LastSet, TokenConfig;
    var q := ParseLines(all, map[]);
    assert forall k: ConfigKey :: Value(map[], k) == "";
    if q.Ok? {
      forall k ensures Trim(Value(q.cfg, k)) == "" ==> Value(q.cfg, k) == "" {
        LastSetIsTrimmed(all, k, "");
      }
      SourcesOfInline(q.cfg, token);
    }
  }

  lemma FirstLineIsNotEmpty(token: string)
    requires token != "" && token[0] != '\n'
    ensures Lines(token) != [] && Lines(token)[0] != ""
  {}

  lemma BodyReadable(first: string, lines: seq<string>)
    requires lines != []
    ensures var body := [first] + lines[1..];
            (forall i :: 0 <= i < |body| ==> Readable(body[i])) <==>
              Readable(first) && forall i :: 1 <= i < |lines| ==> Readable(lines[i])
  {
    hide Readable;
    var body := [first] + lines[1..];
    assert body[0] == first && forall i :: 1 <= i < |lines| ==> body[i] == lines[i];
    if forall i :: 0 <= i < |body| ==> Readable(body[i]) {
      forall i | 1 <= i < |lines| ensures Readable(lines[i]) { assert Readable(body[i]); }
    }
  }

  lemma ReadableFirst(line: string, body: seq<string>)
    requires Readable(line)
    ensures (forall i :: 0 <= i < |[line] + body| ==> Readable(([line] + body)[i])) <==>
              forall i :: 0 <= i < |body| ==> Readable(body[i])
  {
    hide Readable;
    var all := [line] + body;
    assert forall i :: 0 <= i < |body| ==> all[i + 1] == body[i];
    if forall i :: 0 <= i < |all| ==> Readable(all[i]) {
      forall i | 0 <= i < |body| ensures Readable(body[i]) { assert Readable(all[i + 1]); }
    }
    if forall i :: 0 <= i < |body| ==> Readable(body[i]) {
      forall i | 0 <= i < |all| ensures Readable(all[i]) { assert i > 0 ==> all[i] == body[i - 1]; }
    }
  }

  /** The line of the address, if there is one, is read as the address. */
  lemma AddressFirst(cfg: Config, body: seq<string>)
    requires Clean(cfg) && AllFit(cfg)
    ensures var a := Value(cfg, Addr); var all := (if a == "" then [] else [Line(Addr, a)]) + body;
            && ((forall i :: 0 <= i < |all| ==> Readable(all[i])) <==> forall i :: 0 <= i < |body| ==> Readable(body[i]))
            && forall k :: LastSet(all, k, "") == LastSet(body, k, if k.Addr? then a else "")
  {
    var a := Value(cfg, Addr);
    if a == "" {
      assert [] + body == body;
    } else {
      AddressIsRead(cfg);
      hide Readable, Setting, Line, Trim, LastSet;
      var line := Line(Addr, a);
      ReadableFirst(line, body);
      forall k ensures LastSet([line] + body, k, "") == LastSet(body, k, if k.Addr? then a else "") {
        LastSetAfter(line, body, k, "");
      }
    }
  }

  lemma AddressIsRead(cfg: Config)
    requires Clean(cfg) && AllFit(cfg) && Value(cfg, Addr) != ""
    ensures var a := Value(cfg, Addr); var line := Line(Addr, a);
            Readable(line) && forall k :: LastSet([line], k, "") == if k.Addr? then a else ""
  {
    var a := Value(cfg, Addr);
    WrittenLine(Addr, a);
    assert Trim(a) == a;
    hide Readable, Setting, Line, Trim, LastSet;
  }

  /** Loaded values are trimmed, so a source is one that is not empty. */
  lemma SourcesOfInline(cfg: Config, token: string)
    requires Lines(token) != [] && (forall k: ConfigKey :: !k.Addr? ==> Value(cfg, k) == InlineValue(token, k))
    requires forall k: ConfigKey :: Trim(Value(cfg, k)) == "" ==> Value(cfg, k) == ""
    ensures OneSource(cfg) <==> forall j: ConfigKey, k: ConfigKey ::
              !j.Addr? && !k.Addr? && InlineValue(token, j) != "" && InlineValue(token, k) != "" ==> j == k
  {
    TrimEmpty();
    hide Trim, InlineValue, Lines;
    assert forall k: ConfigKey :: IsSource(cfg, k) <==> !k.Addr? && InlineValue(token, k) != "";
  }

  /** The lines of an inline token point the client to a place that holds this very token. */
  ghost predicate PointsToItself(h: Home, path: string, token: string) {
    && InlineLoads(token) && InlineValue(token, Token) == ""
    && if InlineValue(token, TokenFile) != "" then
         InlineValue(token, TokenFile) == path && h.tokenFile.Some? && Trim(h.tokenFile.value) == token
       else
         var account := Account(InlineValue(token, TokenKeyring));
         InlineValue(token, TokenKeyring) != "" && account in h.keyring && Trim(h.keyring[account]) == token
  }

  /** Without the exclusion: a saved token is found if and only if it is storable, or is an inline
      one whose own lines name the default token file or a keyring entry that holds it. */
  lemma SetTokenFoundExactly(h: Home, path: string, cmd: Command)
    requires Load(h).Ok? && GoodPath(path) && cmd.SetToken? && cmd.saveOk && (cmd.storage.Inline? || cmd.storeOk)
    requires Trim(cmd.token) != ""
    ensures var token := Trim(cmd.token); var h' := RunSetToken(h, path, cmd).0;
            Resolve(h', path) == Found(token) <==>
              Storable(token, cmd.storage) || (cmd.storage.Inline? && PointsToItself(h', path, token))
  {
    var token, cfg := Trim(cmd.token), Load(h).cfg;
    var h' := RunSetToken(h, path, cmd).0;
    if Storable(token, cmd.storage) {
      SetTokenExactly(h, path, cmd);
    } else {
      NotStorable(h, path, cmd);
      TrimTwice(cmd.token);
      LoadedIsGood(h);
      InlineTokenLoadsIff(cfg, path, token);
      InlineFile(h, path, cmd);
      hide Trim, Load, Account, InlineLoads, InlineValue, RunSetToken, Storable;
    }
  }

  lemma InlineFile(h: Home, path: string, cmd: Command)
    requires Load(h).Ok? && cmd.SetToken? && cmd.saveOk && cmd.storage.Inline? && Trim(cmd.token) != ""
    ensures Load(RunSetToken(h, path, cmd).0) == Parse(Render(TokenConfig(Load(h).cfg, path, Trim(cmd.token), Inline)))
  {
    var cfg := Load(h).cfg;
    var c := TokenConfig(cfg, path, Trim(cmd.token), Inline);
    DeletesNoConfig(Save(h, c), path, cfg, c, cmd.cleaning);
    hide Trim, TokenConfig, Render, Parse;
  }

  // ----- Runs -----

  /** A command that leaves a readable file readable: a value fits its line, and the lines of an
      inline token can be loaded. */
  ghost predicate Admissible(cmd: Command) {
    match cmd
    case Set(name, value, saveOk, _) =>
      SetAllowed(name, value) && saveOk && value != "" ==> Fits(Line(KeyNamed(name).value, value))
    case SetToken(token, storage, _, saveOk, _) =>
      Trim(token) != "" && storage.Inline? && saveOk ==> InlineLoads(Trim(token))
    case _ => true
  }

  lemma NextLoadsIff(h: Home, path: string, cmd: Command)
    requires Load(h).Ok? && GoodPath(path)
    ensures Load(Next(h, path, cmd)).Ok? <==> Admissible(cmd)
  {
    hide Trim, InlineLoads, Fits, Parse;
    match cmd
    case Set(name, value, saveOk, _) =>
      if SetAllowed(name, value) && saveOk {
        SetExactly(h, path, cmd);
      }
    case Unset(name, saveOk) => UnsetExactly(h, path, name, Cleaned);
    case UnsetToken(saveOk, cleaning) => UnsetExactly(h, path, "", cleaning);
    case SetToken(token, storage, storeOk, saveOk, cleaning) => SetTokenLoadsIff(h, path, cmd);
  }

  lemma SetTokenLoadsIff(h: Home, path: string, cmd: Command)
    requires Load(h).Ok? && GoodPath(path) && cmd.SetToken?
    ensures Load(RunSetToken(h, path, cmd).0).Ok? <==> Admissible(cmd)
  {
    var token, cfg := Trim(cmd.token), Load(h).cfg;
    var h' := RunSetToken(h, path, cmd).0;
    var c := TokenConfig(cfg, path, token, cmd.storage);
    var stored := StoreToken(h, token, cmd.storage);
    DeletesNoConfig(stored, path, c, cfg, cmd.cleaning);
    DeletesNoConfig(Save(stored, c), path, cfg, c, cmd.cleaning);
    TrimTwice(cmd.token);
    LoadedIsGood(h);
    hide Trim, InlineLoads, Fits, Parse, TokenConfig, Render, DeleteBackend;
    if token != "" && cmd.saveOk {
      if cmd.storage.Inline? {
        InlineTokenLoadsIff(cfg, path, token);
      } else if cmd.storeOk {
        SetTokenExactly(h, path, cmd);
      }
    }
  }

  lemma UnreadableStays(h: Home, path: string, cmd: Command)
    requires Load(h).Err?
    ensures Next(h, path, cmd) == h
  {}

  /** Over every sequence of commands, with any of their writes and deletions failing, the saved
      file can be loaded if and only if each command is admissible, and then it names at most one
      token source. */
  lemma {:induction false} EverySequenceLoads(path: string, cmds: seq<Command>)
    requires GoodPath(path)
    ensures var h := Run(EMPTY, path, cmds);
            && (Load(h).Ok? <==> forall i :: 0 <= i < |cmds| ==> Admissible(cmds[i]))
            && (Load(h).Ok? ==> OneSource(Load(h).cfg))
  {
    hide Next, Trim, OneSource, Admissible;
    if cmds != [] {
      var h := Run(EMPTY, path, Front(cmds));
      EverySequenceLoads(path, Front(cmds));
      assert (forall i :: 0 <= i < |cmds| ==> Admissible(cmds[i])) <==>
               (forall i :: 0 <= i < |Front(cmds)| ==> Admissible(Front(cmds)[i])) && Admissible(Last(cmds));
      if Load(h).Ok? {
        NextLoadsIff(h, path, Last(cmds));
      } else {
        UnreadableStays(h, path, Last(cmds));
      }
    }
    if Load(Run(EMPTY, path, cmds)).Ok? {
      LoadedIsGood(Run(EMPTY, path, cmds));
    }
  }

  /** `config unset-token` leaves nothing behind: no source in the file, and once it reports success
      neither the default token file nor the keyring entry the file named. */
  lemma UnsetTokenLeavesNothing(h: Home, path: string, cleaning: Cleaning)
    requires Load(h).Ok?
    ensures var (h', ok) := RunUnsetToken(h, path, true, cleaning); var cfg := Load(h).cfg;
            && Resolve(h', path) == NoToken
            && (cleaning.Cleaned? ==> ok)
            && (ok && Value(cfg, TokenFile) == path && path != "" ==> h'.tokenFile.None?)
            && (ok && Value(cfg, TokenKeyring) != "" ==> Account(Value(cfg, TokenKeyring)) !in h'.keyring)
  {
    UnsetExactly(h, path, "", cleaning);
    var h' := RunUnsetToken(h, path, true, cleaning).0;
    hide Load, Account;
    assert Value(Load(h').cfg, Token) == "" && Value(Load(h').cfg, TokenFile) == "" && Value(Load(h').cfg, TokenKeyring) == "";
  }

  /** `config set token_keyring` deletes the previous keyring's entry whenever the text differs,
      but entries are found by the trimmed name: the entry now named survives exactly when the
      texts are equal or the accounts differ. */
  lemma SetKeyringKeepsEntryIff(h: Home, path: string, value: string)
    requires Load(h).Ok? && SetAllowed("token_keyring", value) && Account(value) in h.keyring
    ensures var previous := Value(Load(h).cfg, TokenKeyring);
            var h' := RunSet(h, path, Set("token_keyring", value, true, Cleaned)).0;
            Account(value) in h'.keyring <==> previous == "" || previous == value || Account(previous) != Account(value)
  {
    hide Load, Account;
    assert KeyNamed("token_keyring") == Some(TokenKeyring);
    assert Value(SetConfig(Load(h).cfg, TokenKeyring, value), TokenKeyring) == value;
  }

  lemma TrimNewline(token: string)
    requires token != "" && Trim(token) == token
    ensures Trim(token + "\n") == token
  {
    TrimTwice(token);
    TrimRightEnds(token);
    assert Front(token + "\n") == token;
    TrimLeftLength(TrimRight(token));
    TrimRightLength(token);
  }

  lemma {:induction false} TrimRightLength(s: string)
    ensures |TrimRight(s)| <= |s| && (TrimRight(s) != s ==> |TrimRight(s)| < |s|)
  {
    if s != [] && IsSpace(Last(s)) {
      TrimRightLength(Front(s));
    }
  }

  lemma {:induction false} TrimLeftLength(s: string)
    ensures |TrimLeft(s)| <= |s|
  {
    if s != [] && IsSpace(s[0]) {
      TrimLeftLength(s[1..]);
    }
  }
}
