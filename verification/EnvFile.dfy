/** The GoTrue environment file of `auth_workers.py`: printing it, and reading it back in `migrate`. */
module EnvFile {
  import opened Results
  import opened PyText

  datatype AuthWorkerError = HookWithoutSecret | KeyMissing(key: string)

  datatype AuthSettings = AuthSettings(
    projectRef: string, database: string, authRole: string, authPassword: string, jwtSecret: string, port: int,
    siteUrl: string, externalUrl: string, dbHost: string, dbPort: int, autoconfirm: bool, disableSignup: bool,
    jwtExpSeconds: int, sendEmailHookUri: Option<string>, sendEmailHookSecret: Option<string>)

  datatype Pair = Pair(key: string, value: string)

  type Env = map<string, string>

  // ---------------------------------------------------------------- printing

  function Escape(value: string): string {
    Replace(Replace(value, "\\", "\\\\"), "\"", "\\\"")
  }

  function Quote(value: string): string {
    "\"" + Escape(value) + "\""
  }

  function Flag(b: bool): string {
    if b then "true" else "false"
  }

  /** Python's truth of an optional string. */
  predicate Given(s: Option<string>) {
    s.Some? && s.value != ""
  }

  function Dsn(s: AuthSettings): string {
    "postgres://" + s.authRole + ":" + s.authPassword + "@" + s.dbHost + ":" + Decimal(s.dbPort) + "/" + s.database
  }

  function BasePairs(s: AuthSettings): seq<Pair> {
    [ Pair("GOTRUE_DB_DRIVER", "postgres"),
      Pair("GOTRUE_DB_DATABASE_URL", Dsn(s)),
      Pair("GOTRUE_DB_NAMESPACE", "auth"),
      Pair("GOTRUE_JWT_SECRET", s.jwtSecret),
      Pair("GOTRUE_JWT_AUD", "authenticated"),
      Pair("GOTRUE_JWT_DEFAULT_GROUP_NAME", "authenticated"),
      Pair("GOTRUE_JWT_EXP", Decimal(s.jwtExpSeconds)),
      Pair("GOTRUE_API_HOST", "127.0.0.1"),
      Pair("GOTRUE_API_PORT", Decimal(s.port)),
      Pair("API_EXTERNAL_URL", s.externalUrl),
      Pair("GOTRUE_SITE_URL", s.siteUrl),
      Pair("GOTRUE_MAILER_AUTOCONFIRM", Flag(s.autoconfirm)),
      Pair("GOTRUE_DISABLE_SIGNUP", Flag(s.disableSignup)),
      Pair("GOTRUE_LOG_LEVEL", "info") ]
  }

  function HookPairs(uri: string, secret: string): seq<Pair> {
    [ Pair("GOTRUE_HOOK_SEND_EMAIL_ENABLED", "true"),
      Pair("GOTRUE_HOOK_SEND_EMAIL_URI", uri),
      Pair("GOTRUE_HOOK_SEND_EMAIL_SECRETS", secret) ]
  }

  function Pairs(s: AuthSettings): Result<seq<Pair>, AuthWorkerError> {
    if !Given(s.sendEmailHookUri) then Ok(BasePairs(s))
    else if !Given(s.sendEmailHookSecret) then Raised(HookWithoutSecret)
    else Ok(BasePairs(s) + HookPairs(s.sendEmailHookUri.value, s.sendEmailHookSecret.value))
  }

  function Line(p: Pair): string {
    p.key + "=" + Quote(p.value)
  }

  function Lines(pairs: seq<Pair>): seq<string> {
    if pairs == [] then [] else [Line(pairs[0])] + Lines(pairs[1..])
  }

  function Header(projectRef: string): seq<string> {
    [ "# MaluDB project " + projectRef + ". Generated -- do not edit.",
      "# Contains live credentials; " + "mode 0600, never committed, " + "never logged.",
      "" ]
  }

  function RenderEnv(s: AuthSettings): Result<string, AuthWorkerError> {
    match Pairs(s)
    case Raised(e) => Raised(e)
    case Ok(pairs) => Ok(Join(Header(s.projectRef) + Lines(pairs) + [""], "\n"))
  }

  // ----------------------------------------------------------------- reading

  predicate IsQuote(c: char) {
    c == '"'
  }

  function Unquote(raw: string): string {
    Replace(Replace(StripBy(raw, IsQuote), "\\\"", "\""), "\\\\", "\\")
  }

  function ReadLine(env: Env, line: string): Env {
    if line == "" || StartsWith(line, "#") then env
    else
      var (key, raw) := Partition(line, '=');
      env[key := Unquote(raw)]
  }

  /** The environment the lines leave when they are read in order onto `env`. */
  function ReadLines(env: Env, lines: seq<string>): Env
    decreases |lines|
  {
    if lines == [] then env else ReadLines(ReadLine(env, lines[0]), lines[1..])
  }

  function ReadEnv(text: string): Env {
    ReadLines(map[], SplitLines(text))
  }

  const DATABASE_URL := "GOTRUE_DB_DATABASE_URL"

  /** The environment `migrate` hands to GoTrue. */
  function MigrateEnv(s: AuthSettings): Result<Env, AuthWorkerError> {
    match RenderEnv(s)
    case Raised(e) => Raised(e)
    case Ok(text) =>
      var env := ReadEnv(text);
      if DATABASE_URL !in env then Raised(KeyMissing(DATABASE_URL))
      else Ok(env["DATABASE_URL" := env[DATABASE_URL]]["PATH" := "/usr/bin:/bin"])
  }

  /** `migrate`, up to the subprocess. */
  method Migrate(s: AuthSettings) returns (r: Result<Env, AuthWorkerError>)
    ensures r == MigrateEnv(s)
  {
    var text := RenderEnv(s);
    if text.Raised? {
      return Raised(text.error);
    }
    var env: Env := map[];
    var lines := SplitLines(text.value);
    var i := 0;
    while i < |lines|
      invariant 0 <= i <= |lines|
      invariant ReadLines(env, lines[i..]) == ReadLines(map[], lines)
    {
      var line := lines[i];
      assert lines[i..][1..] == lines[i + 1..];
      i := i + 1;
      if line == "" || StartsWith(line, "#") {
        continue;
      }
      var (key, raw) := Partition(line, '=');
      env := env[key := Unquote(raw)];
    }
    if DATABASE_URL !in env {
      return Raised(KeyMissing(DATABASE_URL));
    }
    env := env["DATABASE_URL" := env[DATABASE_URL]];
    env := env["PATH" := "/usr/bin:/bin"];
    return Ok(env);
  }

  // --------------------------------------------------- one value, there and back

  /** What a value has become once it was quoted and unquoted. */
  function Received(value: string): string {
    if EndsWith(value, '"') then value[..|value| - 1] + "\\" else value
  }

  function Doubled(value: string): string {
    Replace(value, "\\", "\\\\")
  }

  lemma {:induction false} ReplaceCons(c: char, s: string, old_: char, new_: string)
    ensures Replace([c] + s, [old_], new_) == (if c == old_ then new_ else [c]) + Replace(s, [old_], new_)
  {
    var whole := [c] + s;
    assert whole[1..] == s;
    if c == old_ {
      assert whole[..1] == [old_];
    } else {
      assert whole[0] != [old_][0];
    }
  }

  function EscapeChar(c: char): string {
    if c == '\\' then "\\\\" else if c == '"' then "\\\"" else [c]
  }

  lemma {:induction false} DoubledCons(c: char, s: string)
    ensures Doubled([c] + s) == (if c == '\\' then "\\\\" else [c]) + Doubled(s)
  {
    ReplaceCons(c, s, '\\', "\\\\");
  }

  lemma {:induction false} EscapeCons(c: char, s: string)
    ensures Escape([c] + s) == EscapeChar(c) + Escape(s)
  {
    hide Replace;
    DoubledCons(c, s);
    var d := Doubled(s);
    if c == '\\' {
      ReplaceCons('\\', "\\" + d, '"', "\\\"");
      ReplaceCons('\\', d, '"', "\\\"");
      assert "\\\\" + d == ['\\'] + ("\\" + d);
    } else {
      ReplaceCons(c, d, '"', "\\\"");
    }
  }

  lemma {:induction false} EscapeFirst(s: string)
    ensures Escape(s) == "" || Escape(s)[0] != '"'
  {
    if s != "" {
      assert s == [s[0]] + s[1..];
      EscapeCons(s[0], s[1..]);
    }
  }

  /** The first replacement of `migrate` undoes the escaped quotes and nothing else, whatever single
      backslash the stripping has left behind. */
  lemma {:induction false} UnescapeQuotes(s: string, rest: string)
    requires rest == "" || rest == "\\"
    ensures Replace(Escape(s) + rest, "\\\"", "\"") == Doubled(s) + rest
  {
    hide Escape, Doubled, Replace, EscapeChar;
    if s == "" {
      UnescapeNothing(rest);
    } else {
      var c, t := s[0], s[1..];
      assert s == [c] + t;
      EscapeCons(c, t);
      DoubledCons(c, t);
      UnescapeQuotes(t, rest);
      var tail := Escape(t) + rest;
      assert Escape(s) + rest == EscapeChar(c) + tail;
      EscapeFirst(t);
      UnescapeHead(c, tail);
    }
  }

  lemma {:induction false} UnescapeNothing(rest: string)
    requires rest == "" || rest == "\\"
    ensures Replace(Escape("") + rest, "\\\"", "\"") == Doubled("") + rest
    ensures Doubled("") == ""
  {
    assert Escape("") + rest == rest;
  }

  lemma {:induction false} UnescapeHead(c: char, tail: string)
    requires tail == "" || tail[0] != '"'
    ensures Replace(EscapeChar(c) + tail, "\\\"", "\"")
            == (if c == '\\' then "\\\\" else [c]) + Replace(tail, "\\\"", "\"")
  {
    var s := EscapeChar(c) + tail;
    if c == '"' {
      assert s[2..] == tail;
    } else if c == '\\' {
      assert s[1..] == "\\" + tail;
      assert ("\\" + tail)[1..] == tail;
    } else {
      assert s[1..] == tail;
    }
  }

  /** The second replacement halves every run of backslashes. */
  lemma {:induction false} HalveBackslashes(s: string, rest: string)
    requires rest == "" || rest == "\\"
    ensures Replace(Doubled(s) + rest, "\\\\", "\\") == s + rest
  {
    hide Doubled, Replace;
    if s == "" {
      HalveNothing(rest);
    } else {
      var c, t := s[0], s[1..];
      assert s == [c] + t;
      DoubledCons(c, t);
      HalveBackslashes(t, rest);
      var tail := Doubled(t) + rest;
      assert Doubled(s) + rest == (if c == '\\' then "\\\\" else [c]) + tail;
      HalveHead(c, tail);
      assert s + rest == [c] + (t + rest);
    }
  }

  lemma {:induction false} HalveNothing(rest: string)
    requires rest == "" || rest == "\\"
    ensures Replace(Doubled("") + rest, "\\\\", "\\") == "" + rest
  {
    assert Doubled("") + rest == rest;
  }

  lemma {:induction false} HalveHead(c: char, tail: string)
    ensures Replace((if c == '\\' then "\\\\" else [c]) + tail, "\\\\", "\\") == [c] + Replace(tail, "\\\\", "\\")
  {
    if c == '\\' {
      var s := "\\\\" + tail;
      assert s[2..] == tail && s[..2] == "\\\\";
    } else {
      var s := [c] + tail;
      assert s[1..] == tail && s[0] != "\\\\"[0];
    }
  }

  lemma {:induction false} EscapeLast(s: string, c: char)
    ensures Escape(s + [c]) == Escape(s) + EscapeChar(c)
  {
    if s == "" {
      assert s + [c] == [c] + "";
      EscapeCons(c, "");
    } else {
      assert s == [s[0]] + s[1..];
      assert s + [c] == [s[0]] + (s[1..] + [c]);
      EscapeCons(s[0], s[1..] + [c]);
      EscapeCons(s[0], s[1..]);
      EscapeLast(s[1..], c);
    }
  }

  lemma {:induction false} RStripQuotes(s: string, quotes: nat)
    requires !EndsWith(s, '"') && quotes <= 2
    ensures RStrip(s + "\"\""[..quotes], IsQuote) == s
  {
    var whole := s + "\"\""[..quotes];
    if quotes == 0 {
      assert whole == s;
    } else {
      assert whole[..|whole| - 1] == s + "\"\""[..quotes - 1];
      RStripQuotes(s, quotes - 1);
    }
  }

  /** Stripping quotes takes the closing quote, and with it a quote the value ends in. */
  lemma {:induction false} StripQuoted(value: string)
    ensures !EndsWith(value, '"') ==> StripBy(Quote(value), IsQuote) == Escape(value)
    ensures EndsWith(value, '"') ==> StripBy(Quote(value), IsQuote) == Escape(value[..|value| - 1]) + "\\"
  {
    EscapeFirst(value);
    var e := Escape(value);
    assert Quote(value)[1..] == e + "\"";
    if value == "" {
      assert LStrip("\"", IsQuote) == LStrip("\""[1..], IsQuote) == "";
    } else {
      var last, init := value[|value| - 1], value[..|value| - 1];
      assert value == init + [last];
      EscapeLast(init, last);
      assert LStrip(Quote(value), IsQuote) == e + "\"";
      if last == '"' {
        assert e + "\"" == (Escape(init) + "\\") + "\"\""[..2];
        RStripQuotes(Escape(init) + "\\", 2);
      } else {
        assert e + "\"" == e + "\"\""[..1];
        RStripQuotes(e, 1);
      }
    }
  }

  /** `_quote` then the stripping and replacing of `migrate`, for every value. */
  lemma {:induction false} UnquoteQuote(value: string)
    ensures Unquote(Quote(value)) == Received(value)
    ensures Unquote(Quote(value)) == value <==> !EndsWith(value, '"')
  {
    StripQuoted(value);
    if EndsWith(value, '"') {
      UnescapeQuotes(value[..|value| - 1], "\\");
      HalveBackslashes(value[..|value| - 1], "\\");
    } else {
      UnescapeQuotes(value, "");
      HalveBackslashes(value, "");
      assert Escape(value) + "" == Escape(value) && Doubled(value) + "" == Doubled(value) && value + "" == value;
    }
  }

  // ------------------------------------------------------ the whole file

  /** A value the file can carry: it is one line, and does not end in a double quote. */
  predicate Carried(value: string) {
    NoBreak(value) && !EndsWith(value, '"')
  }

  predicate KeyChar(c: char) {
    'A' <= c <= 'Z' || c == '_'
  }

  /** A key as `render_env` writes them. */
  predicate GoodKey(key: string) {
    key != "" && forall i :: 0 <= i < |key| ==> KeyChar(key[i])
  }

  ghost predicate GoodPairs(pairs: seq<Pair>) {
    && (forall p <- pairs :: GoodKey(p.key))
    && forall i, j :: 0 <= i < j < |pairs| ==> pairs[i].key != pairs[j].key
  }

  function Keys(pairs: seq<Pair>): set<string> {
    set p <- pairs :: p.key
  }

  /** Exactly the rendered keys, each with its rendered value. */
  ghost predicate Holds(env: Env, pairs: seq<Pair>) {
    env.Keys == Keys(pairs) && forall p <- pairs :: env[p.key] == p.value
  }

  /** The pair lines as one text, every line with its line feed. */
  function Body(pairs: seq<Pair>): string {
    if pairs == [] then "" else Line(pairs[0]) + ['\n'] + Body(pairs[1..])
  }

  /** The environment after the values of `pairs` have arrived one by one. */
  function Deliver(env: Env, pairs: seq<Pair>): Env
    decreases |pairs|
  {
    if pairs == [] then env else Deliver(env[pairs[0].key := Received(pairs[0].value)], pairs[1..])
  }

  lemma {:induction false} JoinLines(pairs: seq<Pair>)
    ensures Join(Lines(pairs) + [""], "\n") == Body(pairs)
  {
    if pairs != [] {
      var rest := Lines(pairs[1..]) + [""];
      assert Lines(pairs) + [""] == [Line(pairs[0])] + rest;
      assert ([Line(pairs[0])] + rest)[1..] == rest;
      JoinLines(pairs[1..]);
    }
  }

  function HeaderText(projectRef: string): string {
    Header(projectRef)[0] + "\n" + Header(projectRef)[1] + "\n"
  }

  lemma {:induction false} JoinAll(projectRef: string, pairs: seq<Pair>)
    ensures Join(Header(projectRef) + Lines(pairs) + [""], "\n")
            == HeaderText(projectRef) + ['\n'] + Body(pairs)
  {
    var h := Header(projectRef);
    var tail := Lines(pairs) + [""];
    JoinLines(pairs);
    var all := h + Lines(pairs) + [""];
    assert all[1..] == [h[1], h[2]] + tail;
    assert all[1..][1..] == [h[2]] + tail;
    assert all[1..][1..][1..] == tail;
    assert h[2] == "";
    assert "" + "\n" + Body(pairs) == ['\n'] + Body(pairs);
    assert Join(all[1..][1..], "\n") == "" + "\n" + Body(pairs);
    assert Join(all[1..], "\n") == h[1] + "\n" + (['\n'] + Body(pairs));
    assert Join(all, "\n") == h[0] + "\n" + (h[1] + "\n" + (['\n'] + Body(pairs)));
  }

  lemma {:induction false} ReadConcat(env: Env, a: seq<string>, b: seq<string>)
    ensures ReadLines(env, a + b) == ReadLines(ReadLines(env, a), b)
    decreases |a|
  {
    if a == [] {
      assert a + b == b;
    } else {
      assert (a + b)[1..] == a[1..] + b;
      ReadConcat(ReadLine(env, a[0]), a[1..], b);
    }
  }

  lemma {:induction false} PartitionKey(key: string, raw: string)
    requires '=' !in key
    ensures Partition(key + "=" + raw, '=') == (key, raw)
  {
    var s := key + "=" + raw;
    var n := Find(s, '=');
    assert s[|key|] == '=';
    assert forall i :: 0 <= i < |key| ==> s[i] == key[i];
    assert s[..n] == key && s[n + 1..] == raw;
  }

  lemma {:induction false} QuoteIsOneLine(value: string)
    requires NoBreak(value)
    ensures NoBreak(Quote(value))
  {
    ReplaceKeepsNoBreak(value, "\\", "\\\\");
    ReplaceKeepsNoBreak(Doubled(value), "\"", "\\\"");
  }

  lemma {:induction false} ReadPairLine(env: Env, p: Pair)
    requires GoodKey(p.key)
    ensures ReadLine(env, Line(p)) == env[p.key := Received(p.value)]
  {
    var line := Line(p);
    assert line == p.key + "=" + Quote(p.value);
    assert line[0] == p.key[0] && KeyChar(p.key[0]);
    PartitionKey(p.key, Quote(p.value));
    UnquoteQuote(p.value);
  }

  lemma {:induction false} ReadBody(env: Env, pairs: seq<Pair>)
    requires forall p <- pairs :: GoodKey(p.key) && NoBreak(p.value)
    ensures ReadLines(env, SplitLines(Body(pairs))) == Deliver(env, pairs)
    decreases |pairs|
  {
    if pairs != [] {
      var p, rest := pairs[0], pairs[1..];
      assert p in pairs;
      QuoteIsOneLine(p.value);
      assert "" + Line(p) == Line(p);
      SplitFirstLine("", Line(p), Body(rest));
      var lines := [Line(p)] + SplitLines(Body(rest));
      assert lines[1..] == SplitLines(Body(rest));
      ReadPairLine(env, p);
      ReadBody(env[p.key := Received(p.value)], rest);
    }
  }

  lemma {:induction false} DeliverLeaves(env: Env, pairs: seq<Pair>, key: string)
    requires forall p <- pairs :: p.key != key
    ensures key in Deliver(env, pairs) <==> key in env
    ensures key in env ==> Deliver(env, pairs)[key] == env[key]
    decreases |pairs|
  {
    if pairs != [] {
      assert pairs[0] in pairs;
      DeliverLeaves(env[pairs[0].key := Received(pairs[0].value)], pairs[1..], key);
    }
  }

  lemma {:induction false} Delivered(env: Env, pairs: seq<Pair>, i: nat)
    requires GoodPairs(pairs) && i < |pairs|
    ensures pairs[i].key in Deliver(env, pairs)
    ensures Deliver(env, pairs)[pairs[i].key] == Received(pairs[i].value)
    decreases i
  {
    var p, rest := pairs[0], pairs[1..];
    var next := env[p.key := Received(p.value)];
    if i == 0 {
      DeliverLeaves(next, rest, p.key);
    } else {
      assert pairs[i] == rest[i - 1];
      Delivered(next, rest, i - 1);
    }
  }

  /** The keys are those that were there and those of the pairs; every pair's value is the received one. */
  lemma {:induction false} DeliveredAll(env: Env, pairs: seq<Pair>)
    requires GoodPairs(pairs)
    ensures Deliver(env, pairs).Keys == env.Keys + Keys(pairs)
    ensures forall p <- pairs :: p.key in Deliver(env, pairs) && Deliver(env, pairs)[p.key] == Received(p.value)
  {
    var out := Deliver(env, pairs);
    forall p <- pairs ensures p.key in out && out[p.key] == Received(p.value) {
      var i :| 0 <= i < |pairs| && pairs[i] == p;
      Delivered(env, pairs, i);
    }
    forall key ensures key in out <==> key in env || key in Keys(pairs) {
      if key !in Keys(pairs) {
        DeliverLeaves(env, pairs, key);
      }
    }
  }

  lemma {:induction false} ReadValuesAreOneLine(env: Env, lines: seq<string>)
    requires forall line <- lines :: NoBreak(line)
    requires forall key <- env :: NoBreak(env[key])
    ensures forall key <- ReadLines(env, lines) :: NoBreak(ReadLines(env, lines)[key])
    decreases |lines|
  {
    if lines != [] {
      var line := lines[0];
      assert line in lines;
      var (key, raw) := Partition(line, '=');
      UnquoteIsOneLine(raw);
      ReadValuesAreOneLine(ReadLine(env, line), lines[1..]);
    }
  }

  lemma {:induction false} UnquoteIsOneLine(raw: string)
    requires NoBreak(raw)
    ensures NoBreak(Unquote(raw))
  {
    var l := LStrip(raw, IsQuote);
    LStripIsSuffix(raw, IsQuote);
    RStripIsPrefix(l, IsQuote);
    var stripped := StripBy(raw, IsQuote);
    ReplaceKeepsNoBreak(stripped, "\\\"", "\"");
    ReplaceKeepsNoBreak(Replace(stripped, "\\\"", "\""), "\\\\", "\\");
  }

  /** The keys a project ref smuggles into the environment through the comment line that names it. */
  function Smuggled(projectRef: string): Env {
    ReadEnv(HeaderText(projectRef) + ['\n'])
  }

  /** Where a key stands in the file, told by its length and one character. */
  ghost function Position(key: string): int {
    match |key|
    case 14 => if key[11] == 'A' then 4 else 6
    case 15 => if key[11] == 'H' then 7 else if key[11] == 'P' then 8 else 10
    case 16 => if key[12] == 'I' then 0 else if key[12] == '_' then 9 else 13
    case 17 => 3
    case 19 => 2
    case 21 => 12
    case 22 => 1
    case 25 => 11
    case 26 => 15
    case 29 => 5
    case 30 => if key[23] == 'E' then 14 else 16
    case _ => -1
  }

  ghost predicate KeyAt(key: string, position: int) {
    Position(key) == position && GoodKey(key)
  }

  lemma {:induction false} DatabaseKeys()
    ensures KeyAt("GOTRUE_DB_DRIVER", 0)
    ensures KeyAt("GOTRUE_DB_DATABASE_URL", 1)
    ensures KeyAt("GOTRUE_DB_NAMESPACE", 2)
    ensures KeyAt("GOTRUE_JWT_SECRET", 3)
  {
  }

  lemma {:induction false} TokenKeys()
    ensures KeyAt("GOTRUE_JWT_AUD", 4)
    ensures KeyAt("GOTRUE_JWT_DEFAULT_GROUP_NAME", 5)
    ensures KeyAt("GOTRUE_JWT_EXP", 6)
  {
  }

  lemma {:induction false} AddressKeys()
    ensures KeyAt("GOTRUE_API_HOST", 7)
    ensures KeyAt("GOTRUE_API_PORT", 8)
    ensures KeyAt("API_EXTERNAL_URL", 9)
    ensures KeyAt("GOTRUE_SITE_URL", 10)
  {
  }

  lemma {:induction false} SwitchKeys()
    ensures KeyAt("GOTRUE_MAILER_AUTOCONFIRM", 11)
    ensures KeyAt("GOTRUE_DISABLE_SIGNUP", 12)
    ensures KeyAt("GOTRUE_LOG_LEVEL", 13)
  {
  }

  lemma {:induction false} HookKeys()
    ensures KeyAt("GOTRUE_HOOK_SEND_EMAIL_ENABLED", 14)
    ensures KeyAt("GOTRUE_HOOK_SEND_EMAIL_URI", 15)
    ensures KeyAt("GOTRUE_HOOK_SEND_EMAIL_SECRETS", 16)
  {
  }

  lemma {:induction false} PairKeys(s: AuthSettings)
    requires Pairs(s).Ok?
    ensures forall i :: 0 <= i < |Pairs(s).value| ==> KeyAt(Pairs(s).value[i].key, i)
  {
    hide KeyAt;
    DatabaseKeys();
    TokenKeys();
    AddressKeys();
    SwitchKeys();
    HookKeys();
  }

  lemma {:induction false} PairsAreGood(s: AuthSettings)
    requires Pairs(s).Ok?
    ensures GoodPairs(Pairs(s).value)
    ensures forall i :: 0 <= i < |Pairs(s).value| ==> Position(Pairs(s).value[i].key) == i
  {
    hide Pairs, Position, GoodKey;
    PairKeys(s);
    var pairs := Pairs(s).value;
    assert forall i :: 0 <= i < |pairs| ==> Position(pairs[i].key) == i && GoodKey(pairs[i].key);
  }

  /** What is read is the comment's smuggled keys, with the pair lines read on top of them. */
  lemma {:induction false} ReadSplits(s: AuthSettings)
    requires RenderEnv(s).Ok?
    ensures ReadEnv(RenderEnv(s).value)
            == ReadLines(Smuggled(s.projectRef), SplitLines(Body(Pairs(s).value)))
  {
    var pairs, head := Pairs(s).value, HeaderText(s.projectRef);
    JoinAll(s.projectRef, pairs);
    SplitAppend("", head, Body(pairs));
    ReadConcat(map[], SplitLines(head + ['\n']), SplitLines(Body(pairs)));
  }

  lemma {:induction false} BrokenValueIsLost(text: string, pairs: seq<Pair>)
    requires Holds(ReadEnv(text), pairs)
    ensures forall p <- pairs :: NoBreak(p.value)
  {
    LinesHaveNoBreak("", text);
    ReadValuesAreOneLine(map[], SplitLines(text));
  }

  lemma {:induction false} OneLineValuesArrive(env: Env, pairs: seq<Pair>)
    requires GoodPairs(pairs)
    requires forall p <- pairs :: NoBreak(p.value)
    ensures Holds(ReadLines(env, SplitLines(Body(pairs))), pairs)
            <==> (forall p <- pairs :: Carried(p.value)) && env.Keys <= Keys(pairs)
  {
    ReadBody(env, pairs);
    DeliveredAll(env, pairs);
  }

  /** Reading back what was printed gives exactly the printed pairs if and only if every value is one
      line that does not end in a double quote, and the project ref adds no key of its own. */
  lemma {:induction false} RoundTrip(s: AuthSettings)
    requires RenderEnv(s).Ok?
    ensures Holds(ReadEnv(RenderEnv(s).value), Pairs(s).value)
            <==> (forall p <- Pairs(s).value :: Carried(p.value)) && Smuggled(s.projectRef).Keys <= Keys(Pairs(s).value)
  {
    var pairs, text := Pairs(s).value, RenderEnv(s).value;
    PairsAreGood(s);
    ReadSplits(s);
    if Holds(ReadEnv(text), pairs) {
      BrokenValueIsLost(text, pairs);
    }
    if forall p <- pairs :: NoBreak(p.value) {
      OneLineValuesArrive(Smuggled(s.projectRef), pairs);
    }
  }

  lemma {:induction false} CommentsAddNothing(a: string, b: string)
    requires NoBreak(a) && NoBreak(b) && StartsWith(a, "#") && StartsWith(b, "#")
    ensures ReadEnv(a + "\n" + b + "\n" + ['\n']) == map[]
  {
    var last := b + ['\n'] + ['\n'];
    assert a + "\n" + b + "\n" + ['\n'] == a + ['\n'] + last;
    SplitFirstLine("", a, last);
    SplitFirstLine("", b, ['\n']);
    SplitFirstLine("", "", "");
    assert "" + a == a && "" + b == b && "" + ['\n'] + "" == ['\n'];
    var lines := [a] + ([b] + [""]);
    assert SplitLines(a + ['\n'] + last) == lines;
    assert lines[1..] == [b] + [""] && lines[1..][1..] == [""];
    assert ReadLines(map[], [""]) == map[];
    assert ReadLines(map[], [b] + [""]) == map[];
    assert ReadLines(map[], lines) == map[];
  }

  lemma {:induction false} FirstCommentIsOneLine()
    ensures NoBreak("# MaluDB project ") && NoBreak(". Generated -- do not edit.")
  {
    PrintableHasNoBreak("# MaluDB project ");
    PrintableHasNoBreak(". Generated -- do not edit.");
  }

  lemma {:induction false} SecondCommentIsOneLine()
    ensures NoBreak("# Contains live credentials; ") && NoBreak("mode 0600, never committed, ")
    ensures NoBreak("never logged.")
  {
    PrintableHasNoBreak("# Contains live credentials; ");
    PrintableHasNoBreak("mode 0600, never committed, ");
    PrintableHasNoBreak("never logged.");
  }

  lemma {:induction false} PrintableHasNoBreak(s: string)
    requires forall i :: 0 <= i < |s| ==> ' ' <= s[i] <= '~'
    ensures NoBreak(s)
  {
  }

  /** A ref that is one line adds no key. */
  lemma {:induction false} OneLineRefSmugglesNothing(projectRef: string)
    requires NoBreak(projectRef)
    ensures Smuggled(projectRef) == map[]
  {
    FirstCommentIsOneLine();
    SecondCommentIsOneLine();
    var h := Header(projectRef);
    assert NoBreak(h[0]) && NoBreak(h[1]);
    assert h[0][..1] == "#" && h[1][..1] == "#";
    CommentsAddNothing(h[0], h[1]);
  }

  lemma {:induction false} OwnKeysAreApart(pairs: seq<Pair>)
    requires forall i :: 0 <= i < |pairs| ==> Position(pairs[i].key) == i
    ensures forall p <- pairs :: p.key != "DATABASE_URL" && p.key != "PATH"
  {
    assert Position("DATABASE_URL") == -1 == Position("PATH");
  }

  lemma {:induction false} DsnIsPrinted(s: AuthSettings)
    requires Pairs(s).Ok?
    ensures Pair(DATABASE_URL, Dsn(s)) in Pairs(s).value
  {
    assert BasePairs(s)[1] == Pair(DATABASE_URL, Dsn(s));
  }

  /** With a one-line ref and values the file can carry, GoTrue is handed every rendered setting, the
      database address a second time, and a search path. */
  lemma {:induction false} MigrateReceivesSettings(s: AuthSettings, pairs: seq<Pair>)
    requires Pairs(s) == Ok(pairs) && NoBreak(s.projectRef)
    requires forall p <- pairs :: Carried(p.value)
    ensures MigrateEnv(s).Ok?
    ensures var env := MigrateEnv(s).value;
      && env.Keys == Keys(pairs) + {"DATABASE_URL", "PATH"}
      && (forall p <- pairs :: env[p.key] == p.value)
      && env["DATABASE_URL"] == Dsn(s) && env["PATH"] == "/usr/bin:/bin"
  {
    OneLineRefSmugglesNothing(s.projectRef);
    RoundTrip(s);
    PairsAreGood(s);
    OwnKeysAreApart(pairs);
    DsnIsPrinted(s);
    AddOwnKeys(ReadEnv(RenderEnv(s).value), pairs, Dsn(s));
  }

  lemma {:induction false} AddOwnKeys(env: Env, pairs: seq<Pair>, dsn: string)
    requires Holds(env, pairs) && Pair(DATABASE_URL, dsn) in pairs
    requires forall p <- pairs :: p.key != "DATABASE_URL" && p.key != "PATH"
    ensures DATABASE_URL in env
    ensures var out := env["DATABASE_URL" := env[DATABASE_URL]]["PATH" := "/usr/bin:/bin"];
      && out.Keys == Keys(pairs) + {"DATABASE_URL", "PATH"}
      && (forall p <- pairs :: out[p.key] == p.value)
      && out["DATABASE_URL"] == dsn && out["PATH"] == "/usr/bin:/bin"
  {
    assert env[Pair(DATABASE_URL, dsn).key] == dsn;
    assert |"PATH"| != |"DATABASE_URL"|;
  }

  // ------------------------------------------------------------- setting by setting

  predicate Hooked(s: AuthSettings) {
    s.sendEmailHookUri != None && s.sendEmailHookUri.value != ""
  }

  /** Printing is refused exactly if there is somewhere to send mail to and no secret to sign it with. */
  lemma {:induction false} PrintingRefusedIff(s: AuthSettings)
    ensures RenderEnv(s).Raised? <==> Hooked(s) && (s.sendEmailHookSecret == None || s.sendEmailHookSecret.value == "")
    ensures RenderEnv(s).Raised? ==> RenderEnv(s).error == HookWithoutSecret && MigrateEnv(s) == Raised(HookWithoutSecret)
  {
  }

  /** What the caller puts into the file is one line a value, and a value that stands last before a closing quote does not end
      in one itself. */
  predicate FieldsCarried(s: AuthSettings) {
    && NoBreak(s.projectRef) && NoBreak(s.authRole) && NoBreak(s.authPassword) && NoBreak(s.dbHost)
    && Carried(s.database) && Carried(s.jwtSecret) && Carried(s.externalUrl) && Carried(s.siteUrl)
    && (Hooked(s) ==> Carried(s.sendEmailHookUri.value))
    && (Hooked(s) && s.sendEmailHookSecret != None ==> Carried(s.sendEmailHookSecret.value))
  }

  lemma {:induction false} DecimalIsCarried(n: int)
    ensures Carried(Decimal(n))
    decreases n < 0, if n < 0 then -n else n
  {
    if n < 0 {
      DecimalIsCarried(-n);
    } else if n >= 10 {
      DecimalIsCarried(n / 10);
    }
  }

  lemma {:induction false} DsnIsCarried(s: AuthSettings)
    requires FieldsCarried(s)
    ensures Carried(Dsn(s))
  {
    hide Decimal, IsBreak;
    DecimalIsCarried(s.dbPort);
    PrintableHasNoBreak("postgres://");
    PrintableHasNoBreak(":");
    PrintableHasNoBreak("@");
    PrintableHasNoBreak("/");
    var front := "postgres://" + s.authRole + ":" + s.authPassword + "@" + s.dbHost + ":" + Decimal(s.dbPort) + "/";
    assert NoBreak(front);
    assert Dsn(s) == front + s.database;
  }

  lemma {:induction false} ConstantsAreCarried()
    ensures Carried("postgres") && Carried("auth") && Carried("authenticated") && Carried("127.0.0.1")
    ensures Carried("true") && Carried("false") && Carried("info")
  {
    hide IsBreak;
    PrintableHasNoBreak("postgres");
    PrintableHasNoBreak("auth");
    PrintableHasNoBreak("authenticated");
    PrintableHasNoBreak("127.0.0.1");
    PrintableHasNoBreak("true");
    PrintableHasNoBreak("false");
    PrintableHasNoBreak("info");
  }

  lemma {:induction false} PairsAreCarried(s: AuthSettings, pairs: seq<Pair>)
    requires FieldsCarried(s) && Pairs(s) == Ok(pairs)
    ensures forall p <- pairs :: Carried(p.value)
  {
    hide Decimal, Dsn, Carried;
    DsnIsCarried(s);
    DecimalIsCarried(s.jwtExpSeconds);
    DecimalIsCarried(s.port);
    ConstantsAreCarried();
    assert forall i :: 0 <= i < |pairs| ==> Carried(pairs[i].value);
  }

  ghost predicate Delivers(env: Env, pairs: seq<Pair>) {
    forall i :: 0 <= i < |pairs| ==> pairs[i].key in env && env[pairs[i].key] == pairs[i].value
  }

  lemma {:induction false} Held(env: Env, pairs: seq<Pair>, i: nat, key: string, value: string)
    requires Delivers(env, pairs) && i < |pairs| && pairs[i] == Pair(key, value)
    ensures key in env && env[key] == value
  {
  }

  lemma {:induction false} DatabaseIsHeld(s: AuthSettings, pairs: seq<Pair>, env: Env)
    requires Pairs(s) == Ok(pairs) && Delivers(env, pairs)
    ensures {"GOTRUE_DB_DRIVER", "GOTRUE_DB_DATABASE_URL", "GOTRUE_DB_NAMESPACE", "GOTRUE_JWT_SECRET"} <= env.Keys
    ensures env["GOTRUE_DB_DRIVER"] == "postgres" && env["GOTRUE_DB_DATABASE_URL"] == Dsn(s)
    ensures env["GOTRUE_DB_NAMESPACE"] == "auth" && env["GOTRUE_JWT_SECRET"] == s.jwtSecret
  {
    hide Delivers, Decimal, Dsn;
    Held(env, pairs, 0, "GOTRUE_DB_DRIVER", "postgres");
    Held(env, pairs, 1, "GOTRUE_DB_DATABASE_URL", Dsn(s));
    Held(env, pairs, 2, "GOTRUE_DB_NAMESPACE", "auth");
    Held(env, pairs, 3, "GOTRUE_JWT_SECRET", s.jwtSecret);
  }

  lemma {:induction false} TokenIsHeld(s: AuthSettings, pairs: seq<Pair>, env: Env)
    requires Pairs(s) == Ok(pairs) && Delivers(env, pairs)
    ensures {"GOTRUE_JWT_AUD", "GOTRUE_JWT_DEFAULT_GROUP_NAME", "GOTRUE_JWT_EXP"} <= env.Keys
    ensures env["GOTRUE_JWT_AUD"] == "authenticated" && env["GOTRUE_JWT_DEFAULT_GROUP_NAME"] == "authenticated"
    ensures env["GOTRUE_JWT_EXP"] == Decimal(s.jwtExpSeconds)
  {
    hide Delivers, Decimal, Dsn;
    Held(env, pairs, 4, "GOTRUE_JWT_AUD", "authenticated");
    Held(env, pairs, 5, "GOTRUE_JWT_DEFAULT_GROUP_NAME", "authenticated");
    Held(env, pairs, 6, "GOTRUE_JWT_EXP", Decimal(s.jwtExpSeconds));
  }

  lemma {:induction false} AddressIsHeld(s: AuthSettings, pairs: seq<Pair>, env: Env)
    requires Pairs(s) == Ok(pairs) && Delivers(env, pairs)
    ensures {"GOTRUE_API_HOST", "GOTRUE_API_PORT", "API_EXTERNAL_URL", "GOTRUE_SITE_URL"} <= env.Keys
    ensures env["GOTRUE_API_HOST"] == "127.0.0.1" && env["GOTRUE_API_PORT"] == Decimal(s.port)
    ensures env["API_EXTERNAL_URL"] == s.externalUrl && env["GOTRUE_SITE_URL"] == s.siteUrl
  {
    hide Delivers, Decimal, Dsn;
    Held(env, pairs, 7, "GOTRUE_API_HOST", "127.0.0.1");
    Held(env, pairs, 8, "GOTRUE_API_PORT", Decimal(s.port));
    Held(env, pairs, 9, "API_EXTERNAL_URL", s.externalUrl);
    Held(env, pairs, 10, "GOTRUE_SITE_URL", s.siteUrl);
  }

  lemma {:induction false} SwitchesAreHeld(s: AuthSettings, pairs: seq<Pair>, env: Env)
    requires Pairs(s) == Ok(pairs) && Delivers(env, pairs)
    ensures {"GOTRUE_MAILER_AUTOCONFIRM", "GOTRUE_DISABLE_SIGNUP", "GOTRUE_LOG_LEVEL"} <= env.Keys
    ensures env["GOTRUE_MAILER_AUTOCONFIRM"] == if s.autoconfirm then "true" else "false"
    ensures env["GOTRUE_DISABLE_SIGNUP"] == if s.disableSignup then "true" else "false"
    ensures env["GOTRUE_LOG_LEVEL"] == "info"
  {
    hide Delivers, Decimal, Dsn;
    Held(env, pairs, 11, "GOTRUE_MAILER_AUTOCONFIRM", if s.autoconfirm then "true" else "false");
    Held(env, pairs, 12, "GOTRUE_DISABLE_SIGNUP", if s.disableSignup then "true" else "false");
    Held(env, pairs, 13, "GOTRUE_LOG_LEVEL", "info");
  }

  lemma {:induction false} HookIsHeld(s: AuthSettings, pairs: seq<Pair>, env: Env)
    requires Pairs(s) == Ok(pairs) && Delivers(env, pairs) && Hooked(s)
    ensures {"GOTRUE_HOOK_SEND_EMAIL_ENABLED", "GOTRUE_HOOK_SEND_EMAIL_URI", "GOTRUE_HOOK_SEND_EMAIL_SECRETS"} <= env.Keys
    ensures env["GOTRUE_HOOK_SEND_EMAIL_ENABLED"] == "true" && env["GOTRUE_HOOK_SEND_EMAIL_URI"] == s.sendEmailHookUri.value
    ensures s.sendEmailHookSecret != None && env["GOTRUE_HOOK_SEND_EMAIL_SECRETS"] == s.sendEmailHookSecret.value
  {
    hide Delivers, Decimal, Dsn;
    Held(env, pairs, 14, "GOTRUE_HOOK_SEND_EMAIL_ENABLED", "true");
    Held(env, pairs, 15, "GOTRUE_HOOK_SEND_EMAIL_URI", s.sendEmailHookUri.value);
    Held(env, pairs, 16, "GOTRUE_HOOK_SEND_EMAIL_SECRETS", s.sendEmailHookSecret.value);
  }

  lemma {:induction false} HowMany(s: AuthSettings)
    requires Pairs(s).Ok?
    ensures |Pairs(s).value| == if Hooked(s) then 17 else 14
  {
  }

  /** Everything GoTrue is handed, key by key: where its database is and whose tokens it takes, for how long, where it listens
      and is reached, what it confirms and refuses; the mail hook exactly if there is one; and nothing else. */
  lemma {:induction false} GoTrueReceives(s: AuthSettings)
    requires FieldsCarried(s) && RenderEnv(s).Ok?
    ensures MigrateEnv(s).Ok? && Pairs(s).Ok?
    ensures var env := MigrateEnv(s).value;
      var dsn := "postgres://" + s.authRole + ":" + s.authPassword + "@" + s.dbHost + ":" + Decimal(s.dbPort) + "/" + s.database;
      && env.Keys == (set p <- Pairs(s).value :: p.key) + {"DATABASE_URL", "PATH"}
      && |Pairs(s).value| == (if Hooked(s) then 17 else 14)
      && {"GOTRUE_DB_DRIVER", "GOTRUE_DB_DATABASE_URL", "GOTRUE_DB_NAMESPACE", "GOTRUE_JWT_SECRET"} <= env.Keys
      && {"GOTRUE_JWT_AUD", "GOTRUE_JWT_DEFAULT_GROUP_NAME", "GOTRUE_JWT_EXP"} <= env.Keys
      && {"GOTRUE_API_HOST", "GOTRUE_API_PORT", "API_EXTERNAL_URL", "GOTRUE_SITE_URL"} <= env.Keys
      && {"GOTRUE_MAILER_AUTOCONFIRM", "GOTRUE_DISABLE_SIGNUP", "GOTRUE_LOG_LEVEL"} <= env.Keys
      && env["GOTRUE_DB_DRIVER"] == "postgres" && env["GOTRUE_DB_DATABASE_URL"] == dsn && env["DATABASE_URL"] == dsn
      && env["GOTRUE_DB_NAMESPACE"] == "auth" && env["GOTRUE_JWT_SECRET"] == s.jwtSecret
      && env["GOTRUE_JWT_AUD"] == "authenticated" && env["GOTRUE_JWT_DEFAULT_GROUP_NAME"] == "authenticated"
      && env["GOTRUE_JWT_EXP"] == Decimal(s.jwtExpSeconds)
      && env["GOTRUE_API_HOST"] == "127.0.0.1" && env["GOTRUE_API_PORT"] == Decimal(s.port)
      && env["API_EXTERNAL_URL"] == s.externalUrl && env["GOTRUE_SITE_URL"] == s.siteUrl
      && env["GOTRUE_MAILER_AUTOCONFIRM"] == (if s.autoconfirm then "true" else "false")
      && env["GOTRUE_DISABLE_SIGNUP"] == (if s.disableSignup then "true" else "false")
      && env["GOTRUE_LOG_LEVEL"] == "info" && env["PATH"] == "/usr/bin:/bin"
      && (Hooked(s) ==>
            && {"GOTRUE_HOOK_SEND_EMAIL_ENABLED", "GOTRUE_HOOK_SEND_EMAIL_URI", "GOTRUE_HOOK_SEND_EMAIL_SECRETS"} <= env.Keys
            && env["GOTRUE_HOOK_SEND_EMAIL_ENABLED"] == "true"
            && env["GOTRUE_HOOK_SEND_EMAIL_URI"] == s.sendEmailHookUri.value
            && s.sendEmailHookSecret != None && env["GOTRUE_HOOK_SEND_EMAIL_SECRETS"] == s.sendEmailHookSecret.value)
  {
    PrintedIffPaired(s);
    hide MigrateEnv, RenderEnv, Pairs, Decimal, Carried, NoBreak;
    var pairs := Pairs(s).value;
    PairsAreCarried(s, pairs);
    MigrateReceivesSettings(s, pairs);
    var env := MigrateEnv(s).value;
    assert forall i :: 0 <= i < |pairs| ==> pairs[i] in pairs;
    assert Delivers(env, pairs);
    hide Delivers;
    HowMany(s);
    DatabaseIsHeld(s, pairs, env);
    TokenIsHeld(s, pairs, env);
    AddressIsHeld(s, pairs, env);
    SwitchesAreHeld(s, pairs, env);
    if Hooked(s) {
      HookIsHeld(s, pairs, env);
    }
  }

  /** The file itself: two lines of comment, an empty one, and a line a setting. */
  lemma {:induction false} FileIs(s: AuthSettings)
    requires RenderEnv(s).Ok?
    ensures Pairs(s).Ok?
    ensures var first := "# MaluDB project " + s.projectRef + ". Generated -- do not edit.";
      var second := "# Contains live credentials; " + "mode 0600, never committed, " + "never logged.";
      RenderEnv(s).value == first + "\n" + second + "\n" + ['\n'] + Body(Pairs(s).value)
  {
    hide Body, Lines, Join, Pairs;
    JoinAll(s.projectRef, Pairs(s).value);
  }

  lemma {:induction false} PrintedIffPaired(s: AuthSettings)
    ensures RenderEnv(s).Ok? <==> Pairs(s).Ok?
  {
  }
}
