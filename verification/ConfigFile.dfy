/** Which configurations a file can hold: exactly those that the writer below can put
    into one, and reading that file gives the configuration back. */
module ConfigFiles {
  import opened Outcomes
  import opened Text
  import opened Configs

  // ----- Names -----

  function KeyName(k: Key): string {
    match k
    case Backend => "backend"
    case Single(Listen) => "listen"
    case Single(Admin) => "admin"
    case Single(PolicyName) => "policy"
    case Single(Workers) => "workers"
    case Single(FileLimit) => "file_limit"
    case Single(ConnectTimeoutMs) => "connect_timeout_ms"
    case Single(IdleTimeoutMs) => "idle_timeout_ms"
    case Single(HealthIntervalMs) => "health_interval_ms"
    case Single(HealthTimeoutMs) => "health_timeout_ms"
    case Single(PassiveFailureThreshold) => "passive_failure_threshold"
  }

  lemma KeyNames(k: Key, name: string)
    ensures KeyOf(name) == Some(k) <==> name == KeyName(k)
  {
  }

  predicate Plain(s: string) {
    s != "" && forall i | 0 <= i < |s| :: 'a' <= s[i] <= 'z' || s[i] == '_'
  }

  lemma LongNamesPlain()
    ensures Plain("connect_timeout_ms") && Plain("idle_timeout_ms") && Plain("health_interval_ms")
  {
  }

  lemma LongestNamesPlain()
    ensures Plain("health_timeout_ms") && Plain("passive_failure_threshold")
  {
  }

  lemma NamePlain(k: Key)
    ensures Plain(KeyName(k))
  {
    LongNamesPlain();
    LongestNamesPlain();
  }

  lemma NameIsBare(k: Key)
    ensures var s := KeyName(k); Trim(s) == s && Lower(s) == s && '=' !in s && '#' !in s && '\n' !in s
  {
    NamePlain(k);
    TrimBare(KeyName(k));
    LowerBare(KeyName(k));
  }

  /** A key is recognised by its name in any case, with any white space around it. */
  lemma KeyInAnyCase(k: Key, left: string, right: string)
    requires '=' !in left && '#' !in left && '#' !in right
    ensures var entry := ReadLine(left + "=" + right);
            entry.Assign? && (KeyOf(entry.key) == Some(k) <==> SameButCase(Trim(left), KeyName(k)))
  {
    assert left + "=" + right == left + ['='] + right;
    SplitLine(left, right);
    NameIsBare(k);
    KeyNames(k, Lower(Trim(left)));
    LowerExactly(Trim(left), KeyName(k));
  }

  // ----- What a line can carry -----

  /** An endpoint that a line can hold. */
  predicate Writable(e: Endpoint) {
    Printable(e) && '#' !in e.host && '\n' !in e.host
  }

  predicate WritableSetting(s: Setting) {
    s.EndpointSetting? ==> Writable(s.endpoint)
  }

  lemma {:induction false} TrimLeftChars(s: string, c: char)
    requires c in TrimLeft(s)
    ensures c in s
  {
    if s == "" || !IsSpace(s[0]) {
    } else {
      TrimLeftChars(s[1..], c);
    }
  }

  lemma {:induction false} TrimRightChars(s: string, c: char)
    requires c in TrimRight(s)
    ensures c in s
  {
    if s == "" || !IsSpace(s[|s| - 1]) {
    } else {
      TrimRightChars(s[..|s| - 1], c);
    }
  }

  lemma TrimChars(s: string, c: char)
    requires c in Trim(s)
    ensures c in s
  {
    TrimRightChars(TrimLeft(s), c);
    TrimLeftChars(s, c);
  }

  lemma {:induction false} UpToChars(s: string, stop: char, c: char)
    requires c in UpTo(s, stop)
    ensures c in s && c != stop
  {
    if c != s[0] || s[0] == stop {
      UpToChars(s[1..], stop, c);
    }
  }

  /** The value of a line is made of the line's own characters, none of them a comment. */
  lemma ValueChars(line: string, c: char)
    requires ReadLine(line).Assign? && c in ReadLine(line).value
    ensures c in line && c != '#'
  {
    var text := Trim(UpTo(line, '#'));
    var i := Find(text, '=').value;
    TrimChars(text[i + 1..], c);
    assert c in text;
    TrimChars(UpTo(line, '#'), c);
    UpToChars(line, '#', c);
  }

  lemma ReadEndpoint(line: string)
    requires IsLine(line) && ReadLine(line).Assign? && ParseEndpoint(ReadLine(line).value).Ok?
    ensures Writable(ParseEndpoint(ReadLine(line).value).value)
  {
    var value := ReadLine(line).value;
    var host := ParseEndpoint(value).value.host;
    AcceptedShape(value);
    forall c | c in host ensures c != '#' && c != '\n' {
      assert c in Trim(value);
      TrimChars(value, c);
      ValueChars(line, c);
    }
  }

  // ----- What a file can hold -----

  ghost predicate SettingsWrite(c: AppConfig) {
    forall key: Scalar :: WritableSetting(Get(c, key))
  }

  ghost predicate Loadable(c: AppConfig) {
    && c.backends != []
    && (forall i | 0 <= i < |c.backends| :: Writable(c.backends[i]))
    && SettingsWrite(c)
  }

  lemma {:induction false} BackendsWritable(lines: seq<string>)
    requires All(lines, IsLine)
    ensures forall i | 0 <= i < |BackendsIn(lines)| :: Writable(BackendsIn(lines)[i])
  {
    if lines == [] {
    } else {
      BackendsWritable(lines[..|lines| - 1]);
      var line := lines[|lines| - 1];
      if BackendIn(line) != [] {
        ReadEndpoint(line);
      }
    }
  }

  lemma ParsedEndpoint(key: Scalar, value: string)
    requires ParseSetting(key, value).Ok? && ParseSetting(key, value).value.EndpointSetting?
    ensures ParseEndpoint(value) == Ok(ParseSetting(key, value).value.endpoint)
  {
  }

  lemma LineWritable(line: string, key: Scalar, earlier: Setting)
    requires IsLine(line) && WritableSetting(earlier)
    ensures WritableSetting(SettingAfter(line, key, earlier))
  {
    var entry := ReadLine(line);
    if entry.Assign? {
      var parsed := ParseSetting(key, entry.value);
      if parsed.Ok? && parsed.value.EndpointSetting? {
        ParsedEndpoint(key, entry.value);
        ReadEndpoint(line);
      }
    }
  }

  lemma {:induction false} SettingsWritable(lines: seq<string>, key: Scalar)
    requires All(lines, IsLine)
    ensures WritableSetting(LastSetting(lines, key))
  {
    if lines == [] {
    } else {
      SettingsWritable(lines[..|lines| - 1], key);
      LineWritable(lines[|lines| - 1], key, LastSetting(lines[..|lines| - 1], key));
    }
  }

  lemma LoadedIsLoadable(lines: seq<string>)
    requires All(lines, IsLine) && Load(lines).Ok?
    ensures Loadable(Load(lines).value)
  {
    FileMeaning(lines);
    BackendsWritable(lines);
    forall key: Scalar ensures WritableSetting(Get(Load(lines).value, key)) {
      SettingsWritable(lines, key);
    }
  }

  // ----- Writing -----

  function SettingText(s: Setting): string {
    match s
    case EndpointSetting(e) => Label(e)
    case PolicySetting(p) => PolicyText(p)
    case NumberSetting(n) => Decimal(n)
  }

  function WriteLine(k: Key, text: string): string {
    KeyName(k) + "=" + text
  }

  function WriteSettings(c: AppConfig, keys: seq<Scalar>): seq<string> {
    if keys == [] then []
    else
      var key := keys[|keys| - 1];
      WriteSettings(c, keys[..|keys| - 1]) + [WriteLine(Single(key), SettingText(Get(c, key)))]
  }

  function WriteBackends(before: seq<string>, backends: seq<Endpoint>): seq<string> {
    if backends == [] then before
    else WriteBackends(before, backends[..|backends| - 1]) + [WriteLine(Backend, Label(backends[|backends| - 1]))]
  }

  const SCALARS: seq<Scalar> :=
    [Listen, Admin, PolicyName, Workers, FileLimit, ConnectTimeoutMs, IdleTimeoutMs, HealthIntervalMs,
     HealthTimeoutMs, PassiveFailureThreshold]

  function Write(c: AppConfig): seq<string> {
    WriteBackends(WriteSettings(c, SCALARS), c.backends)
  }

  lemma WrittenLine(k: Key, text: string)
    requires Trim(text) == text && '#' !in text && '\n' !in text
    ensures ReadLine(WriteLine(k, text)) == Assign(KeyName(k), text) && IsLine(WriteLine(k, text))
    ensures KeyOf(KeyName(k)) == Some(k)
  {
    KeyNames(k, KeyName(k));
    NameIsBare(k);
    SplitLine(KeyName(k), text);
  }

  lemma DecimalIsBare(n: nat)
    ensures var s := Decimal(n); Trim(s) == s && '#' !in s && '\n' !in s
  {
    TrimBare(Decimal(n));
  }

  lemma LabelIsBare(e: Endpoint)
    requires Writable(e)
    ensures var s := Label(e); Trim(s) == s && '#' !in s && '\n' !in s
  {
    var s := Label(e);
    assert s[0] == e.host[0] && s[|s| - 1] == Decimal(e.port)[|Decimal(e.port)| - 1];
    TrimBare(s);
  }

  lemma SettingIsBare(s: Setting)
    requires WritableSetting(s)
    ensures var text := SettingText(s); Trim(text) == text && '#' !in text && '\n' !in text
  {
    match s
    case EndpointSetting(e) => LabelIsBare(e);
    case PolicySetting(p) => PolicyTextIsBare(p);
    case NumberSetting(n) => DecimalIsBare(n);
  }

  lemma NumberReads(key: Scalar, text: string, n: Uint32)
    requires Fits(key, NumberSetting(n)) && ToUnsignedLong(text) == Ok(n)
    ensures ParseSetting(key, text) == Ok(NumberSetting(n))
  {
  }

  lemma EndpointReads(key: Scalar, text: string, e: Endpoint)
    requires Fits(key, EndpointSetting(e)) && ParseEndpoint(text) == Ok(e)
    ensures ParseSetting(key, text) == Ok(EndpointSetting(e))
  {
  }

  lemma SettingReads(key: Scalar, s: Setting)
    requires Fits(key, s) && WritableSetting(s)
    ensures ParseSetting(key, SettingText(s)) == Ok(s)
  {
    match s
    case EndpointSetting(e) =>
      LabelParses(e);
      EndpointReads(key, Label(e), e);
    case PolicySetting(p) =>
      PolicyRoundTrip(p);
    case NumberSetting(n) =>
      ReadsDecimal(n);
      NumberReads(key, Decimal(n), n);
  }

  lemma SettingLine(key: Scalar, s: Setting, other: Scalar, earlier: Setting)
    requires Fits(key, s) && WritableSetting(s)
    ensures var line := WriteLine(Single(key), SettingText(s));
            && IsLine(line) && LineOk(line) && BackendIn(line) == []
            && SettingAfter(line, other, earlier) == if other == key then s else earlier
  {
    SettingIsBare(s);
    SettingReads(key, s);
    WrittenLine(Single(key), SettingText(s));
  }

  lemma BackendLine(e: Endpoint, other: Scalar, earlier: Setting)
    requires Writable(e)
    ensures var line := WriteLine(Backend, Label(e));
            && IsLine(line) && LineOk(line) && BackendIn(line) == [e]
            && SettingAfter(line, other, earlier) == earlier
  {
    LabelIsBare(e);
    LabelParses(e);
    WrittenLine(Backend, Label(e));
  }

  predicate GoodLines(lines: seq<string>) {
    All(lines, LineOk) && All(lines, IsLine)
  }

  /** The effect of one more line on what a file says. */
  lemma OneMore(lines: seq<string>, line: string, key: Scalar)
    requires GoodLines(lines) && IsLine(line) && LineOk(line)
    ensures GoodLines(lines + [line])
    ensures BackendsIn(lines + [line]) == BackendsIn(lines) + BackendIn(line)
    ensures LastSetting(lines + [line], key) == SettingAfter(line, key, LastSetting(lines, key))
  {
    var all := lines + [line];
    assert all[..|all| - 1] == lines && all[|all| - 1] == line;
  }

  lemma AddSetting(c: AppConfig, lines: seq<string>, last: Scalar, key: Scalar)
    requires GoodLines(lines) && SettingsWrite(c)
    ensures var all := lines + [WriteLine(Single(last), SettingText(Get(c, last)))];
            && GoodLines(all) && BackendsIn(all) == BackendsIn(lines)
            && LastSetting(all, key) == if key == last then Get(c, key) else LastSetting(lines, key)
  {
    var s := Get(c, last);
    SettingLine(last, s, key, LastSetting(lines, key));
    OneMore(lines, WriteLine(Single(last), SettingText(s)), key);
    assert BackendsIn(lines) + [] == BackendsIn(lines);
  }

  lemma WriteSettingsStep(c: AppConfig, keys: seq<Scalar>)
    requires keys != []
    ensures var last := keys[|keys| - 1];
            WriteSettings(c, keys) ==
            WriteSettings(c, keys[..|keys| - 1]) + [WriteLine(Single(last), SettingText(Get(c, last)))]
  {
  }

  /** What the settings written so far say. */
  ghost predicate SaysSettings(lines: seq<string>, c: AppConfig, keys: seq<Scalar>, key: Scalar) {
    && GoodLines(lines) && BackendsIn(lines) == []
    && LastSetting(lines, key) == if key in keys then Get(c, key) else Get(DEFAULT_CONFIG, key)
  }

  lemma SaysOneMore(c: AppConfig, lines: seq<string>, keys: seq<Scalar>, key: Scalar)
    requires keys != [] && SaysSettings(lines, c, keys[..|keys| - 1], key) && SettingsWrite(c)
    ensures var last := keys[|keys| - 1];
            SaysSettings(lines + [WriteLine(Single(last), SettingText(Get(c, last)))], c, keys, key)
  {
    var front, last := keys[..|keys| - 1], keys[|keys| - 1];
    assert key in keys <==> key in front || key == last by { assert keys == front + [last]; }
    AddSetting(c, lines, last, key);
  }

  lemma {:induction false} SettingsSay(c: AppConfig, keys: seq<Scalar>, key: Scalar)
    requires SettingsWrite(c)
    ensures SaysSettings(WriteSettings(c, keys), c, keys, key)
  {
    if keys == [] {
    } else {
      SettingsSay(c, keys[..|keys| - 1], key);
      SaysOneMore(c, WriteSettings(c, keys[..|keys| - 1]), keys, key);
      WriteSettingsStep(c, keys);
    }
  }

  /** What a file says: its backends, and what one key is set to. */
  ghost predicate SaysAll(lines: seq<string>, backends: seq<Endpoint>, key: Scalar, setting: Setting) {
    GoodLines(lines) && BackendsIn(lines) == backends && LastSetting(lines, key) == setting
  }

  lemma AddBackend(lines: seq<string>, backends: seq<Endpoint>, e: Endpoint, key: Scalar, setting: Setting)
    requires SaysAll(lines, backends, key, setting) && Writable(e)
    ensures SaysAll(lines + [WriteLine(Backend, Label(e))], backends + [e], key, setting)
  {
    BackendLine(e, key, LastSetting(lines, key));
    OneMore(lines, WriteLine(Backend, Label(e)), key);
  }

  lemma WriteBackendsStep(before: seq<string>, front: seq<Endpoint>, e: Endpoint)
    ensures WriteBackends(before, front + [e]) == WriteBackends(before, front) + [WriteLine(Backend, Label(e))]
  {
    assert (front + [e])[..|front|] == front;
  }

  lemma {:induction false} BackendsSay(before: seq<string>, backends: seq<Endpoint>, key: Scalar, setting: Setting)
    requires SaysAll(before, [], key, setting)
    requires forall i | 0 <= i < |backends| :: Writable(backends[i])
    ensures SaysAll(WriteBackends(before, backends), backends, key, setting)
  {
    if backends == [] {
    } else {
      var front, e := backends[..|backends| - 1], backends[|backends| - 1];
      assert front + [e] == backends;
      BackendsSay(before, front, key, setting);
      AddBackend(WriteBackends(before, front), front, e, key, setting);
      WriteBackendsStep(before, front, e);
    }
  }

  lemma AllSettingsSay(c: AppConfig, keys: seq<Scalar>, key: Scalar)
    requires SettingsWrite(c) && key in keys
    ensures SaysAll(WriteSettings(c, keys), [], key, Get(c, key))
  {
    SettingsSay(c, keys, key);
  }

  lemma EveryScalar(key: Scalar)
    ensures key in SCALARS
  {
    assert SCALARS == [Listen, Admin, PolicyName, Workers, FileLimit] +
      [ConnectTimeoutMs, IdleTimeoutMs, HealthIntervalMs, HealthTimeoutMs, PassiveFailureThreshold];
  }

  lemma SameConfig(a: AppConfig, b: AppConfig)
    requires a.backends == b.backends && forall key: Scalar :: Get(a, key) == Get(b, key)
    ensures a == b
  {
    assert Get(a, Listen) == Get(b, Listen) && Get(a, Admin) == Get(b, Admin);
    assert Get(a, PolicyName) == Get(b, PolicyName);
    assert Get(a, Workers) == Get(b, Workers) && Get(a, FileLimit) == Get(b, FileLimit);
    assert Get(a, ConnectTimeoutMs) == Get(b, ConnectTimeoutMs) && Get(a, IdleTimeoutMs) == Get(b, IdleTimeoutMs);
    assert Get(a, HealthIntervalMs) == Get(b, HealthIntervalMs) && Get(a, HealthTimeoutMs) == Get(b, HealthTimeoutMs);
    assert Get(a, PassiveFailureThreshold) == Get(b, PassiveFailureThreshold);
  }

  ghost predicate FileOf(lines: seq<string>, c: AppConfig) {
    All(lines, IsLine) && Load(lines) == Ok(c)
  }

  lemma WriteSays(c: AppConfig, key: Scalar)
    requires Loadable(c)
    ensures SaysAll(Write(c), c.backends, key, Get(c, key))
  {
    EveryScalar(key);
    AllSettingsSay(c, SCALARS, key);
    BackendsSay(WriteSettings(c, SCALARS), c.backends, key, Get(c, key));
  }

  lemma SaidLoads(lines: seq<string>, c: AppConfig)
    requires c.backends != [] && forall key: Scalar :: SaysAll(lines, c.backends, key, Get(c, key))
    ensures FileOf(lines, c)
  {
    assert SaysAll(lines, c.backends, Listen, Get(c, Listen));
    forall key: Scalar ensures LastSetting(lines, key) == Get(c, key) {
      assert SaysAll(lines, c.backends, key, Get(c, key));
    }
    FileMeaning(lines);
    SameConfig(Load(lines).value, c);
  }

  lemma WrittenLoads(c: AppConfig)
    requires Loadable(c)
    ensures FileOf(Write(c), c)
  {
    var lines := Write(c);
    forall key: Scalar ensures SaysAll(lines, c.backends, key, Get(c, key)) {
      WriteSays(c, key);
    }
    SaidLoads(lines, c);
  }

  lemma LinesLoad(lines: seq<string>, c: AppConfig)
    requires FileOf(lines, c)
    ensures LoadFile(Some(Unlines(lines))) == Ok(c)
  {
    AllMeans(lines, IsLine);
    LinesOfUnlines(lines);
  }

  lemma FileIsLoadable(file: Option<string>, c: AppConfig)
    requires LoadFile(file) == Ok(c)
    ensures Loadable(c)
  {
    LinesHaveNoNewline(file.value);
    AllMeans(Lines(file.value), IsLine);
    LoadedIsLoadable(Lines(file.value));
  }

  function WrittenFile(c: AppConfig): Option<string> {
    Some(Unlines(Write(c)))
  }

  lemma WrittenFileLoads(c: AppConfig)
    requires Loadable(c)
    ensures LoadFile(WrittenFile(c)) == Ok(c)
  {
    WrittenLoads(c);
    LinesLoad(Write(c), c);
  }

  /** The configurations that some file holds are exactly those with a backend and with
      endpoints whose hosts are not empty, do not start with white space and contain
      neither a comment sign nor a newline; the file written for such a configuration
      reads back as it. */
  lemma FileRoundTrip(c: AppConfig)
    ensures LoadFile(WrittenFile(c)) == Ok(c) <==> Loadable(c)
    ensures Loadable(c) <==> exists file :: LoadFile(file) == Ok(c)
  {
    if Loadable(c) {
      WrittenFileLoads(c);
    }
    forall file | LoadFile(file) == Ok(c) ensures Loadable(c) {
      FileIsLoadable(file, c);
    }
  }
}
