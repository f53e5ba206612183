/** The configuration: endpoints, policies and the line-by-line file reader. */
module Configs {
  import opened Outcomes
  import opened Text

  datatype Policy = RoundRobinPolicy | LeastConnectionsPolicy | PowerOfTwoChoicesPolicy

  /** The port is a 16-bit unsigned integer. */
  type Port = n: nat | n < 0x1_0000
  type Uint32 = n: nat | n < 0x1_0000_0000

  datatype Endpoint = Endpoint(host: string, port: Port)

  datatype Error =
    | EndpointShape(text: string)
    | PortRange(text: string)
    | Number(cause: NumberError)
    | UnknownPolicy(text: string)
    | BadLine(number: nat, text: string)
    | UnknownKey(number: nat, key: string)
    | NoBackends
    | CannotOpen

  // ----- Endpoints -----

  function ParseEndpoint(value: string): Result<Endpoint, Error> {
    var input := Trim(value);
    match FindLast(input, ':')
    case None => Err(EndpointShape(value))
    case Some(pos) =>
      if pos == 0 || pos + 1 >= |input| then Err(EndpointShape(value))
      else
        match ToUnsignedLong(input[pos + 1..])
        case Err(e) => Err(Number(e))
        case Ok(port) =>
          if port == 0 || port > 65535 then Err(PortRange(value)) else Ok(Endpoint(input[..pos], port))
  }

  /** The printer used in logs and reports. */
  function Label(e: Endpoint): string {
    e.host + ":" + Decimal(e.port)
  }

  /** Every accepted text yields a host that is not empty and does not start with white
      space, and a port from 1 to 65535. */
  lemma AcceptedShape(value: string)
    requires ParseEndpoint(value).Ok?
    ensures var e := ParseEndpoint(value).value; e.host != "" && !IsSpace(e.host[0]) && 1 <= e.port <= 65535
  {
    TrimShape(value);
  }

  predicate Printable(e: Endpoint) {
    e.host != "" && !IsSpace(e.host[0]) && e.port >= 1
  }

  /** A host and the text of a number are split at the colon between them. */
  lemma SplitEndpoint(host: string, number: string)
    requires host != "" && !IsSpace(host[0])
    requires number != "" && ':' !in number && !IsSpace(number[|number| - 1])
    ensures ParseEndpoint(host + ":" + number) ==
            match ToUnsignedLong(number)
            case Err(e) => Err(Number(e))
            case Ok(port) =>
              if port == 0 || port > 65535 then Err(PortRange(host + ":" + number)) else Ok(Endpoint(host, port))
  {
    var text := host + ":" + number;
    assert text[0] == host[0] && text[|text| - 1] == number[|number| - 1];
    TrimBare(text);
    assert text == host + [':'] + number;
    FindLastBefore(host, ':', number);
    assert text[|host| + 1..] == number && text[..|host|] == host;
  }

  lemma LabelParses(e: Endpoint)
    requires Printable(e)
    ensures ParseEndpoint(Label(e)) == Ok(e)
  {
    SplitEndpoint(e.host, Decimal(e.port));
    ReadsDecimal(e.port);
  }

  /** A host and a number around the last colon, neither of them empty. */
  predicate Split(text: string, host: string, number: string) {
    text == host + ":" + number && host != "" && number != "" && ':' !in number
  }

  lemma Cut(text: string, pos: nat)
    requires pos < |text| && text[pos] == ':'
    ensures text == text[..pos] + ":" + text[pos + 1..]
  {
    assert text == text[..pos] + [text[pos]] + text[pos + 1..];
  }

  lemma SplitFound(text: string, pos: nat)
    requires FindLast(text, ':') == Some(pos) && 0 < pos && pos + 1 < |text|
    ensures Split(text, text[..pos], text[pos + 1..])
  {
    Cut(text, pos);
  }

  lemma SplitPoint(text: string, host: string, number: string)
    requires Split(text, host, number)
    ensures FindLast(text, ':') == Some(|host|) && text[..|host|] == host && text[|host| + 1..] == number
  {
    assert text == host + [':'] + number;
    FindLastBefore(host, ':', number);
  }

  /** The spelling of an endpoint: a host, a colon, and a text that reads as its port. */
  ghost predicate Spells(text: string, e: Endpoint, number: string) {
    text == e.host + ":" + number && e.host != "" && ':' !in number && e.port >= 1 && Reads(number, e.port)
  }

  lemma SpelledParses(value: string, e: Endpoint, number: string)
    requires Spells(Trim(value), e, number)
    ensures ParseEndpoint(value) == Ok(e)
  {
    var text := Trim(value);
    NumberExactly(number, e.port);
    assert number != "" by {
      var pad, sign, digits, tail := OnlyNumbers(number);
    }
    SplitPoint(text, e.host, number);
  }

  lemma ParsedParts(value: string, e: Endpoint) returns (pos: nat)
    requires ParseEndpoint(value) == Ok(e)
    ensures var text := Trim(value);
            && FindLast(text, ':') == Some(pos) && 0 < pos && pos + 1 < |text| && e.host == text[..pos]
            && ToUnsignedLong(text[pos + 1..]) == Ok(e.port) && e.port >= 1
  {
    pos := FindLast(Trim(value), ':').value;
  }

  lemma SpellingAt(text: string, e: Endpoint, pos: nat)
    requires FindLast(text, ':') == Some(pos) && 0 < pos && pos + 1 < |text| && e.host == text[..pos]
    requires ToUnsignedLong(text[pos + 1..]) == Ok(e.port) && e.port >= 1
    ensures Spells(text, e, text[pos + 1..])
  {
    SplitFound(text, pos);
    NumberExactly(text[pos + 1..], e.port);
  }

  /** Exactly which texts the reader accepts, and as what: after trimming, a non-empty host
      up to the last colon and behind it a number in the loose sense of the conversion --
      white space, a sign, zeros in front and any text behind included, with the value
      after wrap-around from 1 to 65535. */
  lemma AcceptedExactly(value: string, e: Endpoint)
    ensures ParseEndpoint(value) == Ok(e) <==> exists number :: Spells(Trim(value), e, number)
  {
    if ParseEndpoint(value) == Ok(e) {
      var pos := ParsedParts(value, e);
      SpellingAt(Trim(value), e, pos);
    }
    forall number | Spells(Trim(value), e, number) ensures ParseEndpoint(value) == Ok(e) {
      SpelledParses(value, e, number);
    }
  }

  /** What is wrong with the number of an endpoint. */
  predicate PortError(value: string, number: string, e: Error) {
    match ToUnsignedLong(number)
    case Err(cause) => e == Number(cause)
    case Ok(n) => (n == 0 || n > 65535) && e == PortRange(value)
  }

  lemma SplitParses(value: string, host: string, number: string, e: Error)
    requires Split(Trim(value), host, number)
    ensures ParseEndpoint(value) == Err(e) <==> PortError(value, number, e)
  {
    SplitPoint(Trim(value), host, number);
  }

  /** Where a text can be split, if it can. */
  lemma SplitAt(text: string) returns (host: string, number: string)
    ensures match FindLast(text, ':')
            case Some(pos) => 0 < pos && pos + 1 < |text| ==> Split(text, host, number)
            case None => true
  {
    host, number := "", "";
    var found := FindLast(text, ':');
    if found.Some? && 0 < found.value && found.value + 1 < |text| {
      SplitFound(text, found.value);
      host, number := text[..found.value], text[found.value + 1..];
    }
  }

  lemma Unsplit(value: string, e: Error)
    requires forall host, number :: !Split(Trim(value), host, number)
    ensures ParseEndpoint(value) == Err(e) <==> e == EndpointShape(value)
  {
    var host, number := SplitAt(Trim(value));
    assert !Split(Trim(value), host, number);
  }

  /** Exactly which error a text that is not an endpoint makes: its shape if it cannot be
      split, the conversion's own error, or a port out of range. */
  lemma RejectedExactly(value: string, e: Error)
    ensures ParseEndpoint(value) == Err(e) <==>
            if exists host, number :: Split(Trim(value), host, number)
            then exists host, number :: Split(Trim(value), host, number) && PortError(value, number, e)
            else e == EndpointShape(value)
  {
    if exists host, number :: Split(Trim(value), host, number) {
      forall host, number | Split(Trim(value), host, number)
        ensures ParseEndpoint(value) == Err(e) <==> PortError(value, number, e) {
        SplitParses(value, host, number, e);
      }
    } else {
      Unsplit(value, e);
    }
  }

  /** For example, text after the port is accepted and ignored. */
  lemma TailIgnored(e: Endpoint, tail: string)
    requires Printable(e) && ':' !in tail
    requires tail != "" ==> !IsDigit(tail[0]) && !IsSpace(tail[|tail| - 1])
    ensures ParseEndpoint(e.host + ":" + (Decimal(e.port) + tail)) == Ok(e)
  {
    var number := Decimal(e.port) + tail;
    SplitEndpoint(e.host, number);
    ValueOfDecimal(e.port);
    assert number == "" + ("" + number);
    ReadsNumber(number, "", "", Decimal(e.port), tail);
  }

  /** So is a negative port that wraps around into range. */
  lemma NegativePort(e: Endpoint, n: nat)
    requires Printable(e) && n == ULONG - e.port
    ensures ParseEndpoint(e.host + ":" + ("-" + Decimal(n))) == Ok(e)
  {
    var number := "-" + Decimal(n);
    assert number[|number| - 1] == Decimal(n)[|Decimal(n)| - 1];
    SplitEndpoint(e.host, number);
    ReadsNegative(n);
  }

  /** The round trip holds exactly for the endpoints that can be written in the file: a
      non-empty host that does not start with white space (colons allowed) and a port
      other than zero. */
  lemma EndpointRoundTrip(e: Endpoint)
    ensures ParseEndpoint(Label(e)) == Ok(e) <==> Printable(e)
  {
    if Printable(e) {
      LabelParses(e);
    }
    if ParseEndpoint(Label(e)) == Ok(e) {
      AcceptedShape(Label(e));
    }
  }

  /** Printing what was read and reading it again changes nothing. */
  lemma EndpointNormalForm(value: string)
    requires ParseEndpoint(value).Ok?
    ensures ParseEndpoint(Label(ParseEndpoint(value).value)) == ParseEndpoint(value)
  {
    AcceptedShape(value);
    LabelParses(ParseEndpoint(value).value);
  }

  // ----- Policies -----

  function ParsePolicy(value: string): Result<Policy, Error> {
    var name := Lower(Trim(value));
    if name == "round-robin" || name == "round_robin" || name == "rr" then Ok(RoundRobinPolicy)
    else if name == "least-connections" || name == "least_connections" || name == "lc" then Ok(LeastConnectionsPolicy)
    else if name == "power-of-two-choices" || name == "power_of_two_choices" || name == "p2c" then
      Ok(PowerOfTwoChoicesPolicy)
    else Err(UnknownPolicy(value))
  }

  /** The name a policy has in reports. */
  function PolicyText(p: Policy): string {
    match p
    case RoundRobinPolicy => "round-robin"
    case LeastConnectionsPolicy => "least-connections"
    case PowerOfTwoChoicesPolicy => "power-of-two-choices"
  }

  /** The names a policy is read from. */
  function PolicyNames(p: Policy): seq<string> {
    match p
    case RoundRobinPolicy => ["round-robin", "round_robin", "rr"]
    case LeastConnectionsPolicy => ["least-connections", "least_connections", "lc"]
    case PowerOfTwoChoicesPolicy => ["power-of-two-choices", "power_of_two_choices", "p2c"]
  }

  lemma PolicyTextIsBare(p: Policy)
    ensures var s := PolicyText(p); Trim(s) == s && Lower(s) == s && '#' !in s && '\n' !in s
  {
    TrimBare(PolicyText(p));
    LowerBare(PolicyText(p));
  }

  lemma PolicyByName(value: string, p: Policy)
    ensures ParsePolicy(value) == Ok(p) <==> Lower(Trim(value)) in PolicyNames(p)
  {
  }

  lemma NamesAreBare(p: Policy, i: nat)
    requires i < |PolicyNames(p)|
    ensures var s := PolicyNames(p)[i]; s != "" && !IsSpace(s[0]) && !IsSpace(s[|s| - 1])
  {
  }

  /** The names are written in small letters. */
  lemma NamesAreLower(p: Policy, i: nat)
    requires i < |PolicyNames(p)|
    ensures Lower(PolicyNames(p)[i]) == PolicyNames(p)[i]
  {
    LowerBare(PolicyNames(p)[i]);
  }

  /** A text that is a name of the policy up to the case of its letters. */
  predicate NameOf(p: Policy, name: string) {
    exists i | 0 <= i < |PolicyNames(p)| :: SameButCase(name, PolicyNames(p)[i])
  }

  lemma NameByLower(p: Policy, name: string)
    ensures NameOf(p, name) <==> Lower(name) in PolicyNames(p)
  {
    forall i | 0 <= i < |PolicyNames(p)|
      ensures SameButCase(name, PolicyNames(p)[i]) <==> Lower(name) == PolicyNames(p)[i] {
      LowerExactly(name, PolicyNames(p)[i]);
      NamesAreLower(p, i);
    }
  }

  /** A name in any case with white space around it. */
  predicate Named(value: string, p: Policy, before: string, name: string, after: string) {
    value == before + name + after && Blank(before) && Blank(after) && NameOf(p, name)
  }

  lemma NamedParses(value: string, p: Policy, before: string, name: string, after: string)
    requires Named(value, p, before, name, after)
    ensures ParsePolicy(value) == Ok(p)
  {
    NameIsTrimmed(p, name);
    TrimPad(before, name, after);
    NameByLower(p, name);
    PolicyByName(value, p);
  }

  lemma NameIsTrimmed(p: Policy, name: string)
    requires NameOf(p, name)
    ensures Trim(name) == name
  {
    var i :| 0 <= i < |PolicyNames(p)| && SameButCase(name, PolicyNames(p)[i]);
    NamesAreBare(p, i);
    NamesAreLower(p, i);
    LowerExactly(name, PolicyNames(p)[i]);
    assert Lower(name)[0] == LowerChar(name[0]) && Lower(name)[|name| - 1] == LowerChar(name[|name| - 1]);
    TrimBare(name);
  }

  lemma ParsedName(value: string, p: Policy) returns (before: string, name: string, after: string)
    requires ParsePolicy(value) == Ok(p)
    ensures Named(value, p, before, name, after)
  {
    PolicyByName(value, p);
    name := Trim(value);
    before := TrimLeftShape(value);
    after := TrimRightShape(TrimLeft(value));
    assert value == before + name + after;
    NameByLower(p, name);
  }

  /** A policy is read exactly from its full name with hyphens or underscores or from its
      short name, in any case and with any white space around it; any other text is
      reported as it stands. */
  lemma PolicyExactly(value: string, p: Policy)
    ensures ParsePolicy(value) == Ok(p) <==> exists before, name, after :: Named(value, p, before, name, after)
    ensures ParsePolicy(value).Err? ==> ParsePolicy(value).error == UnknownPolicy(value)
  {
    if ParsePolicy(value) == Ok(p) {
      var before, name, after := ParsedName(value, p);
    }
    forall before, name, after | Named(value, p, before, name, after) ensures ParsePolicy(value) == Ok(p) {
      NamedParses(value, p, before, name, after);
    }
  }

  /** The reported name of a policy reads back as that policy. */
  lemma PolicyRoundTrip(p: Policy)
    ensures ParsePolicy(PolicyText(p)) == Ok(p)
  {
    PolicyTextIsBare(p);
    assert PolicyNames(p)[0] == PolicyText(p);
    PolicyByName(PolicyText(p), p);
  }

  // ----- The file -----

  datatype AppConfig = AppConfig(
    listen: Endpoint,
    admin: Endpoint,
    policy: Policy,
    backends: seq<Endpoint>,
    workerCount: Uint32,
    fileLimit: Uint32,
    connectTimeoutMs: Uint32,
    idleTimeoutMs: Uint32,
    healthIntervalMs: Uint32,
    healthTimeoutMs: Uint32,
    passiveFailureThreshold: Uint32)

  const DEFAULT_CONFIG := AppConfig(
    Endpoint("0.0.0.0", 9000), Endpoint("127.0.0.1", 9100), RoundRobinPolicy, [], 0, 25000, 3000, 60000, 2000, 500, 3)

  /** The keys that hold one value; a key of a backend adds to a list instead. */
  datatype Scalar =
    | Listen | Admin | PolicyName | Workers | FileLimit | ConnectTimeoutMs | IdleTimeoutMs
    | HealthIntervalMs | HealthTimeoutMs | PassiveFailureThreshold

  datatype Key = Backend | Single(scalar: Scalar)

  function KeyOf(key: string): Option<Key> {
    if key == "listen" then Some(Single(Listen))
    else if key == "admin" then Some(Single(Admin))
    else if key == "policy" then Some(Single(PolicyName))
    else if key == "backend" then Some(Backend)
    else if key == "workers" then Some(Single(Workers))
    else if key == "file_limit" then Some(Single(FileLimit))
    else if key == "connect_timeout_ms" then Some(Single(ConnectTimeoutMs))
    else if key == "idle_timeout_ms" then Some(Single(IdleTimeoutMs))
    else if key == "health_interval_ms" then Some(Single(HealthIntervalMs))
    else if key == "health_timeout_ms" then Some(Single(HealthTimeoutMs))
    else if key == "passive_failure_threshold" then Some(Single(PassiveFailureThreshold))
    else None
  }

  datatype Setting = EndpointSetting(endpoint: Endpoint) | PolicySetting(policy: Policy) | NumberSetting(number: Uint32)

  /** A number is cut to 32 bits. */
  function ParseSetting(key: Scalar, value: string): Result<Setting, Error> {
    match key
    case Listen | Admin =>
      (match ParseEndpoint(value) case Ok(e) => Ok(EndpointSetting(e)) case Err(e) => Err(e))
    case PolicyName =>
      (match ParsePolicy(value) case Ok(p) => Ok(PolicySetting(p)) case Err(e) => Err(e))
    case _ =>
      (match ToUnsignedLong(value) case Ok(n) => Ok(NumberSetting(n % 0x1_0000_0000)) case Err(e) => Err(Number(e)))
  }

  predicate Fits(key: Scalar, s: Setting) {
    match key
    case Listen | Admin => s.EndpointSetting?
    case PolicyName => s.PolicySetting?
    case _ => s.NumberSetting?
  }

  function Get(c: AppConfig, key: Scalar): (s: Setting)
    ensures Fits(key, s)
  {
    match key
    case Listen => EndpointSetting(c.listen)
    case Admin => EndpointSetting(c.admin)
    case PolicyName => PolicySetting(c.policy)
    case Workers => NumberSetting(c.workerCount)
    case FileLimit => NumberSetting(c.fileLimit)
    case ConnectTimeoutMs => NumberSetting(c.connectTimeoutMs)
    case IdleTimeoutMs => NumberSetting(c.idleTimeoutMs)
    case HealthIntervalMs => NumberSetting(c.healthIntervalMs)
    case HealthTimeoutMs => NumberSetting(c.healthTimeoutMs)
    case PassiveFailureThreshold => NumberSetting(c.passiveFailureThreshold)
  }

  function Set(c: AppConfig, key: Scalar, s: Setting): (r: AppConfig)
    requires Fits(key, s)
    ensures Get(r, key) == s && r.backends == c.backends
    ensures forall other: Scalar | other != key :: Get(r, other) == Get(c, other)
  {
    match key
    case Listen => c.(listen := s.endpoint)
    case Admin => c.(admin := s.endpoint)
    case PolicyName => c.(policy := s.policy)
    case Workers => c.(workerCount := s.number)
    case FileLimit => c.(fileLimit := s.number)
    case ConnectTimeoutMs => c.(connectTimeoutMs := s.number)
    case IdleTimeoutMs => c.(idleTimeoutMs := s.number)
    case HealthIntervalMs => c.(healthIntervalMs := s.number)
    case HealthTimeoutMs => c.(healthTimeoutMs := s.number)
    case PassiveFailureThreshold => c.(passiveFailureThreshold := s.number)
  }

  /** The number whose upper and lower 32 bits are given. */
  function Wide(high: nat, low: Uint32): nat {
    high * 0x1_0000_0000 + low
  }

  lemma WideParts(n: nat)
    ensures n == Wide(n / 0x1_0000_0000, n % 0x1_0000_0000)
  {
  }

  lemma LowPart(high: nat, low: Uint32)
    ensures Wide(high, low) % 0x1_0000_0000 == low
  {
  }

  /** A key of a number is set to the lower 32 bits of what its value reads as. */
  lemma NumberExactlyCut(key: Scalar, value: string, m: Uint32)
    requires Fits(key, NumberSetting(m))
    ensures ParseSetting(key, value) == Ok(NumberSetting(m)) <==> exists high: nat :: Reads(value, Wide(high, m))
  {
    if ParseSetting(key, value) == Ok(NumberSetting(m)) {
      var n := ToUnsignedLong(value).value;
      WideParts(n);
      NumberExactly(value, n);
    }
    forall high: nat | Reads(value, Wide(high, m)) ensures ParseSetting(key, value) == Ok(NumberSetting(m)) {
      NumberExactly(value, Wide(high, m));
      LowPart(high, m);
    }
  }

  datatype Entry = Nothing | Malformed(text: string) | Assign(key: string, value: string)

  /** What one line says: comments and surrounding white space do not count. */
  function ReadLine(line: string): Entry {
    var text := Trim(UpTo(line, '#'));
    if text == "" then Nothing
    else
      match Find(text, '=')
      case None => Malformed(text)
      case Some(i) => Assign(Lower(Trim(text[..i])), Trim(text[i + 1..]))
  }

  function ApplyEntry(c: AppConfig, entry: Entry, number: nat): Result<AppConfig, Error> {
    match entry
    case Nothing => Ok(c)
    case Malformed(text) => Err(BadLine(number, text))
    case Assign(key, value) =>
      match KeyOf(key)
      case None => Err(UnknownKey(number, key))
      case Some(k) => ApplyKey(c, k, value)
  }

  function ApplyKey(c: AppConfig, key: Key, value: string): Result<AppConfig, Error> {
    match key
    case Backend =>
      (match ParseEndpoint(value) case Ok(e) => Ok(c.(backends := c.backends + [e])) case Err(e) => Err(e))
    case Single(s) =>
      (match ParseSetting(s, value) case Ok(x) => Ok(Set(c, s, x)) case Err(e) => Err(e))
  }

  /** The configuration after the first lines of a file. */
  function AfterLines(lines: seq<string>): Result<AppConfig, Error> {
    if lines == [] then Ok(DEFAULT_CONFIG)
    else
      match AfterLines(lines[..|lines| - 1])
      case Err(e) => Err(e)
      case Ok(c) => ApplyEntry(c, ReadLine(lines[|lines| - 1]), |lines|)
  }

  function Load(lines: seq<string>): Result<AppConfig, Error> {
    match AfterLines(lines)
    case Err(e) => Err(e)
    case Ok(c) => if c.backends == [] then Err(NoBackends) else Ok(c)
  }

  /** The reader on a file's contents; None is a file that cannot be opened. */
  function LoadFile(file: Option<string>): Result<AppConfig, Error> {
    match file
    case None => Err(CannotOpen)
    case Some(text) => Load(Lines(text))
  }

  lemma {:induction false} ErrorStays(lines: seq<string>, n: nat)
    requires n <= |lines| && AfterLines(lines[..n]).Err?
    ensures AfterLines(lines) == AfterLines(lines[..n])
  {
    if n == |lines| {
      assert lines[..n] == lines;
    } else {
      assert lines[..|lines| - 1][..n] == lines[..n];
      ErrorStays(lines[..|lines| - 1], n);
    }
  }

  /** Takes the next line off a text. */
  method GetLine(text: string) returns (line: string, rest: string)
    requires text != ""
    ensures |rest| < |text| && Lines(text) == [line] + Lines(rest)
  {
    match Find(text, '\n') {
      case None => line, rest := text, "";
      case Some(i) => line, rest := text[..i], text[i + 1..];
    }
  }

  /** The reader: one pass over the file, line by line, stopping at the first error. */
  method LoadConfig(file: Option<string>) returns (r: Result<AppConfig, Error>)
    ensures r == LoadFile(file)
  {
    if file.None? { return Err(CannotOpen); }
    var config, lineNumber, rest := DEFAULT_CONFIG, 0, file.value;
    ghost var lines := Lines(file.value);
    while rest != ""
      invariant 0 <= lineNumber <= |lines| && lines[lineNumber..] == Lines(rest)
      invariant AfterLines(lines[..lineNumber]) == Ok(config)
      decreases |rest|
    {
      var line;
      line, rest := GetLine(rest);
      assert lines[lineNumber] == lines[lineNumber..][0] == line;
      assert lines[lineNumber..][1..] == lines[lineNumber + 1..];
      lineNumber := lineNumber + 1;
      assert lines[..lineNumber][..lineNumber - 1] == lines[..lineNumber - 1];
      var applied := ApplyEntry(config, ReadLine(line), lineNumber);
      if applied.Err? {
        ErrorStays(lines, lineNumber);
        return Err(applied.error);
      }
      config := applied.value;
    }
    assert lines[..lineNumber] == lines;
    r := if config.backends == [] then Err(NoBackends) else Ok(config);
  }

  // ----- What a file means -----

  predicate LineOk(line: string) {
    match ReadLine(line)
    case Nothing => true
    case Malformed(_) => false
    case Assign(key, value) => KeyOf(key).Some? && KeyOk(KeyOf(key).value, value)
  }

  predicate KeyOk(key: Key, value: string) {
    if key.Backend? then ParseEndpoint(value).Ok? else ParseSetting(key.scalar, value).Ok?
  }

  /** The endpoint a line adds, if it is a backend line. */
  function BackendIn(line: string): seq<Endpoint> {
    match ReadLine(line)
    case Assign(key, value) => if KeyOf(key).Some? then BackendOf(KeyOf(key).value, value) else []
    case _ => []
  }

  function BackendOf(key: Key, value: string): seq<Endpoint> {
    if key.Backend? && ParseEndpoint(value).Ok? then [ParseEndpoint(value).value] else []
  }

  function BackendsIn(lines: seq<string>): seq<Endpoint> {
    if lines == [] then [] else BackendsIn(lines[..|lines| - 1]) + BackendIn(lines[|lines| - 1])
  }

  /** The setting the last assignment to a key gives it, or the default. */
  function LastSetting(lines: seq<string>, key: Scalar): Setting {
    if lines == [] then Get(DEFAULT_CONFIG, key)
    else SettingAfter(lines[|lines| - 1], key, LastSetting(lines[..|lines| - 1], key))
  }

  function SettingAfter(line: string, key: Scalar, earlier: Setting): Setting {
    match ReadLine(line)
    case Assign(name, value) => if KeyOf(name).Some? then SettingOf(KeyOf(name).value, value, key, earlier) else earlier
    case _ => earlier
  }

  function SettingOf(named: Key, value: string, key: Scalar, earlier: Setting): Setting {
    if named == Single(key) && ParseSetting(key, value).Ok? then ParseSetting(key, value).value else earlier
  }

  lemma KeyMeaning(c: AppConfig, key: Key, value: string)
    ensures var r := ApplyKey(c, key, value);
            && (r.Ok? <==> KeyOk(key, value))
            && (r.Ok? ==> r.value.backends == c.backends + BackendOf(key, value))
            && (r.Ok? ==> forall other: Scalar :: Get(r.value, other) == SettingOf(key, value, other, Get(c, other)))
  {
  }

  lemma LineMeaning(c: AppConfig, line: string, number: nat)
    ensures var r := ApplyEntry(c, ReadLine(line), number);
            && (r.Ok? <==> LineOk(line))
            && (r.Ok? ==> r.value.backends == c.backends + BackendIn(line))
            && (r.Ok? ==> forall key: Scalar :: Get(r.value, key) == SettingAfter(line, key, Get(c, key)))
  {
    var entry := ReadLine(line);
    if entry.Assign? && KeyOf(entry.key).Some? {
      KeyMeaning(c, KeyOf(entry.key).value, entry.value);
    }
  }

  /** The configuration read so far holds what the lines say. */
  ghost predicate Holds(c: AppConfig, lines: seq<string>) {
    c.backends == BackendsIn(lines) && forall key: Scalar :: Get(c, key) == LastSetting(lines, key)
  }

  lemma HoldsMore(c: AppConfig, lines: seq<string>, r: AppConfig)
    requires lines != [] && Holds(c, lines[..|lines| - 1])
    requires ApplyEntry(c, ReadLine(lines[|lines| - 1]), |lines|) == Ok(r)
    ensures Holds(r, lines)
  {
    LineMeaning(c, lines[|lines| - 1], |lines|);
  }

  lemma {:induction false} AfterLinesMeaning(lines: seq<string>)
    ensures AfterLines(lines).Ok? <==> All(lines, LineOk)
    ensures AfterLines(lines).Ok? ==> Holds(AfterLines(lines).value, lines)
  {
    if lines == [] {
    } else {
      var before := AfterLines(lines[..|lines| - 1]);
      AfterLinesMeaning(lines[..|lines| - 1]);
      AfterLinesStep(lines);
      if before.Ok? {
        LineMeaning(before.value, lines[|lines| - 1], |lines|);
        if AfterLines(lines).Ok? {
          HoldsMore(before.value, lines, AfterLines(lines).value);
        }
      }
    }
  }

  /** A file is accepted exactly when every line is well formed and at least one names a
      backend; the backends then come in file order and every other key has the value of
      its last assignment. */
  lemma FileMeaning(lines: seq<string>)
    ensures Load(lines).Ok? <==> All(lines, LineOk) && BackendsIn(lines) != []
    ensures Load(lines).Ok? ==> Holds(Load(lines).value, lines)
  {
    AfterLinesMeaning(lines);
  }

  /** Each key sets the field of its own name, to its last assignment. */
  lemma FieldByKey(lines: seq<string>, key: Scalar)
    requires Load(lines).Ok?
    ensures var c, s := Load(lines).value, LastSetting(lines, key);
            match key
            case Listen => s == EndpointSetting(c.listen)
            case Admin => s == EndpointSetting(c.admin)
            case PolicyName => s == PolicySetting(c.policy)
            case Workers => s == NumberSetting(c.workerCount)
            case FileLimit => s == NumberSetting(c.fileLimit)
            case ConnectTimeoutMs => s == NumberSetting(c.connectTimeoutMs)
            case IdleTimeoutMs => s == NumberSetting(c.idleTimeoutMs)
            case HealthIntervalMs => s == NumberSetting(c.healthIntervalMs)
            case HealthTimeoutMs => s == NumberSetting(c.healthTimeoutMs)
            case PassiveFailureThreshold => s == NumberSetting(c.passiveFailureThreshold)
  {
    FileMeaning(lines);
    assert Get(Load(lines).value, key) == LastSetting(lines, key);
  }

  // ----- Errors -----

  /** The error that a bad line with this number makes. */
  predicate Complaint(line: string, number: nat, e: Error) {
    match ReadLine(line)
    case Nothing => false
    case Malformed(text) => e == BadLine(number, text)
    case Assign(key, value) =>
      match KeyOf(key)
      case None => e == UnknownKey(number, key)
      case Some(Backend) => ParseEndpoint(value) == Err(e)
      case Some(Single(s)) => ParseSetting(s, value) == Err(e)
  }

  /** Line `j`, counted from one, is the first bad one, and it makes this error. */
  predicate FirstComplaint(lines: seq<string>, j: nat, e: Error) {
    0 < j <= |lines| && All(lines[..j - 1], LineOk) && Complaint(lines[j - 1], j, e)
  }

  ghost predicate Complains(lines: seq<string>, e: Error) {
    exists j: nat :: FirstComplaint(lines, j, e)
  }

  lemma ComplaintIsBad(c: AppConfig, line: string, number: nat, e: Error)
    ensures ApplyEntry(c, ReadLine(line), number) == Err(e) <==> Complaint(line, number, e)
    ensures Complaint(line, number, e) ==> !LineOk(line)
  {
  }

  lemma EarlierComplaint(lines: seq<string>, j: nat, e: Error)
    requires lines != [] && j < |lines|
    ensures FirstComplaint(lines[..|lines| - 1], j, e) <==> FirstComplaint(lines, j, e)
  {
    if j > 0 {
      assert lines[..|lines| - 1][..j - 1] == lines[..j - 1];
    }
  }

  lemma LastComplaint(lines: seq<string>, e: Error)
    requires lines != []
    ensures FirstComplaint(lines, |lines|, e) <==>
            AfterLines(lines[..|lines| - 1]).Ok? && AfterLines(lines) == Err(e)
  {
    AfterLinesMeaning(lines[..|lines| - 1]);
    AfterLinesStep(lines);
    if AfterLines(lines[..|lines| - 1]).Ok? {
      ComplaintIsBad(AfterLines(lines[..|lines| - 1]).value, lines[|lines| - 1], |lines|, e);
    }
  }

  lemma ComplainsStep(lines: seq<string>, e: Error)
    requires lines != []
    ensures Complains(lines, e) <==> Complains(lines[..|lines| - 1], e) || FirstComplaint(lines, |lines|, e)
  {
    var front := lines[..|lines| - 1];
    if Complains(lines, e) {
      var j: nat :| FirstComplaint(lines, j, e);
      if j < |lines| { EarlierComplaint(lines, j, e); }
    }
    if Complains(front, e) {
      var j: nat :| FirstComplaint(front, j, e);
      EarlierComplaint(lines, j, e);
    }
  }

  lemma {:induction false} FirstErrorIn(lines: seq<string>, e: Error)
    ensures AfterLines(lines) == Err(e) <==> Complains(lines, e)
  {
    if lines == [] {
    } else {
      FirstErrorIn(lines[..|lines| - 1], e);
      LastComplaint(lines, e);
      ComplainsStep(lines, e);
      ErrorPasses(lines, e);
    }
  }

  lemma ErrorPasses(lines: seq<string>, e: Error)
    requires lines != []
    ensures AfterLines(lines[..|lines| - 1]) == Err(e) ==> AfterLines(lines) == Err(e)
    ensures AfterLines(lines) == Err(e) ==>
              AfterLines(lines[..|lines| - 1]) == Err(e) || AfterLines(lines[..|lines| - 1]).Ok?
  {
    AfterLinesStep(lines);
  }

  lemma LoadError(lines: seq<string>, e: Error)
    ensures Load(lines) == Err(e) <==>
            AfterLines(lines) == Err(e) || (e == NoBackends && All(lines, LineOk) && BackendsIn(lines) == [])
  {
    AfterLinesMeaning(lines);
  }

  /** Exactly which error a file ends in: that of its first bad line, with its number
      counted from one; or that it names no backend; or that it cannot be opened. */
  lemma ErrorExactly(file: Option<string>, e: Error)
    ensures LoadFile(file) == Err(e) <==>
            match file
            case None => e == CannotOpen
            case Some(text) =>
              || Complains(Lines(text), e)
              || (e == NoBackends && All(Lines(text), LineOk) && BackendsIn(Lines(text)) == [])
  {
    if file.Some? {
      FirstErrorIn(Lines(file.value), e);
      LoadError(Lines(file.value), e);
    }
  }

  // ----- Changes to a file that do not matter -----

  /** Appending a comment to a line changes nothing. */
  lemma CommentIgnored(line: string, comment: string)
    ensures ReadLine(line + "#" + comment) == ReadLine(line)
  {
    UpToCut(line, '#', comment);
    assert line + "#" + comment == line + ['#'] + comment;
  }

  /** Blank lines and lines with only a comment say nothing. */
  lemma BlankIgnored(pad: string, comment: string)
    requires Blank(pad)
    ensures ReadLine(pad) == Nothing && ReadLine(pad + "#" + comment) == Nothing
  {
    CommentIgnored(pad, comment);
    UpToWhole(pad, '#');
    TrimOfBlank(pad);
  }

  /** White space around the key, around the value and around the line does not matter. */
  lemma PaddingIgnored(p1: string, key: string, p2: string, p3: string, value: string, p4: string)
    requires Blank(p1) && Blank(p2) && Blank(p3) && Blank(p4)
    requires '=' !in key && '#' !in key && '#' !in value
    ensures ReadLine(p1 + key + p2 + "=" + p3 + value + p4) == Assign(Lower(Trim(key)), Trim(value))
  {
    var left, right := p1 + key + p2, p3 + value + p4;
    var line := p1 + key + p2 + "=" + p3 + value + p4;
    assert line == left + ['='] + right;
    UpToWhole(line, '#');
    SplitLine(left, right);
    TrimPad(p1, key, p2);
    TrimPad(p3, value, p4);
  }

  lemma SplitLine(left: string, right: string)
    requires '=' !in left && '#' !in left && '#' !in right
    ensures ReadLine(left + ['='] + right) == Assign(Lower(Trim(left)), Trim(right))
  {
    var line := left + ['='] + right;
    UpToWhole(line, '#');
    TrimLeftStops(left, '=', right);
    var a, b := TrimLeft(left), TrimRight(right);
    assert TrimLeft(line) == a + ['='] + right;
    TrimRightStops(a, '=', right);
    assert Trim(line) == a + ['='] + b;
    var pad := TrimLeftShape(left);
    assert '=' !in a;
    FindAfter(a, '=', b);
    assert (a + ['='] + b)[..|a|] == a && (a + ['='] + b)[|a| + 1..] == b;
    TrimOfTrimLeft(left);
    TrimOfTrimRight(right);
  }

  /** The case of a key does not matter. */
  lemma CaseIgnored(key: string, key': string, value: string)
    requires SameButCase(key, key')
    requires '=' !in key && '#' !in key && '=' !in key' && '#' !in key' && '#' !in value
    ensures ReadLine(key + "=" + value) == ReadLine(key' + "=" + value)
  {
    LowerExactly(key, key');
    SplitLine(key, value);
    SplitLine(key', value);
    LowerTrim(key);
    LowerTrim(key');
  }

  /** The same result, up to the line number an error reports. */
  predicate SameOutcome(a: Result<AppConfig, Error>, b: Result<AppConfig, Error>) {
    a == b ||
    (a.Err? && b.Err? &&
     match (a.error, b.error)
     case (BadLine(_, t), BadLine(_, u)) => t == u
     case (UnknownKey(_, t), UnknownKey(_, u)) => t == u
     case _ => false)
  }

  lemma SameStep(a: Result<AppConfig, Error>, b: Result<AppConfig, Error>, entry: Entry, m: nat, n: nat)
    requires SameOutcome(a, b)
    ensures SameOutcome(if a.Ok? then ApplyEntry(a.value, entry, m) else a,
                        if b.Ok? then ApplyEntry(b.value, entry, n) else b)
  {
  }

  lemma AfterLinesStep(lines: seq<string>)
    requires lines != []
    ensures var before := AfterLines(lines[..|lines| - 1]);
            AfterLines(lines) ==
            if before.Ok? then ApplyEntry(before.value, ReadLine(lines[|lines| - 1]), |lines|) else before
  {
  }

  /** The same last line after the same outcome leaves the same outcome. */
  lemma SameAfter(s: seq<string>, t: seq<string>)
    requires s != [] && t != [] && ReadLine(s[|s| - 1]) == ReadLine(t[|t| - 1])
    requires SameOutcome(AfterLines(s[..|s| - 1]), AfterLines(t[..|t| - 1]))
    ensures SameOutcome(AfterLines(s), AfterLines(t))
  {
    AfterLinesStep(s);
    AfterLinesStep(t);
    SameStep(AfterLines(s[..|s| - 1]), AfterLines(t[..|t| - 1]), ReadLine(s[|s| - 1]), |s|, |t|);
  }

  lemma SilentAfter(s: seq<string>)
    requires s != [] && ReadLine(s[|s| - 1]) == Nothing
    ensures AfterLines(s) == AfterLines(s[..|s| - 1])
  {
  }

  lemma {:induction false} InsertInPrefix(a: seq<string>, line: string, b: seq<string>)
    requires ReadLine(line) == Nothing
    ensures SameOutcome(AfterLines(a + [line] + b), AfterLines(a + b))
  {
    var s, t := a + [line] + b, a + b;
    if b == [] {
      assert s[..|s| - 1] == a && t == a;
      SilentAfter(s);
    } else {
      assert s[..|s| - 1] == a + [line] + b[..|b| - 1];
      assert t[..|t| - 1] == a + b[..|b| - 1];
      InsertInPrefix(a, line, b[..|b| - 1]);
      SameAfter(s, t);
    }
  }

  /** Inserting a line that says nothing, anywhere, changes nothing but line numbers. */
  lemma InsertIgnored(a: seq<string>, line: string, b: seq<string>)
    requires ReadLine(line) == Nothing
    ensures SameOutcome(Load(a + [line] + b), Load(a + b))
  {
    InsertInPrefix(a, line, b);
  }

  /** Files whose lines say the same have the same result, errors and line numbers
      included: rewriting lines by the lemmas above never changes a configuration. */
  lemma {:induction false} SameLines(a: seq<string>, b: seq<string>)
    requires |a| == |b| && forall i | 0 <= i < |a| :: ReadLine(a[i]) == ReadLine(b[i])
    ensures Load(a) == Load(b) && AfterLines(a) == AfterLines(b)
  {
    if a == [] {
    } else {
      SameLines(a[..|a| - 1], b[..|b| - 1]);
    }
  }
}
