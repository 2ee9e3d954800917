/** The kafka driver's spawn plan, and the broker process that reads it back from its command line. */
module Kafka {
  import opened Strings

  // ----- Host and port

  /** strings.LastIndexByte, -1 for none. */
  function LastIndex(s: string, c: char): (i: int)
    ensures -1 <= i < |s| && (i >= 0 ==> s[i] == c) && forall j :: i < j < |s| ==> s[j] != c
  {
    if s == "" then -1 else if s[|s| - 1] == c then |s| - 1 else LastIndex(s[..|s| - 1], c)
  }

  /** strings.IndexByte, -1 for none. */
  function IndexOf(s: string, c: char): (i: int)
    ensures -1 <= i < |s| && (i >= 0 ==> s[i] == c) && forall j :: 0 <= j < (if i < 0 then |s| else i) ==> s[j] != c
  {
    if s == "" then -1
    else if s[0] == c then 0
    else
      var later := IndexOf(s[1..], c);
      if later < 0 then -1 else later + 1
  }

  type Address = (string, string)

  /** net.SplitHostPort; None for each of its errors. */
  function SplitHostPort(addr: string): Option<Address> {
    var i := LastIndex(addr, ':');
    if i < 0 then None
    else if addr[0] == '[' then
      var end := IndexOf(addr, ']');
      if end < 0 || end + 1 != i || '[' in addr[1..] || ']' in addr[end + 1..] then None
      else Some((addr[1..end], addr[i + 1..]))
    else if ':' in addr[..i] || '[' in addr || ']' in addr then None
    else Some((addr[..i], addr[i + 1..]))
  }

  /** net.JoinHostPort */
  function JoinHostPort(host: string, port: string): string {
    if ':' in host then "[" + host + "]:" + port else host + ":" + port
  }

  predicate NoneOf(s: string, a: char, b: char) {
    a !in s && b !in s
  }

  lemma SplitClean(addr: string)
    requires SplitHostPort(addr).Some?
    ensures NoneOf(SplitHostPort(addr).value.0, '[', ']')
    ensures NoneOf(SplitHostPort(addr).value.1, '[', ']') && ':' !in SplitHostPort(addr).value.1
  {
    var i := LastIndex(addr, ':');
    forall c | c in addr[i + 1..]
      ensures c != ':' && (addr[0] != '[' ==> c in addr)
    {
      var k :| 0 <= k < |addr[i + 1..]| && addr[i + 1..][k] == c;
      assert addr[i + 1 + k] == c;
    }
    if addr[0] == '[' {
      var end := IndexOf(addr, ']');
      forall c | c in addr[1..end]
        ensures c != ']' && c in addr[1..]
      {
        var k :| 0 <= k < |addr[1..end]| && addr[1..end][k] == c;
        assert addr[1..][k] == addr[k + 1] == c;
      }
      forall c | c in addr[i + 1..]
        ensures c in addr[1..] && c in addr[end + 1..]
      {
        var k :| 0 <= k < |addr[i + 1..]| && addr[i + 1..][k] == c;
        assert addr[1..][i + k] == c && addr[end + 1..][k + 1] == c;
      }
    } else {
      forall c | c in addr[..i]
        ensures c in addr
      {
      }
    }
  }

  lemma LastIndexIs(s: string, c: char, i: nat)
    requires i < |s| && s[i] == c && forall j :: i < j < |s| ==> s[j] != c
    ensures LastIndex(s, c) == i
  {
  }

  lemma NotIn(a: string, b: string, c: char)
    requires c !in a && c !in b
    ensures c !in a + b
  {
  }

  lemma BracketedSplit(host: string, port: string)
    requires NoneOf(host, '[', ']') && NoneOf(port, '[', ']') && ':' !in port
    ensures SplitHostPort("[" + host + "]:" + port) == Some((host, port))
  {
    var addr := "[" + host + "]:" + port;
    var n := |host|;
    assert addr == "[" + host + "]" + ":" + port;
    LastIndexIs(addr, ':', n + 2);
    FirstBracket(addr, n + 1);
    assert addr[1..n + 1] == host && addr[n + 3..] == port;
    NotIn(host, "]:", '[');
    NotIn(host + "]:", port, '[');
    assert addr[1..] == host + "]:" + port;
    NotIn(":", port, ']');
    assert addr[n + 2..] == ":" + port;
  }

  lemma {:induction false} FirstBracket(s: string, n: nat)
    requires n < |s| && s[n] == ']' && forall j :: 0 <= j < n ==> s[j] != ']'
    ensures IndexOf(s, ']') == n
  {
    if n > 0 {
      FirstBracket(s[1..], n - 1);
    }
  }

  /** Any host and port that were once split apart can be joined and split again. */
  lemma JoinSplit(host: string, port: string)
    requires NoneOf(host, '[', ']') && NoneOf(port, '[', ']') && ':' !in port
    ensures SplitHostPort(JoinHostPort(host, port)) == Some((host, port))
  {
    if ':' in host {
      BracketedSplit(host, port);
    } else {
      var addr := host + ":" + port;
      LastIndexIs(addr, ':', |host|);
      assert addr[..|host|] == host && addr[|host| + 1..] == port;
    }
  }

  // ----- Flags

  datatype Flag =
    | Socket | DataDir | Version | Advertise | ConsoleAddr | AutoCreate | DefaultPartitions | RetentionMs | RetentionBytes

  function Name(f: Flag): string {
    match f
    case Socket => "socket"
    case DataDir => "datadir"
    case Version => "version"
    case Advertise => "advertise"
    case ConsoleAddr => "console-addr"
    case AutoCreate => "auto-create"
    case DefaultPartitions => "default-partitions"
    case RetentionMs => "retention-ms"
    case RetentionBytes => "retention-bytes"
  }

  function Lookup(name: string): Option<Flag> {
    if name == Name(Socket) then Some(Socket)
    else if name == Name(DataDir) then Some(DataDir)
    else if name == Name(Version) then Some(Version)
    else if name == Name(Advertise) then Some(Advertise)
    else if name == Name(ConsoleAddr) then Some(ConsoleAddr)
    else if name == Name(AutoCreate) then Some(AutoCreate)
    else if name == Name(DefaultPartitions) then Some(DefaultPartitions)
    else if name == Name(RetentionMs) then Some(RetentionMs)
    else if name == Name(RetentionBytes) then Some(RetentionBytes)
    else None
  }

  /** The variables the flags fill. */
  datatype Vars = Vars(
    socket: string, datadir: string, version: string, advertise: string, consoleAddr: string, autoCreate: string,
    defaultPartitions: int, retentionMs: int, retentionBytes: int)

  const DEFAULTS := Vars("", "", "4", "", "", "", 0, 0, 0)

  /** The digit's value, or the base itself for what is no digit in it. */
  function DigitIn(c: char, base: nat): nat {
    var d := if '0' <= c <= '9' then c as int - '0' as int
             else if 'a' <= c <= 'z' then c as int - 'a' as int + 10
             else if 'A' <= c <= 'Z' then c as int - 'A' as int + 10
             else base;
    if d < base then d else base
  }

  function Digits(s: string, base: nat): Option<nat> {
    if s == "" then Some(0)
    else
      var high := Digits(s[..|s| - 1], base);
      var low := DigitIn(s[|s| - 1], base);
      if high.None? || low == base then None else Some(base * high.value + low)
  }

  /** strconv.ParseInt(s, 0, 64): the base follows from the prefix. */
  function ParseInt(s: string): Option<int> {
    var digits := if Signed(s) then s[1..] else s;
    var magnitude :=
      if digits == "" then None
      else if digits[0] == '0' && |digits| > 2 && LowerChar(digits[1]) == 'x' then Digits(digits[2..], 16)
      else if digits[0] == '0' && |digits| > 2 && LowerChar(digits[1]) == 'b' then Digits(digits[2..], 2)
      else if digits[0] == '0' && |digits| > 2 && LowerChar(digits[1]) == 'o' then Digits(digits[2..], 8)
      else if digits[0] == '0' && |digits| > 1 then Digits(digits[1..], 8)
      else Digits(digits, 10);
    if magnitude.None? then None
    else if s[0] == '-' then InRange(-(magnitude.value as int))
    else InRange(magnitude.value)
  }

  lemma {:induction false} DecimalDigits(s: string)
    requires AllDigits(s)
    ensures Digits(s, 10) == Some(DigitsValue(s))
  {
    if s != "" {
      DecimalDigits(s[..|s| - 1]);
    }
  }

  /** A positive number is printed without a leading zero, so no base but ten is read into it. */
  lemma ParseIntItoa(n: int)
    requires 0 < n <= MAX_INT
    ensures ParseInt(Itoa(n)) == Some(n)
  {
    var d := Decimal(n);
    DecimalDigits(d);
    DecimalValue(n);
    assert d[0] != '0' && !Signed(d);
  }

  function Set(v: Vars, f: Flag, value: string): Result<Vars, string> {
    match f
    case Socket => Success(v.(socket := value))
    case DataDir => Success(v.(datadir := value))
    case Version => Success(v.(version := value))
    case Advertise => Success(v.(advertise := value))
    case ConsoleAddr => Success(v.(consoleAddr := value))
    case AutoCreate => Success(v.(autoCreate := value))
    case DefaultPartitions =>
      if ParseInt(value).None? then Failure(Invalid(f, value)) else Success(v.(defaultPartitions := ParseInt(value).value))
    case RetentionMs =>
      if ParseInt(value).None? then Failure(Invalid(f, value)) else Success(v.(retentionMs := ParseInt(value).value))
    case RetentionBytes =>
      if ParseInt(value).None? then Failure(Invalid(f, value)) else Success(v.(retentionBytes := ParseInt(value).value))
  }

  function Invalid(f: Flag, value: string): string {
    "invalid value \"" + value + "\" for flag -" + Name(f)
  }

  /** The flag an argument names, and the value if it carries one behind an equals sign. */
  function Named(arg: string): Result<(Flag, Option<string>), string>
    requires |arg| >= 2 && arg[0] == '-' && arg != "--"
  {
    var name := arg[if arg[1] == '-' then 2 else 1..];
    if name == "" || name[0] == '-' || name[0] == '=' then Failure("bad flag syntax: " + arg)
    else
      var eq := IndexOf(name, '=');
      var key := if eq < 0 then name else name[..eq];
      if Lookup(key).None? then Failure("flag provided but not defined: -" + key)
      else Success((Lookup(key).value, if eq < 0 then None else Some(name[eq + 1..])))
  }

  /** Parsing stops at the first argument that is no flag, and behind "--". */
  predicate Stops(args: seq<string>) {
    args == [] || |args[0]| < 2 || args[0][0] != '-' || args[0] == "--"
  }

  /** flag.Parse */
  function ParseFlags(args: seq<string>, v: Vars): Result<Vars, string>
    decreases |args|
  {
    if Stops(args) then Success(v)
    else
      var flag := Named(args[0]);
      if flag.Failure? then Failure(flag.error)
      else if flag.value.1.Some? then
        var next := Set(v, flag.value.0, flag.value.1.value);
        if next.Failure? then next else ParseFlags(args[1..], next.value)
      else if |args| == 1 then Failure("flag needs an argument: -" + Name(flag.value.0))
      else
        var next := Set(v, flag.value.0, args[1]);
        if next.Failure? then next else ParseFlags(args[2..], next.value)
  }

  // ----- The plan

  datatype Config = Config(autoCreateTopics: Option<bool>, defaultPartitions: int, retentionMs: int, retentionBytes: int)

  datatype Instance = Instance(socket: string, dataDir: string, advertise: string, config: Option<Config>)

  /** The 64-bit ranges of the configuration's numbers. */
  predicate Representable(inst: Instance) {
    inst.config.Some? ==>
      (var c := inst.config.value;
       c.defaultPartitions <= MAX_INT && c.retentionMs <= MAX_INT && c.retentionBytes <= MAX_INT)
  }

  /** p + 1 in 64 bits. */
  function Up(p: int): int {
    if p == MAX_INT then MIN_INT else p + 1
  }

  /** Where the web console listens: the advertised host, one port up. */
  function Console(advertise: string): Option<string> {
    var split := SplitHostPort(advertise);
    if split.None? || Atoi(split.value.1).None? then None
    else Some(JoinHostPort(split.value.0, Itoa(Up(Atoi(split.value.1).value))))
  }

  type Setting = (Flag, string)

  function Grow(given: seq<Setting>, when: bool, f: Flag, value: string): seq<Setting> {
    if when then given + [(f, value)] else given
  }

  function VersionOf(full: string): string {
    if full == "" then "4" else full
  }

  function Text(b: bool): string {
    if b then "true" else "false"
  }

  function Start(inst: Instance, version: string): seq<Setting> {
    [(Socket, inst.socket), (DataDir, inst.dataDir), (Version, version)]
  }

  function Addressed(given: seq<Setting>, advertise: string): seq<Setting> {
    var advertised := Grow(given, advertise != "", Advertise, advertise);
    Grow(advertised, Console(advertise).Some?, ConsoleAddr, Or(Console(advertise), ""))
  }

  /** What an instance is told about itself before its configuration. */
  function Placed(inst: Instance, full: string): seq<Setting> {
    Addressed(Start(inst, VersionOf(full)), inst.advertise)
  }

  function Configured(placed: seq<Setting>, cfg: Config): seq<Setting> {
    var auto := cfg.autoCreateTopics;
    var a := Grow(placed, auto.Some?, AutoCreate, Text(auto.Some? && auto.value));
    var b := Grow(a, cfg.defaultPartitions > 0, DefaultPartitions, Itoa(cfg.defaultPartitions));
    var c := Grow(b, cfg.retentionMs > 0, RetentionMs, Itoa(cfg.retentionMs));
    Grow(c, cfg.retentionBytes > 0, RetentionBytes, Itoa(cfg.retentionBytes))
  }

  function Given(inst: Instance, full: string): seq<Setting> {
    if inst.config.Some? then Configured(Placed(inst, full), inst.config.value) else Placed(inst, full)
  }

  /** Settings as arguments, two each. */
  function Arguments(given: seq<Setting>): seq<string> {
    if given == [] then []
    else
      var last := given[|given| - 1];
      Arguments(given[..|given| - 1]) + ["--" + Name(last.0), last.1]
  }

  lemma GrowArguments(given: seq<Setting>, f: Flag, value: string)
    ensures Arguments(given + [(f, value)]) == Arguments(given) + ["--" + Name(f), value]
  {
    assert (given + [(f, value)])[..|given|] == given;
  }

  lemma Appended(args: seq<string>, given: seq<Setting>, f: Flag, value: string)
    requires args == ["__serve"] + Arguments(given)
    ensures args + ["--" + Name(f), value] == ["__serve"] + Arguments(given + [(f, value)])
  {
    GrowArguments(given, f, value);
  }

  /** The flags as the plan spells them. */
  lemma Spelled()
    ensures "--" + Name(Socket) == "--socket" && "--" + Name(DataDir) == "--datadir" && "--" + Name(Version) == "--version"
    ensures "--" + Name(Advertise) == "--advertise" && "--" + Name(ConsoleAddr) == "--console-addr"
    ensures "--" + Name(AutoCreate) == "--auto-create" && "--" + Name(DefaultPartitions) == "--default-partitions"
    ensures "--" + Name(RetentionMs) == "--retention-ms" && "--" + Name(RetentionBytes) == "--retention-bytes"
  {
  }

  ghost predicate Holds(args: seq<string>, given: seq<Setting>) {
    args == ["__serve"] + Arguments(given)
  }

  lemma StartHolds(inst: Instance, version: string)
    ensures Holds(["__serve", "--socket", inst.socket, "--datadir", inst.dataDir, "--version", version], Start(inst, version))
  {
    var none: seq<Setting> := [];
    var one, two := [(Socket, inst.socket)], [(Socket, inst.socket), (DataDir, inst.dataDir)];
    assert none + [(Socket, inst.socket)] == one && one + [(DataDir, inst.dataDir)] == two;
    assert two + [(Version, version)] == Start(inst, version);
    GrowArguments(none, Socket, inst.socket);
    GrowArguments(one, DataDir, inst.dataDir);
    GrowArguments(two, Version, version);
    Spelled();
  }

  /** args = append(args, flag, value) */
  method Append(args: seq<string>, flag: string, value: string, ghost given: seq<Setting>, ghost f: Flag)
    returns (more: seq<string>)
    requires Holds(args, given) && flag == "--" + Name(f)
    ensures Holds(more, given + [(f, value)])
  {
    more := args + [flag, value];
    Appended(args, given, f, value);
  }

  /** The command line of a configured broker, from that of one with its place and address alone. */
  method AppendConfig(placed: seq<string>, cfg: Config, ghost given: seq<Setting>) returns (args: seq<string>)
    requires Holds(placed, given)
    ensures Holds(args, Configured(given, cfg))
  {
    args := placed;
    ghost var now := given;
    Spelled();
    if cfg.autoCreateTopics.Some? {
      args := Append(args, "--auto-create", Text(cfg.autoCreateTopics.value), now, AutoCreate);
      now := now + [(AutoCreate, Text(cfg.autoCreateTopics.value))];
    }
    if cfg.defaultPartitions > 0 {
      args := Append(args, "--default-partitions", Itoa(cfg.defaultPartitions), now, DefaultPartitions);
      now := now + [(DefaultPartitions, Itoa(cfg.defaultPartitions))];
    }
    if cfg.retentionMs > 0 {
      args := Append(args, "--retention-ms", Itoa(cfg.retentionMs), now, RetentionMs);
      now := now + [(RetentionMs, Itoa(cfg.retentionMs))];
    }
    if cfg.retentionBytes > 0 {
      args := Append(args, "--retention-bytes", Itoa(cfg.retentionBytes), now, RetentionBytes);
    }
  }

  /** The advertised address, and the console's one port up when the address has a numeric port. */
  method AppendAddress(placed: seq<string>, advertise: string, ghost given: seq<Setting>) returns (args: seq<string>)
    requires Holds(placed, given)
    ensures Holds(args, Addressed(given, advertise))
  {
    args := placed;
    Spelled();
    if advertise != "" {
      args := Append(args, "--advertise", advertise, given, Advertise);
      var split := SplitHostPort(advertise);
      if split.Some? {
        var p := Atoi(split.value.1);
        if p.Some? {
          args := Append(args, "--console-addr", JoinHostPort(split.value.0, Itoa(Up(p.value))),
                         given + [(Advertise, advertise)], ConsoleAddr);
        }
      }
    }
  }

  method Plan(inst: Instance, full: string) returns (args: seq<string>)
    ensures Holds(args, Given(inst, full))
  {
    var version := full;
    if version == "" {
      version := "4";
    }
    args := ["__serve", "--socket", inst.socket, "--datadir", inst.dataDir, "--version", version];
    StartHolds(inst, version);
    args := AppendAddress(args, inst.advertise, Start(inst, version));
    if inst.config.Some? {
      args := AppendConfig(args, inst.config.value, Placed(inst, full));
    }
  }

  // ----- The broker

  datatype Options = Options(
    version: int, dataDir: string, defaultPartitions: int, retentionMs: int, retentionBytes: int,
    advertisedHost: string, advertisedPort: int, autoCreateTopics: Option<bool>)

  datatype Broker = Broker(options: Options, socket: string, consoleAddr: string)

  const REQUIRED := "kafka __serve: --socket and --datadir are required"

  method Parse(args: seq<string>) returns (r: Result<Vars, string>)
    ensures r == ParseFlags(args, DEFAULTS)
  {
    var v := DEFAULTS;
    var rest := args;
    while !Stops(rest)
      invariant ParseFlags(args, DEFAULTS) == ParseFlags(rest, v)
      decreases |rest|
    {
      var flag := Named(rest[0]);
      if flag.Failure? {
        return Failure(flag.error);
      }
      var value := flag.value.1;
      if value.None? && |rest| == 1 {
        return Failure("flag needs an argument: -" + Name(flag.value.0));
      }
      var next := Set(v, flag.value.0, if value.Some? then value.value else rest[1]);
      if next.Failure? {
        return next;
      }
      v := next.value;
      rest := if value.Some? then rest[1..] else rest[2..];
    }
    return Success(v);
  }

  /** ServeFromArgs, up to the options the server is opened with. */
  method ServeFromArgs(argv: seq<string>) returns (r: Result<Broker, string>)
    requires argv != []
    ensures r == Serve(argv[1..])
  {
    var parsed := Parse(argv[1..]);
    if parsed.Failure? {
      return Failure(parsed.error);
    }
    var v := parsed.value;
    if v.socket == "" || v.datadir == "" {
      return Failure(REQUIRED);
    }
    var ver := 4;
    if Atoi(v.version).Some? {
      ver := Atoi(v.version).value;
    }
    var opts := Options(ver, v.datadir, v.defaultPartitions, v.retentionMs, v.retentionBytes, "", 0, None);
    if v.advertise != "" {
      var split := SplitHostPort(v.advertise);
      if split.Some? {
        opts := opts.(advertisedHost := split.value.0);
        var p := Atoi(split.value.1);
        if p.Some? {
          opts := opts.(advertisedPort := p.value);
        }
      }
    }
    if v.autoCreate != "" {
      opts := opts.(autoCreateTopics := Some(v.autoCreate == "true"));
    }
    return Success(Broker(opts, v.socket, v.consoleAddr));
  }

  function HostOf(advertise: string): string {
    if SplitHostPort(advertise).Some? then SplitHostPort(advertise).value.0 else ""
  }

  function PortOf(advertise: string): int {
    if SplitHostPort(advertise).Some? then Or(Atoi(SplitHostPort(advertise).value.1), 0) else 0
  }

  function Serve(args: seq<string>): Result<Broker, string> {
    var parsed := ParseFlags(args, DEFAULTS);
    if parsed.Failure? then Failure(parsed.error)
    else if parsed.value.socket == "" || parsed.value.datadir == "" then Failure(REQUIRED)
    else
      var v := parsed.value;
      var auto := if v.autoCreate == "" then None else Some(v.autoCreate == "true");
      Success(Broker(
        Options(Or(Atoi(v.version), 4), v.datadir, v.defaultPartitions, v.retentionMs, v.retentionBytes,
                HostOf(v.advertise), PortOf(v.advertise), auto),
        v.socket, v.consoleAddr))
  }

  // ----- The broker reads what the plan wrote

  lemma NamesRead(f: Flag)
    ensures Lookup(Name(f)) == Some(f)
    ensures Name(f) != "" && Name(f)[0] != '-' && '=' !in Name(f)
  {
  }

  lemma FlagRead(f: Flag)
    ensures var arg := "--" + Name(f);
      |arg| >= 2 && arg[0] == '-' && arg != "--" && Named(arg) == Success((f, None))
  {
    NamesRead(f);
    var arg := "--" + Name(f);
    assert arg[2..] == Name(f);
    assert |arg| > 2;
  }

  function SetAll(given: seq<Setting>, v: Vars): Result<Vars, string> {
    if given == [] then Success(v)
    else
      var before := SetAll(given[..|given| - 1], v);
      var last := given[|given| - 1];
      if before.Failure? then before else Set(before.value, last.0, last.1)
  }

  lemma {:induction false} ParseArguments(given: seq<Setting>, tail: seq<string>, v: Vars)
    ensures ParseFlags(Arguments(given) + tail, v) ==
      if SetAll(given, v).Failure? then SetAll(given, v) else ParseFlags(tail, SetAll(given, v).value)
  {
    if given == [] {
      assert Arguments(given) + tail == tail;
    } else {
      var init := given[..|given| - 1];
      var last := given[|given| - 1];
      var two := ["--" + Name(last.0), last.1];
      assert Arguments(given) + tail == Arguments(init) + (two + tail);
      ParseArguments(init, two + tail, v);
      FlagRead(last.0);
      assert (two + tail)[0] == two[0] && (two + tail)[1] == last.1 && (two + tail)[2..] == tail;
    }
  }

  lemma SetGrown(given: seq<Setting>, when: bool, f: Flag, value: string, v: Vars, now: Vars)
    requires SetAll(given, v) == Success(now)
    ensures SetAll(Grow(given, when, f, value), v) == if when then Set(now, f, value) else Success(now)
  {
    assert (given + [(f, value)])[..|given|] == given;
  }

  function Positive(n: int): int {
    if n > 0 then n else 0
  }

  function Started(inst: Instance, version: string): Vars {
    DEFAULTS.(socket := inst.socket, datadir := inst.dataDir, version := version)
  }

  lemma StartRead(inst: Instance, version: string)
    ensures SetAll(Start(inst, version), DEFAULTS) == Success(Started(inst, version))
  {
    var one, two := [(Socket, inst.socket)], [(Socket, inst.socket), (DataDir, inst.dataDir)];
    assert Start(inst, version)[..2] == two && two[..1] == one && one[..0] == [];
    assert SetAll(one, DEFAULTS) == Success(DEFAULTS.(socket := inst.socket));
    assert SetAll(two, DEFAULTS) == Success(DEFAULTS.(socket := inst.socket, datadir := inst.dataDir));
  }

  lemma PlacedRead(inst: Instance, full: string)
    ensures SetAll(Placed(inst, full), DEFAULTS) ==
      Success(Started(inst, VersionOf(full)).(advertise := inst.advertise, consoleAddr := Or(Console(inst.advertise), "")))
  {
    var v := Started(inst, VersionOf(full));
    var given := Start(inst, VersionOf(full));
    StartRead(inst, VersionOf(full));
    SetGrown(given, inst.advertise != "", Advertise, inst.advertise, DEFAULTS, v);
    v := v.(advertise := inst.advertise);
    given := Grow(given, inst.advertise != "", Advertise, inst.advertise);
    SetGrown(given, Console(inst.advertise).Some?, ConsoleAddr, Or(Console(inst.advertise), ""), DEFAULTS, v);
  }

  lemma ConfiguredRead(placed: seq<Setting>, cfg: Config, v: Vars)
    requires SetAll(placed, DEFAULTS) == Success(v)
    requires v.autoCreate == "" && v.defaultPartitions == v.retentionMs == v.retentionBytes == 0
    requires cfg.defaultPartitions <= MAX_INT && cfg.retentionMs <= MAX_INT && cfg.retentionBytes <= MAX_INT
    ensures SetAll(Configured(placed, cfg), DEFAULTS) == Success(v.(
      autoCreate := if cfg.autoCreateTopics.Some? then Text(cfg.autoCreateTopics.value) else "",
      defaultPartitions := Positive(cfg.defaultPartitions),
      retentionMs := Positive(cfg.retentionMs),
      retentionBytes := Positive(cfg.retentionBytes)))
  {
    var auto := cfg.autoCreateTopics;
    var text := Text(auto.Some? && auto.value);
    SetGrown(placed, auto.Some?, AutoCreate, text, DEFAULTS, v);
    var now := v.(autoCreate := if auto.Some? then text else "");
    var given := Grow(placed, auto.Some?, AutoCreate, text);
    NumberRead(given, DefaultPartitions, cfg.defaultPartitions, now);
    given := Grow(given, cfg.defaultPartitions > 0, DefaultPartitions, Itoa(cfg.defaultPartitions));
    now := now.(defaultPartitions := Positive(cfg.defaultPartitions));
    NumberRead(given, RetentionMs, cfg.retentionMs, now);
    given := Grow(given, cfg.retentionMs > 0, RetentionMs, Itoa(cfg.retentionMs));
    now := now.(retentionMs := Positive(cfg.retentionMs));
    NumberRead(given, RetentionBytes, cfg.retentionBytes, now);
  }

  lemma NumberRead(given: seq<Setting>, f: Flag, n: int, now: Vars)
    requires SetAll(given, DEFAULTS) == Success(now) && n <= MAX_INT
    requires f.DefaultPartitions? || f.RetentionMs? || f.RetentionBytes?
    requires now.defaultPartitions == 0 || f != DefaultPartitions
    requires now.retentionMs == 0 || f != RetentionMs
    requires now.retentionBytes == 0 || f != RetentionBytes
    ensures SetAll(Grow(given, n > 0, f, Itoa(n)), DEFAULTS) == Success(
      if f.DefaultPartitions? then now.(defaultPartitions := Positive(n))
      else if f.RetentionMs? then now.(retentionMs := Positive(n))
      else now.(retentionBytes := Positive(n)))
  {
    SetGrown(given, n > 0, f, Itoa(n), DEFAULTS, now);
    if n > 0 {
      ParseIntItoa(n);
    }
  }

  function Expected(inst: Instance, full: string): Result<Broker, string> {
    if inst.socket == "" || inst.dataDir == "" then Failure(REQUIRED)
    else
      var cfg := if inst.config.Some? then inst.config.value else Config(None, 0, 0, 0);
      Success(Broker(
        Options(Or(Atoi(VersionOf(full)), 4), inst.dataDir, Positive(cfg.defaultPartitions),
                Positive(cfg.retentionMs), Positive(cfg.retentionBytes),
                HostOf(inst.advertise), PortOf(inst.advertise), cfg.autoCreateTopics),
        inst.socket, Or(Console(inst.advertise), "")))
  }

  /**
   * For every instance, endpoint and version, whatever characters they hold, the broker opens with what the instance
   * declares; it refuses its arguments only for want of a data directory (the socket path never is empty).
   */
  lemma BrokerOpensAsPlanned(inst: Instance, full: string)
    requires Representable(inst)
    ensures Serve(Arguments(Given(inst, full))) == Expected(inst, full)
  {
    var args := Arguments(Given(inst, full));
    ParseArguments(Given(inst, full), [], DEFAULTS);
    assert args + [] == args;
    PlacedRead(inst, full);
    if inst.config.Some? {
      ConfiguredRead(Placed(inst, full), inst.config.value, SetAll(Placed(inst, full), DEFAULTS).value);
    }
  }

  method PlanThenServe(inst: Instance, full: string) returns (r: Result<Broker, string>)
    requires Representable(inst)
    ensures r == Expected(inst, full)
  {
    var args := Plan(inst, full);
    r := ServeFromArgs(args);
    assert args[1..] == Arguments(Given(inst, full));
    BrokerOpensAsPlanned(inst, full);
  }

  /** The console listens on the advertised host, bracketed again if need be, one port up. */
  lemma ConsoleOnePortUp(advertise: string)
    requires Console(advertise).Some? && PortOf(advertise) < MAX_INT
    ensures HostOf(Console(advertise).value) == HostOf(advertise)
    ensures PortOf(Console(advertise).value) == PortOf(advertise) + 1
  {
    ConsoleIs(advertise);
    Joined(HostOf(advertise), PortOf(advertise) + 1);
  }

  lemma ConsoleIs(advertise: string)
    requires Console(advertise).Some? && PortOf(advertise) < MAX_INT
    ensures Console(advertise).value == JoinHostPort(HostOf(advertise), Itoa(PortOf(advertise) + 1))
    ensures NoneOf(HostOf(advertise), '[', ']') && MIN_INT <= PortOf(advertise)
  {
    SplitClean(advertise);
  }

  lemma Joined(host: string, port: int)
    requires NoneOf(host, '[', ']') && MIN_INT <= port <= MAX_INT
    ensures HostOf(JoinHostPort(host, Itoa(port))) == host && PortOf(JoinHostPort(host, Itoa(port))) == port
  {
    ItoaClean(port);
    JoinSplit(host, Itoa(port));
    AtoiItoa(port);
  }

  lemma ItoaClean(n: int)
    ensures NoneOf(Itoa(n), '[', ']') && ':' !in Itoa(n)
  {
    var d := Decimal(if n < 0 then -n else n);
    assert forall c :: c in d ==> '0' <= c <= '9';
  }
}
