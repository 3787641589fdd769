/** api/config.go: the agent's configuration record, the command-line flags
    it registers, and the assembly of the default configuration. */
module ApiConfig {
  import opened Wrappers

  /** The `Systemd` field: a nil interface in the zero value, the
      service-manager client `&SystemdType{}` once defaults are filled. */
  datatype Systemd = NilSystemd | SystemdType

  datatype Config = Config(
    version: string,
    mesosIpDiscoveryCommand: string,
    dcosVersion: string,
    systemd: Systemd,
    systemdUnits: seq<string>,
    flagPull: bool,
    flagDiag: bool,
    flagVerbose: bool,
    flagVersion: bool,
    flagPort: int,
    flagPullInterval: int)

  const EmptyArgsError: string := "arguments cannot be empty"
  const DefaultPort: int := 1050
  const DefaultPullInterval: int := 60
  const MesosIpDiscoveryCommandVar: string := "MESOS_IP_DISCOVERY_COMMAND"
  const DcosVersionVar: string := "DCOS_VERSION"
  const DefaultDetectIpCommand: string := "/opt/mesosphere/bin/detect_ip"
  const DefaultSystemdUnits: seq<string> := ["dcos-setup.service", "dcos-link-env.service", "dcos-download.service"]

  /** Go's zero value of `Config`: empty strings, a nil service-manager
      client, no units, every switch off and both numbers 0. */
  function ZeroConfig(): (z: Config)
    ensures z.version == "" && z.mesosIpDiscoveryCommand == "" && z.dcosVersion == ""
    ensures z.systemd == NilSystemd && z.systemdUnits == []
    ensures !z.flagPull && !z.flagDiag && !z.flagVerbose && !z.flagVersion
    ensures z.flagPort == 0 && z.flagPullInterval == 0
  {
    Config("", "", "", NilSystemd, [], false, false, false, false, 0, 0)
  }

  /** The process environment as a map; an unset variable reads as "". */
  function Getenv(env: map<string, string>, key: string): string {
    if key in env then env[key] else ""
  }

  /** The fields no command-line flag can change. */
  predicate SameFixedFields(a: Config, b: Config) {
    && a.version == b.version
    && a.mesosIpDiscoveryCommand == b.mesosIpDiscoveryCommand
    && a.dcosVersion == b.dcosVersion
    && a.systemd == b.systemd
    && a.systemdUnits == b.systemdUnits
  }

  // ---------------------------------------------------------------------
  // Flags

  /** The six flags `SetFlags` registers, one per `Flag...` field. */
  datatype FlagName = PullFlag | DiagFlag | VerboseFlag | VersionFlag | PortFlag | PullIntervalFlag

  datatype FlagValue = BoolValue(b: bool) | IntValue(n: int)

  /** One registered flag: its command-line name, the field it is bound to,
      its default and its usage text. */
  datatype FlagDef = FlagDef(name: string, flag: FlagName, default: FlagValue, usage: string)

  /** One flag the parser stored into its field, typed as the field is. */
  datatype FlagSetting =
    | SetPull(pull: bool)
    | SetDiag(diag: bool)
    | SetVerbose(verbose: bool)
    | SetVersion(printVersion: bool)
    | SetPort(port: int)
    | SetPullInterval(interval: int)

  /** What parsing the command line produced: the flags it stored, in
      command-line order, and the error it stopped at, if any. Parsing stops
      at the first non-flag argument, at `--` or at the first error, so later
      occurrences are never stored. When a value fails to parse, the flag is
      still stored (false, 0, or the clamped value on a range error) and
      ends `applied`; the other errors (undefined flag, missing value,
      `-help`) store nothing for the failing flag. */
  datatype ParseOutcome = ParseOutcome(applied: seq<FlagSetting>, err: Option<string>)

  function FlagOf(s: FlagSetting): FlagName {
    match s
    case SetPull(_) => PullFlag
    case SetDiag(_) => DiagFlag
    case SetVerbose(_) => VerboseFlag
    case SetVersion(_) => VersionFlag
    case SetPort(_) => PortFlag
    case SetPullInterval(_) => PullIntervalFlag
  }

  function ValueOf(s: FlagSetting): FlagValue {
    match s
    case SetPull(b) => BoolValue(b)
    case SetDiag(b) => BoolValue(b)
    case SetVerbose(b) => BoolValue(b)
    case SetVersion(b) => BoolValue(b)
    case SetPort(n) => IntValue(n)
    case SetPullInterval(n) => IntValue(n)
  }

  /** The current value of the field a flag is bound to. */
  function Read(c: Config, n: FlagName): FlagValue {
    match n
    case PullFlag => BoolValue(c.flagPull)
    case DiagFlag => BoolValue(c.flagDiag)
    case VerboseFlag => BoolValue(c.flagVerbose)
    case VersionFlag => BoolValue(c.flagVersion)
    case PortFlag => IntValue(c.flagPort)
    case PullIntervalFlag => IntValue(c.flagPullInterval)
  }

  /** Storing a parsed flag through the field pointer registered for it:
      that flag's field takes the value and nothing else changes. */
  function Write(c: Config, s: FlagSetting): (c': Config)
    ensures Read(c', FlagOf(s)) == ValueOf(s)
    ensures forall n :: n != FlagOf(s) ==> Read(c', n) == Read(c, n)
    ensures SameFixedFields(c', c)
  {
    match s
    case SetPull(b) => c.(flagPull := b)
    case SetDiag(b) => c.(flagDiag := b)
    case SetVerbose(b) => c.(flagVerbose := b)
    case SetVersion(b) => c.(flagVersion := b)
    case SetPort(n) => c.(flagPort := n)
    case SetPullInterval(n) => c.(flagPullInterval := n)
  }

  /** Flag `n` is bound by one of `defs`. */
  predicate Registers(defs: seq<FlagDef>, n: FlagName) {
    exists i :: 0 <= i < |defs| && defs[i].flag == n
  }

  /** The name each flag has on the command line. */
  function CommandLineName(n: FlagName): string {
    match n
    case PullFlag => "pull"
    case DiagFlag => "diag"
    case VerboseFlag => "verbose"
    case VersionFlag => "version"
    case PortFlag => "port"
    case PullIntervalFlag => "pull-interval"
  }

  function Usage(n: FlagName): string {
    match n
    case PullFlag => "Try to pull checks from DC/OS hosts."
    case DiagFlag => "Get diagnostics output once on the CLI. Does not expose API."
    case VerboseFlag => "Use verbose debug output."
    case VersionFlag => "Print version."
    case PortFlag => "Web server TCP port."
    case PullIntervalFlag => "Set pull interval, default 60 sec."
  }

  /** No two flags share a command-line name. */
  lemma CommandLineNamesDistinct(n1: FlagName, n2: FlagName)
    requires n1 != n2
    ensures CommandLineName(n1) != CommandLineName(n2)
  {
  }

  /** The registration of flag `n`, bound to its field, defaulting to the
      field's value in `c`. */
  function Define(c: Config, n: FlagName): (d: FlagDef)
    ensures d.flag == n && d.default == Read(c, n)
  {
    FlagDef(CommandLineName(n), n, Read(c, n), Usage(n))
  }

  /** `SetFlags`: registers the six flags, each bound to its field with the
      field's current value as its default. */
  function SetFlags(c: Config): (defs: seq<FlagDef>)
    ensures |defs| == 6
    ensures forall i :: 0 <= i < |defs| ==> defs[i].default == Read(c, defs[i].flag)
  {
    [Define(c, PullFlag), Define(c, DiagFlag), Define(c, VerboseFlag), Define(c, VersionFlag), Define(c, PortFlag), Define(c, PullIntervalFlag)]
  }

  /** Every flag is registered, no field twice and no name twice. */
  lemma SetFlagsRegistersEachFlagOnce(c: Config)
    ensures forall n :: Registers(SetFlags(c), n)
    ensures forall i, j :: 0 <= i < j < 6 ==> SetFlags(c)[i].flag != SetFlags(c)[j].flag
    ensures forall i, j :: 0 <= i < j < 6 ==> SetFlags(c)[i].name != SetFlags(c)[j].name
  {
    var defs := SetFlags(c);
    assert defs[0].flag == PullFlag && defs[1].flag == DiagFlag && defs[2].flag == VerboseFlag;
    assert defs[3].flag == VersionFlag && defs[4].flag == PortFlag && defs[5].flag == PullIntervalFlag;
    forall i, j | 0 <= i < j < 6
      ensures defs[i].name != defs[j].name
    {
      assert defs[i].name == CommandLineName(defs[i].flag) && defs[j].name == CommandLineName(defs[j].flag);
      CommandLineNamesDistinct(defs[i].flag, defs[j].flag);
    }
  }

  /** The fields after the parser has stored `applied`, one after the other. */
  function ApplyFlags(c: Config, applied: seq<FlagSetting>): (c': Config)
    decreases |applied|
    ensures applied == [] ==> c' == c
    ensures SameFixedFields(c', c)
  {
    if applied == [] then c else ApplyFlags(Write(c, applied[0]), applied[1..])
  }

  /** The value of the last setting of flag `n` in `applied`, if any. */
  function LastSet(applied: seq<FlagSetting>, n: FlagName): Option<FlagValue> {
    if applied == [] then None
    else if FlagOf(applied[|applied| - 1]) == n then Some(ValueOf(applied[|applied| - 1]))
    else LastSet(applied[..|applied| - 1], n)
  }

  /** Flag `n` after `applied`: its last setting, or the value it had. */
  function Effective(c: Config, applied: seq<FlagSetting>, n: FlagName): FlagValue {
    match LastSet(applied, n)
    case Some(v) => v
    case None => Read(c, n)
  }

  lemma {:induction false} ApplyFlagsSnoc(c: Config, applied: seq<FlagSetting>, s: FlagSetting)
    decreases |applied|
    ensures ApplyFlags(c, applied + [s]) == Write(ApplyFlags(c, applied), s)
  {
    if applied != [] {
      assert (applied + [s])[1..] == applied[1..] + [s];
      ApplyFlagsSnoc(Write(c, applied[0]), applied[1..], s);
    }
  }

  /** The last setting of each flag wins; a flag never set keeps its value;
      the fixed fields never change. */
  lemma {:induction false} ApplyFlagsEffect(c: Config, applied: seq<FlagSetting>)
    ensures forall n :: Read(ApplyFlags(c, applied), n) == Effective(c, applied, n)
    ensures SameFixedFields(ApplyFlags(c, applied), c)
  {
    if applied != [] {
      var init, last := applied[..|applied| - 1], applied[|applied| - 1];
      assert applied == init + [last];
      ApplyFlagsSnoc(c, init, last);
      ApplyFlagsEffect(c, init);
    }
  }

  // ---------------------------------------------------------------------
  // Default configuration

  /** The configuration as filled before the flags are parsed: port 1050,
      pull interval 60, every switch off, the given version, the discovery
      command from the environment or else the default path (so never
      empty), the orchestrator version verbatim, the service-manager client
      and the three bootstrap units. */
  function Defaults(version: string, env: map<string, string>): (c: Config)
    ensures c.flagPort == DefaultPort && c.flagPullInterval == DefaultPullInterval
    ensures !c.flagPull && !c.flagDiag && !c.flagVerbose && !c.flagVersion
    ensures c.version == version
    ensures c.mesosIpDiscoveryCommand != ""
    ensures Getenv(env, MesosIpDiscoveryCommandVar) != "" ==>
      c.mesosIpDiscoveryCommand == Getenv(env, MesosIpDiscoveryCommandVar)
    ensures Getenv(env, MesosIpDiscoveryCommandVar) == "" ==>
      c.mesosIpDiscoveryCommand == DefaultDetectIpCommand
    ensures c.dcosVersion == Getenv(env, DcosVersionVar)
    ensures c.systemd == SystemdType
    ensures c.systemdUnits == DefaultSystemdUnits
  {
    var fromEnv := Getenv(env, MesosIpDiscoveryCommandVar);
    var detectIpCmd := if fromEnv == "" then DefaultDetectIpCommand else fromEnv;
    ZeroConfig().(
      flagPort := DefaultPort,
      flagPullInterval := DefaultPullInterval,
      version := version,
      mesosIpDiscoveryCommand := detectIpCmd,
      dcosVersion := Getenv(env, DcosVersionVar),
      systemd := SystemdType,
      systemdUnits := DefaultSystemdUnits)
  }

  /** What `LoadDefaultConfig` returns: the config and the error, if any. */
  datatype Loaded = Loaded(config: Config, err: Option<string>)

  /** `LoadDefaultConfig`: `env` is the process environment and `parse` the
      flag library's parser, given the registered flags and the arguments
      after the program name. */
  function LoadDefaultConfig(args: seq<string>, version: string, env: map<string, string>,
                             parse: (seq<FlagDef>, seq<string>) -> ParseOutcome): (r: Loaded)
    ensures |args| == 0 ==> r == Loaded(ZeroConfig(), Some(EmptyArgsError))
    ensures |args| > 0 ==> r.err == parse(SetFlags(Defaults(version, env)), args[1..]).err
    ensures |args| > 0 ==> SameFixedFields(r.config, Defaults(version, env))
    ensures |args| > 0 ==> forall n ::
      Read(r.config, n) == Effective(Defaults(version, env), parse(SetFlags(Defaults(version, env)), args[1..]).applied, n)
  {
    if |args| == 0 then Loaded(ZeroConfig(), Some(EmptyArgsError))
    else
      var defaults := Defaults(version, env);
      var outcome := parse(SetFlags(defaults), args[1..]);
      ApplyFlagsEffect(defaults, outcome.applied);
      Loaded(ApplyFlags(defaults, outcome.applied), outcome.err)
  }

  /** With no flag on the command line, the flags hold their defaults:
      port 1050, pull interval 60, every switch off. */
  lemma LoadWithoutFlags(args: seq<string>, version: string, env: map<string, string>,
                         parse: (seq<FlagDef>, seq<string>) -> ParseOutcome)
    requires |args| > 0
    requires parse(SetFlags(Defaults(version, env)), args[1..]).applied == []
    ensures var c := LoadDefaultConfig(args, version, env, parse).config;
      && c.flagPort == DefaultPort && c.flagPullInterval == DefaultPullInterval
      && !c.flagPull && !c.flagDiag && !c.flagVerbose && !c.flagVersion
  {
  }

  /** The fields no flag touches: the version argument, the discovery
      command (the environment's, else the default path), the orchestrator
      version verbatim, the service-manager client and the three units. */
  lemma LoadFixedFields(args: seq<string>, version: string, env: map<string, string>,
                        parse: (seq<FlagDef>, seq<string>) -> ParseOutcome)
    requires |args| > 0
    ensures var c := LoadDefaultConfig(args, version, env, parse).config;
      && c.version == version
      && c.mesosIpDiscoveryCommand != ""
      && (Getenv(env, MesosIpDiscoveryCommandVar) != "" ==>
            c.mesosIpDiscoveryCommand == Getenv(env, MesosIpDiscoveryCommandVar))
      && (Getenv(env, MesosIpDiscoveryCommandVar) == "" ==>
            c.mesosIpDiscoveryCommand == DefaultDetectIpCommand)
      && c.dcosVersion == Getenv(env, DcosVersionVar)
      && c.systemd == SystemdType
      && c.systemdUnits == DefaultSystemdUnits
  {
  }

  /** A flag the user does not pass keeps the default `SetFlags`
      registered for it, whether or not parsing failed. */
  lemma LoadUnpassedFlagKeepsDefault(args: seq<string>, version: string, env: map<string, string>,
                                     parse: (seq<FlagDef>, seq<string>) -> ParseOutcome, i: nat)
    requires |args| > 0 && i < 6
    requires var defs := SetFlags(Defaults(version, env));
      LastSet(parse(defs, args[1..]).applied, defs[i].flag).None?
    ensures var defs := SetFlags(Defaults(version, env));
      Read(LoadDefaultConfig(args, version, env, parse).config, defs[i].flag) == defs[i].default
  {
  }

  /** The program name `args[0]` never reaches the parser, so it cannot
      change the result. */
  lemma LoadIgnoresProgramName(args1: seq<string>, args2: seq<string>, version: string,
                               env: map<string, string>, parse: (seq<FlagDef>, seq<string>) -> ParseOutcome)
    requires |args1| > 0 && |args2| > 0 && args1[1..] == args2[1..]
    ensures LoadDefaultConfig(args1, version, env, parse) == LoadDefaultConfig(args2, version, env, parse)
  {
  }

  /** A parse error is returned together with the config: the fixed fields
      and every flag the parser did not store before failing still hold
      their defaults. */
  lemma LoadParseErrorKeepsDefaults(args: seq<string>, version: string, env: map<string, string>,
                                    parse: (seq<FlagDef>, seq<string>) -> ParseOutcome, n: FlagName)
    requires |args| > 0
    requires parse(SetFlags(Defaults(version, env)), args[1..]).err.Some?
    requires LastSet(parse(SetFlags(Defaults(version, env)), args[1..]).applied, n).None?
    ensures var r := LoadDefaultConfig(args, version, env, parse);
      && r.err == parse(SetFlags(Defaults(version, env)), args[1..]).err
      && SameFixedFields(r.config, Defaults(version, env))
      && Read(r.config, n) == Read(Defaults(version, env), n)
  {
  }
}
