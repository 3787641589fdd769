# 3dt command-line core in Dafny

This project models the two small, sequential pieces of the DC/OS
diagnostics agent `3dt` that decide what the agent does before it starts
serving:

- the **one-shot local diagnostic** (`runDiag` in `3dt.go`): given the
  outcome of collecting the local units' health, it prints one line
  `[<id>]: <title> <output>` for every unit whose health code is not 0, in
  the order the units were listed, and returns the process exit code: 1 if
  collection failed or any unit is unhealthy, 0 otherwise; and the
  `-version` banner `Version: <version>, Revision: <revision>`;
- the **default configuration** (`LoadDefaultConfig` and `SetFlags` in
  `api/config.go`): an empty argument list is refused with a zero-valued
  config; otherwise the port (1050), the pull interval (60), the agent
  version, the IP-discovery command (from `MESOS_IP_DISCOVERY_COMMAND`,
  else `/opt/mesosphere/bin/detect_ip`), the orchestrator version (from
  `DCOS_VERSION`, verbatim) and the three bootstrap units are filled in,
  every flag is registered with the field's current value as its default,
  and the command line after the program name is parsed over them.

Modules, one per source file plus two helpers:

- `Structures` (`structures.dfy`): the unit-health record and the local
  health report of `api/structures.go`, as datatypes.
- `Diag` (`diag.dfy`): `3dt.go`. `RunDiag` is a method with the source's
  loop; the collection call is its input `fetched`, and what it prints is
  its output `lines`. `ReportLines` specifies the loop; `Unhealthy` is an
  independent reference (the unhealthy units, in order) that the lemmas
  connect to it.
- `ApiConfig` (`config.dfy`): `api/config.go`. The process environment is
  a map (an unset variable reads as ""), and the flag library's parser is a
  function parameter that receives the registered flags and `args[1:]` and
  returns the flags it stored, in command-line order, and the error it
  stopped at, if any. Go's flag package stores each flag as it parses it
  and stops at the first non-flag argument, at `--` or at the first error,
  so later occurrences are never stored. When a value fails to parse,
  `applied` ends with the failing flag's own store (false, 0, or the
  clamped value on a range error); the other parse errors (undefined flag,
  missing value, `-help`) store nothing for it. The default-preservation
  properties are stated for the flags the parser did not store.
- `Text` (`text.dfy`): that a string `pre + a + sep + b` determines `a` and
  `b` when neither `pre` nor `a` contains the separator's first character;
  used to show
  that the banner and the report line can be read back.
- `Wrappers` (`wrappers.dfy`): `Option` and `Result`.

`3dt.go:37` calls `LoadDefaultConfig(os.Args)` with one argument while
`api/config.go:36` declares two parameters (`args`, `version`); the model
follows the declaration in `api/config.go`.

## Model

| member | source | states |
|---|---|---|
| Diag.GetVersion | 3dt.go:12-14 | the banner starts with "Version: ", the version and ", Revision: ", and ends with the revision; its length is exactly those parts |
| Diag.GetVersionInjective | 3dt.go:12-14 | two equal banners have the same version and revision when the versions contain no comma: the banner can be read back |
| Diag.ReportLine | 3dt.go:25 | a unit's line starts with "[" + id + "]: ", ends with a newline, and its length is the id, title and output plus six formatting characters |
| Diag.ReportLineNamesUnit | 3dt.go:25 | two equal report lines name the same unit id (ids without "]"), so a line identifies its unit |
| Diag.ReportLines | 3dt.go:23-28 | the lines printed by the loop never outnumber the units |
| Diag.Unhealthy | 3dt.go:23-27 | the reference filter: every selected unit is unhealthy and listed, every unhealthy unit is selected, and nothing is selected exactly when all units are healthy |
| Diag.ReportLinesAreUnhealthyUnits | 3dt.go:23-27 | the printed lines are exactly one line per unit with non-zero health, in the units' order, and nothing for healthy units |
| Diag.NoLinesIffAllHealthy | 3dt.go:23-29 | nothing is printed exactly when every unit has health 0 |
| Structures.IsHealthy | 3dt.go:24 | no contract of its own: a unit is healthy exactly when its health code is 0, so any other code, not only 1, is unhealthy; Diag.Unhealthy and Diag.RunDiag state what follows from it |
| Diag.RunDiag | 3dt.go:16-30 | the exit code is 0 or 1; a collection error gives 1 and no lines; otherwise the lines are the report lines of the unhealthy units in order; the code is 0 exactly when collection succeeded and every unit has health 0 (any non-zero code, not only 1, gives 1) |
| ApiConfig.Write | api/config.go:27-34 | storing a parsed flag through its registered field pointer sets that flag's field and changes no other field |
| ApiConfig.Define | api/config.go:28-33 | one `BoolVar`/`IntVar` registration binds flag `n` to its field with that field's current value as the default |
| ApiConfig.SetFlags | api/config.go:27-34 | six flags are registered, each with its field's current value as default |
| ApiConfig.SetFlagsRegistersEachFlagOnce | api/config.go:27-34 | every flag field is registered, no field twice and no command-line name twice |
| ApiConfig.CommandLineNamesDistinct | api/config.go:28-33 | the six command-line names are pairwise different |
| ApiConfig.ApplyFlags | api/config.go:63-66 | the parser's stores through the registered field pointers, in order: with nothing stored the config is unchanged, and the non-flag fields never change |
| ApiConfig.ApplyFlagsEffect | api/config.go:62-66 | each flag field holds its last store by the parser (the parser stops at the first non-flag argument, `--` or error, so later occurrences are not stored), or its previous value; no other field changes |
| ApiConfig.ZeroConfig | api/config.go:36-38 | the zero-valued named result returned for empty args: empty strings, nil service-manager client, no units, switches off, numbers 0 |
| ApiConfig.Defaults | api/config.go:41-60 | the pre-parse fill: port 1050, pull interval 60, switches off, the version argument, the discovery command from MESOS_IP_DISCOVERY_COMMAND when non-empty else "/opt/mesosphere/bin/detect_ip" (never empty), DCOS_VERSION verbatim, the service-manager client set, the three bootstrap units in order |
| ApiConfig.LoadDefaultConfig | api/config.go:36-70 | empty args give the zero config and "arguments cannot be empty"; otherwise the error is the parser's, the non-flag fields are the defaults, and each flag field is its last store by the parser or its default |
| ApiConfig.LoadWithoutFlags | api/config.go:41-45 | with no flag on the command line the port is 1050, the pull interval 60 and every switch is off |
| ApiConfig.LoadFixedFields | api/config.go:46-60 | the version is the argument; the discovery command is the environment value when set and non-empty, else "/opt/mesosphere/bin/detect_ip", and never empty; the orchestrator version is DCOS_VERSION verbatim; the service-manager client is set; the units are the three bootstrap units in order |
| ApiConfig.LoadUnpassedFlagKeepsDefault | api/config.go:27-34 | a flag the user does not pass ends up holding the default SetFlags registered for it, with or without a parse error |
| ApiConfig.LoadIgnoresProgramName | api/config.go:66 | two argument lists that differ only in args[0] give the same config and error |
| ApiConfig.LoadParseErrorKeepsDefaults | api/config.go:66-68 | a parse error is returned with a config whose non-flag fields are the defaults and whose unparsed flags keep their defaults |

## Left out

- `main` (`3dt.go:32-79`): process wiring, `os.Exit`, logging, the pulling and report goroutines and the HTTP server; its order of checks (version banner before the diagnostic) is not modelled.
- `api.GetUnitsProperties` is not part of this model: `RunDiag` takes its outcome as the input `fetched`; the unit inspection, host metrics (`SysMetrics`) and the service-manager connection behind it are left out.
- The flag package's parsing (`flag.FlagSet.Parse`, value syntax, `-help`, the usage text it prints on error, the panic on a redefined flag name) is an opaque parser parameter; the model only fixes what the parser is given and how the flags it stored land in the config.
- `api.Version` and `api.Revision` are package variables defined outside the modelled files; `GetVersion` takes them as parameters.
- `os.Getenv` is a map lookup; an unset variable and one set to "" both read as "".
- Logging (`log.Error`, `log.Warning`, `log.Warningf`) is left out: it only writes to the log.
- `Config.Systemd` is a marker telling the nil interface from `&SystemdType{}`; the service-manager client itself is not modelled.
- `FlagPort` and `FlagPullInterval` are unbounded integers: Go's `int` range (the platform's int width) is enforced by the flag parser, which is opaque here.
- The mutexes in `api/structures.go` and the cluster aggregation types there (`MonitoringResponse`, `Unit`, `Node` and the HTTP response records) have no behaviour in the modelled code and are left out.
