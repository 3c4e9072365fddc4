# nagios-check-graylog2 — a Dafny model of the decision core

`main.go` is a Nagios plugin for a Graylog cluster. It queries the Graylog REST API and checks the following, in a fixed order:
- whether every node of the roster is alive;
- whether the service is processing and is `running` and `alive`;
- five optional thresholds on the sampled metrics (index failures, uncommitted journal entries, process-buffer time, 15-minute input rate).

It ends by printing one Nagios status line, `LABEL - message|perfdata`, and exits with the status as its exit code.

This project models that decision core with the I/O stripped away:

- `Nagios` covers the four status codes, `quit`'s label switch and its line shape (`Emit`), and a reader that splits a status line back into status, message and perfdata. It also holds the generic "chain of early exits" (`FirstExit`, `Resolve`) that every stage of the plugin is built from.
- `PerfData` is the text of `perf` (the global `pdata`), `consoleOutput` and the two index summaries. Go's `fmt` number formatting is a parameter `show(verb, x)`. A reader splits perfdata back into its eight entries.
- `Url` is `parse`: the base URL from the parts `url.Parse` returns, with its three UNKNOWN exits.
- `Transport` is `query`'s classification of one HTTP exchange: connect error, read error, JSON error, then the status code.
- `Liveness` is the roster/liveness fold. It gives `critical_node` and `running_node` as functions of the roster entries and the `/cluster` replies, plus a list-based reference definition.
- `ServiceState` is the three `/system` checks.
- `Thresholds` is the threshold chain. `strconv.ParseFloat` is a parameter `parse(s)` that yields a number or nothing. The chain takes the sampled values and the already formatted message bodies (`Texts`). `TextsOf` builds those from the context.
- `Plugin` holds two versions of the whole run:
  - `Check` is the pure specification of everything after flag parsing.
  - `CheckRun` is a class holding the process globals `pdata`, `critical_node` and `running_node`. Its methods update them as `main` does: the node loop in place, then `quit`. `Run` is proved to produce the same report as `Check`.

Where the code and the intended behaviour differ, the model follows the code:
- With `-w` set, the warn branch parses `-c` too and tests only that second parse error. So `-w` with an empty or unparseable `-c` ends UNKNOWN. A bad `-w` on its own silently counts as 0 (`WarnLimit`, `BadWarnReadsAsZero`).
- The scheme test is a literal, case-sensitive prefix match on `HTTP` or `http`, and `Normalise` applies it to whatever scheme it is given. `url.Parse` lower-cases the scheme it returns, so in practice the `HTTP` half never matches: only the `http` prefix decides, and `-l Http://h:1` is accepted (`LowerCaseSchemeTest`).
- The uncommitted-journal breach is CRITICAL, although its message says "Warning Limit".
- An empty reply body is read without error and then fails to decode, so it ends UNKNOWN "Cannot parse JSON from Graylog API", not CRITICAL "No response received from Graylog API" (`Classify` on `Decoded(None)`).
- A reply whose body is not JSON ends UNKNOWN even when its HTTP status is not 200, because decoding is checked before the status code.
- `running_node` gets an "is alive" line for every roster node, dead ones included.

## Model

| member | source | states |
|---|---|---|
| Nagios.Label | main.go:17-22 | OK, WARNING, CRITICAL and UNKNOWN (0..3) each get their own label, each in both directions; any other status gets the empty label |
| Nagios.Emit | main.go:86-108 | the exit code is the status handed to `quit`, and the printed line starts with that status's label and " - " |
| Nagios.EmitShowsMessagePrefix | main.go:106 | whatever the message starts with appears right after `LABEL - ` on the printed line |
| Nagios.ReadEmitted | main.go:106-107 | every line `quit` prints for a Nagios status, with perfdata free of the bar separator, reads back as exactly that status, message and perfdata, even when the message itself contains a bar |
| Nagios.FirstHit | main.go:200-252 | the index of the first early exit in a chain: every earlier check passed and the one there fired |
| Nagios.FirstExit | main.go:200-252 | a chain of early exits ends with the first check that fires, and falls through iff none fires |
| Nagios.FirstHitSamePlaces | main.go:200-252 | two chains whose checks fire at the same places stop at the same place |
| Nagios.FirstExitAlike | main.go:200-252 | two chains whose checks fire alike (same places, same statuses) end with the same status |
| Nagios.ResolveAlike | main.go:200-253 | the same holds once each chain falls through to a default outcome of equal status |
| Nagios.ResolveStatus | main.go:200-253 | a chain of non-OK exits that falls through to an OK outcome ends with a Nagios status, and is OK iff no check fires |
| Nagios.Resolve | main.go:200-253 | a chain in which no check fires ends with the fall-through outcome; otherwise it ends with the outcome of the first check that fires |
| Nagios.FirstExitSkip | main.go:200-252 | checks that do not fire can be dropped from the front of a chain without changing its outcome |
| Url.Normalise | main.go:111-126 | the `url.Parse` error, then a host without `:` (reported even for a non-HTTP scheme), then a scheme not starting with `HTTP`/`http`, each end UNKNOWN with its own message; the base URL is produced iff none applies |
| Url.NormaliseRoundTrip | main.go:125 | the base URL is exactly scheme + "://" + host + path: splitting it again gives back the same three parts |
| Url.PortCheckedBeforeScheme | main.go:117-123 | a host without a port is reported even when the scheme is not HTTP |
| Url.SchemePrefixExamples | main.go:121-123 | on the scheme it is given, the test is a literal case-sensitive prefix match: `HTTPS` and `httpx` pass, `Http` is rejected |
| Url.LowerCaseSchemeTest | main.go:112-123 | for the lower-case scheme `url.Parse` returns, the `HTTP` prefix never matches, and a URL with a port is accepted iff its scheme starts with `http` |
| Transport.Classify | main.go:258-292 | a connect error and a read error end CRITICAL; an undecodable body ends UNKNOWN; a decoded reply goes on iff its code is 200; every exit is CRITICAL or UNKNOWN |
| Transport.DecodeErrorBeforeStatus | main.go:282-289 | a non-JSON reply ends UNKNOWN whatever its HTTP status code |
| Transport.StatusCodeInMessage | main.go:287-289 | a decoded non-200 reply ends CRITICAL, and the code can be read back from its message in decimal |
| Strings.DigitsRoundTrip | main.go:288 | the decimal text of a status code reads back as that code |
| Liveness.DeadReport | main.go:157-163 | `critical_node` stays empty iff every roster node is alive (the list form is in `DeadReportLists`) |
| Liveness.AliveReport | main.go:165 | `running_node` is empty iff the roster is empty |
| Liveness.DeadLines | main.go:161 | one "Node: h - not alive" entry per dead hostname, element by element |
| Liveness.AliveLines | main.go:165 | one "is alive" line per roster node, element by element, in roster order |
| Liveness.FoldStep | main.go:151-167 | one loop iteration: a dead node appends its "not alive" entry and one dead count, and every node appends its "is alive" line |
| Liveness.DeadReportLists | main.go:160-163 | `critical_node` is the "not alive" entry of each dead node, in roster order, concatenated with no separator |
| Liveness.AliveReportLists | main.go:165 | `running_node` has one "is alive" line per roster node, in roster order |
| Liveness.DeadHostsExactly | main.go:157-163 | a hostname is listed as dead iff some roster entry with that hostname is missing (or null) in its `/cluster` reply |
| Liveness.NoDeadIffAllAlive | main.go:160-171 | `critical_node` stays empty iff every roster node is alive |
| ServiceState.ProcessingCheck | main.go:174-176 | exits iff the service is not processing, and then CRITICAL |
| ServiceState.LifecycleCheck | main.go:177-179 | exits iff the lifecycle is not `running`, and then WARNING |
| ServiceState.LbStatusCheck | main.go:180-182 | exits iff the load-balancer status is not `alive`, and then WARNING |
| ServiceState.Gate | main.go:173-182 | passes iff the service is processing, `running` and `alive`; any exit is CRITICAL or WARNING (the order of the three is in `GateOrder`) |
| ServiceState.GateOrder | main.go:173-182 | the gate passes iff the service is processing, `running` and `alive`; otherwise only the first failing check is reported: not processing gives CRITICAL, then lifecycle gives WARNING "lifecycle: v", then lb_status gives WARNING "lb_status: v" |
| PerfData.Fields | main.go:62-63 | perfdata has eight entries, named time, total, sources, throughput, index_failures, uncommited, processbuffertime and inputbufferate_m15, in that order |
| PerfData.Perf | main.go:62-64 | `pdata` starts with the `time=` entry (its full layout is in `PerfRoundTrip` and `InitialPerf`) |
| PerfData.Console | main.go:65-68 | the console summary starts with "All nodes in the Cluster: N", then "Running nodes:" and `running_node` |
| PerfData.IndexSummary | main.go:212-213 | both index-failure messages start with their headline followed by "Service is running" |
| PerfData.RenderRoundTrip | main.go:63 | entries joined by single spaces read back as the same entries, in order |
| PerfData.PerfRoundTrip | main.go:62-64 | `pdata` contains no bar separator and reads back as exactly the eight named entries in their fixed order |
| PerfData.InitialPerf | main.go:77 | before sampling, `pdata` is the zero perfdata string, character for character |
| Thresholds.TextsOf | main.go:212-232 | the two index messages start with their headline and "Service is running"; the console part starts with the cluster size and `running_node` |
| Thresholds.WarnLimit | main.go:206 | a parsed `-w` is its value; one with a syntax error is 0, the value `ParseFloat` returns with that error |
| Thresholds.IndexWarnCheck | main.go:204-215 | unset `-w`: no exit; `-w` set with an unparseable `-c`: UNKNOWN "Cannot parse given index warning error value."; WARNING iff warn <= failures < crit; no exit iff `-w` is unset, or `-c` parses and the failures are outside [warn, crit) |
| Thresholds.IndexCritCheck | main.go:216-225 | unset `-c`: no exit; unparseable: UNKNOWN; CRITICAL iff failures >= crit; no exit iff `-c` is unset, or parses and failures < crit |
| Thresholds.UncommittedCheck | main.go:226-234 | unset: no exit; unparseable: UNKNOWN; no exit iff unset, or parseable with uncommitted <= limit; CRITICAL iff uncommitted > limit, with "Uncommited above Warning Limit!", "Service is running" and the console summary |
| Thresholds.ProcessBufferCheck | main.go:235-243 | unset: no exit; unparseable: UNKNOWN; no exit iff unset, or parseable with p95 <= limit; CRITICAL iff p95 > limit, with "Process Buffer Time critical!", "Service is running" and the console summary |
| Thresholds.InputBufferCheck | main.go:244-252 | unset: no exit; unparseable: UNKNOWN; no exit iff unset, or parseable with the m15 rate >= limit; CRITICAL iff the m15 rate is below the limit, with "Input Buffer rate below threshold!", "Service is running" and the console summary |
| Thresholds.Checks | main.go:200-252 | the chain is six checks, and none of them ever exits OK |
| Thresholds.Healthy | main.go:253 | the fall-through is OK, with a message starting "Service is running!" |
| Thresholds.Evaluate | main.go:200-253 | the threshold stage always ends with a Nagios status (which one is in `EvaluateStatus`, `WarningIff` and `LaterChecksInOrder`) |
| Thresholds.NoThresholdsIsCritical | main.go:200-202 | with all five options empty the result is CRITICAL "no thresholds set", whatever was sampled |
| Thresholds.EvaluateStatus | main.go:200-253 | the chain always ends with a Nagios status, and OK (with the "Service is running!" summary) iff no check fires |
| Thresholds.OkIffWithinLimits | main.go:200-253 | the run ends OK, with the "Service is running!" summary, iff some option is set and every option that is set parses and is not breached |
| Thresholds.WarningIff | main.go:204-215 | the result is WARNING iff `-w` is set, `-c` parses and warn <= failures < crit; it then carries the warning summary |
| Thresholds.WarnWithBadCritIsUnknown | main.go:206-210 | with `-w` set, an unparseable `-c` ends UNKNOWN before any comparison |
| Thresholds.WarnWithoutCritIsUnknown | main.go:206-210 | `-w` without `-c` ends UNKNOWN, because parsing the empty string fails |
| Thresholds.BadWarnReadsAsZero | main.go:206-211 | an unparseable `-w` acts as 0: WARNING iff 0 <= failures < crit |
| Thresholds.IndexBranchesExclusive | main.go:211-221 | the warning and critical index branches never both fire for one failure count |
| Thresholds.IndexCriticalWins | main.go:216-225 | failures >= crit ends CRITICAL with the critical summary, whether or not `-w` is set |
| Thresholds.LaterChecksInOrder | main.go:226-253 | once neither index branch fires, uncommitted, then process-buffer time, then input rate are consulted, and the first that fires decides; otherwise OK |
| Thresholds.UnsetUncommittedIgnored | main.go:226-234 | with `-uc` unset, the uncommitted count cannot change the severity |
| Thresholds.UnsetProcessBufferIgnored | main.go:235-243 | with `-pbtc` unset, the process-buffer time cannot change the severity |
| Thresholds.UnsetInputBufferIgnored | main.go:244-252 | with `-ibc` unset, the input rate cannot change the severity |
| Thresholds.UnsetIndexIgnored | main.go:204-225 | with `-w` and `-c` unset, the index-failure count cannot change the severity |
| Thresholds.SameStatusesSameOutcomeStatus | main.go:200-253 | two runs whose five threshold checks fire alike end with the same severity |
| Plugin.Decide | main.go:128-253 | the decision is a Nagios status, and the metrics were sampled iff the URL, the liveness fold and the gate all passed |
| Plugin.Check | main.go:128-253 | every run exits with a Nagios status code |
| Plugin.UrlDecides | main.go:142 | a URL that `parse` rejects ends the run UNKNOWN before any query, printing the zero perfdata |
| Plugin.DeadNodeDecides | main.go:169-171 | any dead node ends the run CRITICAL with `critical_node`, whatever the service state and thresholds, printing the zero perfdata |
| Plugin.GateDecides | main.go:173-182 | with every node alive, a failing service-state check ends the run before the thresholds are read |
| Plugin.ThresholdsDecide | main.go:194-253 | only when every earlier stage passes do the thresholds decide: the metrics are sampled, and the outcome is the threshold chain's, printed with the sampled perfdata and a console listing every node |
| Plugin.CheckLineReadable | main.go:106 | whichever stage decides, the printed line reads back as the exit code, the message and the eight perfdata entries (zeros or sampled) |
| Plugin.DeadNodeScenario | main.go:157-171 | a roster node missing from `/cluster` gives exit 2 and the message "Node: host-a - not alive" |
| Plugin.IndexCriticalScenario | main.go:216-225 | `-w 10 -c 100` with 500 index failures prints a CRITICAL line headed "Index Failure above Critical Limit!" |
| Plugin.NoThresholdsScenario | main.go:200-202 | with no threshold options the run prints CRITICAL "no thresholds set" with the sampled perfdata |
| Plugin.UncommittedScenario | main.go:226-234 | `-uc 1000` with 2000 uncommitted entries prints a CRITICAL line headed "Uncommited above Warning Limit!"; the message goes on with "Service is running" and the console summary "All nodes in the Cluster: N" |
| Plugin.HappyPathScenario | main.go:194-253 | all five limits set (`-w 10 -c 100 -uc 1000 -pbtc 5 -ibc 10`) with every metric inside them prints an OK line headed "Service is running!", whose perfdata reads back with the entry `uncommited=0;;;;;` |
| Plugin.CheckRun.constructor | main.go:71-83 | `init`: `pdata` is the zero perfdata and both node lists are empty |
| Plugin.CheckRun.SetPerf | main.go:62-64 | `perf` overwrites `pdata` with the perfdata of the sample |
| Plugin.CheckRun.CheckNodes | main.go:149-167 | the node loop appends exactly the dead-node report to `critical_node` and the alive report to `running_node`; its counters are the roster size and the number of dead nodes |
| Plugin.CheckRun.Quit | main.go:86-108 | `quit` prints the outcome with the current `pdata` |
| Plugin.CheckRun.Run | main.go:128-253 | the imperative run over the globals gives the same report as `Check`; afterwards `pdata` is the printed perfdata (sampled iff the thresholds decided), and once the URL passes, `critical_node` and `running_node` hold the dead and alive reports of the whole roster |

## Left out

- Flag parsing, `--version` output and the missing-credentials exit (main.go:129-140): process plumbing before the decision core.
- `os.Exit` and stdout: a run ends in a returned `Report` (exit code and line).
- The `NCG2` debug output: it prints errors and bodies but decides nothing.
- The HTTP transport, Basic authentication and body reading. `Classify` models only how `query` turns their results into an exit. `Check` takes the typed replies of queries that succeeded.
- JSON decoding into `map[string]interface{}` and the type assertions that panic on a wrong shape. The replies are typed projections (`SystemInfo`, `Sample`, `Probe`).
- `url.Parse` is not modelled: `Normalise` takes its result. Its own behaviour is left out; that it lower-cases the scheme enters only as the `LowerCaseScheme` hypothesis of `LowerCaseSchemeTest`. Its query, fragment and user-info parts are not inputs of `Normalise`, since `parse` builds the base URL from scheme, host and path alone (main.go:125).
- `strconv.ParseFloat` is a parameter. Range errors (±Inf), NaN and IEEE-754 rounding are not modelled, and the sampled metrics are `real`.
- `fmt` number and duration formatting is a parameter `show`. `CheckLineReadable` and `PerfRoundTrip` assume only that a formatted number holds no space, `;`, `=` or `|`.
- Timing (`time.Now`, `time.Since`): the elapsed time and its `%v` text are inputs.
- The global `cdata` is assigned by `consoleOutput` but never read, so it is not kept.
- The variable `uncommitWarn` (main.go:53) is declared but never bound to a flag or read, so it is not modelled.
