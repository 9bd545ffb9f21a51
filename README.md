# edgeprobe outage detection, modelled in Dafny

edgeprobe is a network probe daemon. It pings a set of targets and
resolves DNS queries. Each ping outcome goes to a per-target outage
detector. The detector keeps a sliding window of samples and computes
loss %, p95 RTT and mean RTT over it. It opens an outage episode when a
window is degraded and closes it after a full window of clean samples,
emitting start, end and summary events. For every opened episode the
daemon runs a rate-limited `traceroute`, fingerprints the path, and logs
a path change when the fingerprint moves. Every log record carries a
stamped, validated envelope. A configuration validator reports every
problem at once.

The project models these parts:

| file | models |
|---|---|
| `detector.dfy` | `internal/metrics/detector.go`: the `Detector` class, window pruning, statistics, degradation test, episode ids and the per-ping transition |
| `traceroute.dfy` | `internal/traceroute/traceroute.go`: the output scanner, the hop-line pattern, `parseHop`, the `TTL:IP|` fingerprint input, and `Run`'s result assembly |
| `logging.dfy` | `internal/logging/records.go` and `internal/logging/logger.go`: the record envelope, `validateBase`, stamping, and `Logger.Emit` over an abstract writer |
| `config.dfy` | `internal/config/config.go`: `Config.validate` |
| `edgeprobe.dfy` | `cmd/edgeprobe/main.go`: the aggregator step, the event-to-record mapping, `toLogHops`, the trace timeout, and the traceroute worker (cooldown and path change) |
| `checks.dfy` | an ordered list of named checks, shared by both validators |
| `text.dfy` | the Go library string helpers the core calls (`strings.TrimSpace`, `strings.Fields`, `strings.Join`, `%d`/`%06d`) |
| `options.dfy` | an `Option` type |

It uses these representations:

- Times are integer nanoseconds since the Unix epoch.
- Ping RTTs are integer milliseconds, which is what the ping producer emits.
- Loss % and mean RTT are exact reals.
- The p95 index is written `(n-1)*95/100`. This is assumed to equal Go's float truncation `int(float64(n-1)*0.95)`.
- The SHA-256 digest of the fingerprint input is a function parameter `digest`.
- The log writer is the sequence `written` of records it has accepted.
- Each goroutine step (aggregator item, event of `run`'s loop, trace request) is one atomic method call, with the clock reading passed in.
- `Detector.ProcessPing` does its work on the detector's map and counter, in `PingAll`. A new episode's id is formatted from the counter's next value, and the counter is then advanced. `nextOutageID` advances first and then formats, which gives the same id and the same counter.

A fresh target's first failing sample already gives 100% loss, which
meets the 5% threshold, so it opens the episode with reason `loss_pct`
before any run of three failures. `Detector.FirstFailureOpensOnLoss`
states the exact events.

## Model

| member | source | states |
|---|---|---|
| Detector.StateFor | internal/metrics/detector.go:266-274 | the stored state for a known target; for an unseen one the zero state (empty window, no failures, no episode, no pings sent); the result keeps the state invariant whenever every stored state does |
| Detector.PruneDropsLeadingRun | internal/metrics/detector.go:336-350 | the pruned window is a suffix of the input; every dropped sample is older than the cutoff; the first kept sample is at or after it; the newest sample survives if it is not older than the cutoff |
| Detector.PruneKeepsNewest | internal/metrics/detector.go:112-113 | appending a sample and pruning at its own time minus a non-negative window never drops that sample |
| Detector.PruneWindow | internal/metrics/detector.go:336-350 | the index loop returns exactly the leading-run drop `Prune` |
| Detector.InsertSorted | internal/metrics/detector.go:309 | inserting into an ascending sequence keeps it ascending and adds exactly the new value |
| Detector.SortSorted | internal/metrics/detector.go:309 | ascending order, and a permutation of the input |
| Detector.P95Index | internal/metrics/detector.go:310 | the nearest-rank index is inside the sorted RTTs |
| Detector.StatsLoss | internal/metrics/detector.go:287-305 | an empty window gives all-zero stats; otherwise the loss figure is `LossOf(recv, sent)` of the window's counts; it always lies in [0,100] |
| Detector.StatsRtt | internal/metrics/detector.go:306-313 | with no success p95 and mean are 0; otherwise p95 is the sorted RTT at the p95 index, is an observed RTT, and p95 and mean lie between the minimum and maximum RTT |
| Detector.LossBounds | internal/metrics/detector.go:305 | the loss formula `(1 − recv/sent)·100` lies in [0,100], equals `100·(sent−recv)/sent`, and meets the 5% threshold exactly when `100·(sent−recv) ≥ 5·sent` |
| Detector.ComputeStats | internal/metrics/detector.go:287-316 | the accumulation loop computes `Stats` of the window |
| Detector.Reasons | internal/metrics/detector.go:318-334 | each reason is present exactly when its threshold is met, reasons keep the fixed order, and there are none exactly when the window is not degraded |
| Detector.EvaluateOutage | internal/metrics/detector.go:318-334 | outage is true exactly when degraded; the reason is the comma-join of the reasons, "" exactly when not degraded |
| Detector.OutageId | internal/metrics/detector.go:276-279 | an id is never empty |
| Detector.OutageIdsDistinct | internal/metrics/detector.go:276-279 | ids built from different counter values differ, whatever the targets and timestamps |
| Detector.FirstOutageIdFormat | internal/metrics/detector_test.go:10-26 | the first id for target `target` at 123456789 ns is `target`, `-`, the timestamp `123456789`, `-` and the counter `000001` |
| Detector.MillisOf | internal/metrics/detector.go:202 | `Duration.Milliseconds`: truncation toward zero, for negative durations too |
| Detector.PingStepWindow | internal/metrics/detector.go:111-119 | the window is the pruned append; the failure run resets on success and otherwise grows by one; events are `[]`, `[OutageStart]` or `[OutageEnd, OutageSummary]` with one id, reason `cleared`, all for the pinged target |
| Detector.TransitionShape | internal/metrics/detector.go:124-224 | the episode step keeps the window and failure run and returns one of the three event shapes |
| Detector.TransitionOpening | internal/metrics/detector.go:126-159 | an episode opens exactly when not in outage and degraded, with the given id, start time, counters seeded to one ping and the maxima set to the current stats |
| Detector.TransitionQuiet | internal/metrics/detector.go:126-161 | not in outage and not degraded: nothing changes and nothing is emitted |
| Detector.TransitionInOutage | internal/metrics/detector.go:161-180 | in outage, `pingSent` grows by one, `pingRecv` only on success, the maxima never decrease, and the DNS and trace counts are untouched |
| Detector.TransitionHysteresis | internal/metrics/detector.go:181-182 | a degraded sample in outage keeps the episode open and clears `clearSince` |
| Detector.TransitionClose | internal/metrics/detector.go:183-220 | a clean sample in outage closes the episode exactly when a full window has passed since the first clean sample; the summary carries the start, end, duration in ms and the running figures |
| Detector.PingStepIsTransition | internal/metrics/detector.go:107-224 | the whole ping step is window advance then episode transition, and keeps the state invariant |
| Detector.PingStepKeepsInvariant | internal/metrics/detector.go:107-224 | `pingRecv ≤ pingSent`, an open episode has an id, a closed one has none and no `clearSince` |
| Detector.TransitionKeepsInvariant | internal/metrics/detector.go:124-224 | the state invariant survives the episode transition |
| Detector.AdvanceWindow | internal/metrics/detector.go:111-119 | append, prune and failure-run update, as `Advance` |
| Detector.OpenEpisode | internal/metrics/detector.go:126-159 | the opening branch's new state and its single `OutageStart` |
| Detector.CountSample | internal/metrics/detector.go:161-180 | the in-outage counting and running maxima, as `Accumulate` |
| Detector.ContinueEpisode | internal/metrics/detector.go:161-221 | the in-outage branch's new state and events, as `Continue`, the in-outage branch of `Transition` |
| Detector.EpisodeStep | internal/metrics/detector.go:124-224 | the open, continue or leave-alone choice computes `Transition`; the new id is used only when an episode opens |
| Detector.PingUpdate | internal/metrics/detector.go:107-224 | one target's ping computes `PingStep`, with the id formatted from the counter's next value, and keeps the state invariant |
| Detector.PingAll | internal/metrics/detector.go:107-224 | on the detector's map and counter: only the pinged target's entry changes, to the step's state; the events are the step's; the counter grows by one exactly when an episode opens; every stored state keeps the invariant |
| Detector.Detector.constructor | internal/metrics/detector.go:100-105 | a detector has no targets and a zero counter |
| Detector.Detector.NextOutageID | internal/metrics/detector.go:276-279 | the counter grows by one and the id is formatted from the new value |
| Detector.Detector.ProcessPing | internal/metrics/detector.go:107-224 | only the pinged target's state changes, to the ping step's result; the events are the step's; the counter moves only when an episode opens |
| Detector.Detector.ProcessDNS | internal/metrics/detector.go:226-239 | a failure adds one DNS error to every target in outage and changes nothing else; a success changes nothing |
| Detector.Detector.RecordTraceroute | internal/metrics/detector.go:241-252 | the trace count grows only for an open episode of that target with the matching id |
| Detector.Detector.ActiveOutageID | internal/metrics/detector.go:254-264 | non-empty exactly when the target is in outage, and then its episode id |
| Detector.FirstFailureStep | internal/metrics/detector.go:115-159 | on a fresh target state with a 10 s window, a failing ping opens an episode on `loss_pct` with 100% loss, whatever the target, time and id |
| Detector.FirstFailureOpensOnLoss | internal/metrics/detector.go:115-159 | a fresh detector's first failing ping, for any target and time, opens an episode on `loss_pct` with 100% loss and the first id |
| Traceroute.Lines | internal/traceroute/traceroute.go:56-59 | the scanner's lines contain no newline; no lines exactly for empty output |
| Traceroute.MatchHopLine | internal/traceroute/traceroute.go:33 | a match's TTL capture is a non-empty digit run |
| Traceroute.MatchHopLineSound | internal/traceroute/traceroute.go:33 | a match splits the line into `\s*`, digits, `\s+` and a non-empty rest without newline |
| Traceroute.MatchHopLineComplete | internal/traceroute/traceroute.go:33 | every line of that shape matches with that TTL capture |
| Traceroute.FirstMsFrom | internal/traceroute/traceroute.go:92-98 | finds the first `ms` field from index 1, or reports there is none |
| Traceroute.HopFieldsCases | internal/traceroute/traceroute.go:80-101 | `("", 0)` for a rest with `*` or fewer than two fields; otherwise the first field as address and the number before the first `ms`, or 0 |
| Traceroute.ParseHop | internal/traceroute/traceroute.go:80-101 | the field loop computes `HopFields` |
| Traceroute.HopsOfAppend | internal/traceroute/traceroute.go:55-78 | hops are collected line by line, in line order |
| Traceroute.LineHopCases | internal/traceroute/traceroute.go:59-74 | blank and `traceroute`-prefixed lines give no hop; every matching line gives one hop with its digit-run TTL |
| Traceroute.ParseOutput | internal/traceroute/traceroute.go:55-78 | the scanner loop computes `ParseOutputSpec` |
| Traceroute.HashPath | internal/traceroute/traceroute.go:103-111 | the hash is the digest of the `TTL:IP|` concatenation |
| Traceroute.PreimageAppend | internal/traceroute/traceroute.go:104-107 | the fingerprint input of two runs of hops is the concatenation of theirs |
| Traceroute.PreimageIgnoresRtt | internal/traceroute/traceroute.go:106 | equal TTL and address sequences have equal inputs, whatever the RTTs |
| Traceroute.PreimageSeparatesIp | internal/traceroute/traceroute.go:106 | changing one hop's address changes the input |
| Traceroute.RunResultCases | internal/traceroute/traceroute.go:39-52 | an error with no output sets only the error; an error with output keeps the hops and hash of a clean run; a success has no error and hashes its hops |
| Logging.BaseChecks | internal/logging/logger.go:118-148 | the nine envelope checks with their messages, in order |
| Logging.ValidateBaseFirstFailure | internal/logging/logger.go:118-148 | `validateBase` reports the first failing check, and nil exactly when all pass |
| Logging.ValidateBase | internal/logging/logger.go:118-148 | nil exactly for a valid envelope (every field set, schema 2, clock source `system`); every error it returns carries a message |
| Logging.Default | internal/logging/logger.go:86-94 | a non-empty value is kept, an empty one takes the default |
| Logging.StampFields | internal/logging/logger.go:80-94 | stamping sets the clock, the sequence number, schema 2 and clock `system`, keeps the identifiers, and fills the tool and host fields only when empty |
| Logging.StampedValidIff | internal/logging/logger.go:80-98 | a stamped envelope is accepted exactly when the clock is set, the identifiers are non-empty and each identity field is non-empty in the record or the logger |
| Logging.AcceptKeepsValid | internal/logging/logger.go:83 | accepting a valid record with the next sequence number keeps the written records valid and strictly increasing |
| Logging.StampBase | internal/logging/logger.go:80-94 | the field assignments compute `Stamp` |
| Logging.Logger.constructor | internal/logging/logger.go:34-53 | a new logger has a writer, a zero counter, no records and the configured identity |
| Logging.Emit | internal/logging/logger.go:67-112 | the three nil cases return their errors and change nothing; otherwise the counter advances before validation, a failed check or write leaves the records unchanged, and success appends exactly the stamped record |
| Config.FieldChecks | internal/config/config.go:71-112 | the fourteen field checks in source order |
| Config.TargetChecks | internal/config/config.go:113-120 | two checks per target, in list order |
| Config.TargetChecksAt | internal/config/config.go:113-120 | target `i`'s name and host checks sit at positions `2i` and `2i+1` |
| Config.TargetChecksPass | internal/config/config.go:113-120 | the target checks all pass exactly when no name or host is blank |
| Config.FieldChecksPass | internal/config/config.go:71-112 | the field checks all pass exactly when every field passes |
| Config.ValidateNoneIff | internal/config/config.go:122-126 | `validate` returns nil exactly for a well-formed configuration, and its message is never empty |
| Config.FieldFailuresAreFieldProblems | internal/config/config.go:71-112 | field checks report only field problems |
| Config.TargetFailuresAreTargetProblems | internal/config/config.go:113-120 | target checks report only name and host problems of listed indexes |
| Config.FieldProblemIff | internal/config/config.go:71-112 | each field's message is reported exactly when its check fails |
| Config.TargetProblemIff | internal/config/config.go:113-120 | `targets[i].name` and `targets[i].host` are reported exactly when blank |
| Config.TargetMessagesDistinct | internal/config/config.go:115-118 | distinct target problems have distinct messages |
| Config.IndexedDistinct | internal/config/config.go:115-118 | `targets[<i>]<x>` determines `i` and `x` |
| Config.FieldProblemsUpToFailing | internal/config/config.go:69-112 | checking field by field reports the failing field checks in order |
| Config.IsBlank | internal/config/config.go:71 | `TrimSpace(s) == ""` exactly for all-whitespace strings |
| Config.CheckLogging | internal/config/config.go:71-79 | the logging checks extend the problems of the fields before them |
| Config.CheckPing | internal/config/config.go:80-88 | the ping checks extend the problems of the fields before them |
| Config.CheckDns | internal/config/config.go:89-100 | the DNS checks extend the problems of the fields before them |
| Config.CheckTraceroute | internal/config/config.go:101-112 | the traceroute and targets checks extend the problems of the fields before them |
| Config.CheckFields | internal/config/config.go:69-112 | the straight-line checks report exactly the failing field checks, in order |
| Config.TargetStep | internal/config/config.go:113-120 | one target adds its blank name, then its blank host |
| Config.Validate | internal/config/config.go:68-127 | the result is nil when nothing fails, and otherwise the `"; "`-join of every failing message, fields first, then targets in order |
| Edgeprobe.LogHops | cmd/edgeprobe/main.go:249-260 | one logged hop per hop |
| Edgeprobe.LogHopsAt | cmd/edgeprobe/main.go:249-260 | the logged hop at `i` is the conversion of hop `i` |
| Edgeprobe.LogHopsFaithful | cmd/edgeprobe/main.go:249-260 | length, order, TTL and address are kept; the RTT is null exactly when the address is empty, and otherwise the hop's RTT |
| Edgeprobe.LogHopsAppend | cmd/edgeprobe/main.go:251-258 | converting two runs of hops is converting each |
| Edgeprobe.ToLogHops | cmd/edgeprobe/main.go:249-260 | the append loop computes `LogHops` |
| Edgeprobe.TraceTimeoutNanos | cmd/edgeprobe/main.go:188 | the run's deadline, hop count times per-hop timeout plus two seconds, is at least two seconds for non-negative settings |
| Edgeprobe.ConfiguredTraceTimeout | cmd/edgeprobe/main.go:183-188 | for a configuration `validate` accepts, the trace deadline holds at least one whole per-hop timeout plus two seconds, so it exceeds two seconds, and the cooldown is positive |
| Edgeprobe.Aggregate | cmd/edgeprobe/main.go:166-176 | a ping updates the detector as `ProcessPing` does and forwards its events in order; a DNS result updates it as `ProcessDNS` does and forwards nothing |
| Edgeprobe.Forward | cmd/edgeprobe/main.go:169-171 | the events are appended to the channel in order |
| Edgeprobe.EventRecord | cmd/edgeprobe/main.go:76-108 | the record's envelope has the event kind's type and the event's target and episode id |
| Edgeprobe.EventRecordAccepted | cmd/edgeprobe/main.go:78-105 | an event's record with a non-empty target and id is accepted once stamped with a clock reading and an identity |
| Edgeprobe.HandleEvent | cmd/edgeprobe/main.go:76-108 | the event's record goes through `Emit`: the writer flag stays as it was, the counter advances exactly when a writer is set, a failed check or write leaves the records unchanged, and success appends the stamped record; a trace is requested, for the same target and id, exactly when an `OutageStart` was logged without error |
| Edgeprobe.TraceRecords | cmd/edgeprobe/main.go:209-237 | one `traceroute_result` first, with the hops, hash and error; a `path_change` exactly when the trace is clean and a stored, different hash exists, carrying the old and new hashes and hops; never for a target with nothing stored |
| Edgeprobe.CoolingDown | cmd/edgeprobe/main.go:200 | a target with no recorded trace (Go's zero time) is never cooling down, and with a non-positive cooldown no request after the last trace is dropped |
| Edgeprobe.CooldownAfterTrace | cmd/edgeprobe/main.go:200-203 | after a trace at `now`, the target's next request is dropped exactly when it comes less than a cooldown later |
| Edgeprobe.SamePathNoChange | cmd/edgeprobe/main.go:223-240 | a clean trace that repeats the stored hash reports no change |
| Edgeprobe.ChangeStartsFromLastClean | cmd/edgeprobe/main.go:223-240 | a reported change starts from the last clean trace's hash and hops, even across an errored trace |
| Edgeprobe.TraceCorrelator.constructor | cmd/edgeprobe/main.go:187-193 | the worker starts with empty maps and the cooldown in nanoseconds |
| Edgeprobe.TraceOutcome | cmd/edgeprobe/main.go:209-240 | the honoured request's records are `TraceRecords`; the stored hash and hops change only on a clean trace, and a stored hash stays non-empty with its hops beside it |
| Edgeprobe.TraceCorrelator.Handle | cmd/edgeprobe/main.go:199-241 | a request in cooldown changes nothing and emits nothing; otherwise the trace time is set to `now`, the detector counts the trace, the records are `TraceRecords`, and the stored hash and hops change only on a clean trace |
| Edgeprobe.PathsHaveDistinctPreimages | internal/traceroute/traceroute.go:103-107 | two paths that differ in their second hop's address have different fingerprint inputs |
| Edgeprobe.CooldownScenario | cmd/edgeprobe/main.go:199-241 | with a 60 s cooldown, traces at 0 s and 90 s are honoured and the one at 30 s is dropped; the 90 s trace reports the change from the first path to the second |

## Left out

- Concurrency is not modelled: goroutines, channels, `select`, context cancellation, signals, the detector mutex and the logger's atomic counter. Each component is a single-threaded object whose methods are atomic steps.
- The wall clock is not modelled. `time.Now` and `time.Since` are replaced by explicit clock parameters, and the RFC 3339 text of `ts_utc` is a parameter.
- The ping and DNS probes are I/O producers and are not modelled. Their result types are mirrored as datatypes.
- The `traceroute` command is not run. `Traceroute.RunResult` takes its output and error as inputs, and the worker's `Handle` takes the result of `traceroute.Run` as a parameter. The run's deadline is computed by `TraceTimeoutNanos` but not enforced.
- SHA-256 and hex encoding are foreign code. The digest is an arbitrary function of the fingerprint input.
- These parts are not modelled: JSON marshalling and its error, the lumberjack rotating file, `os.MkdirAll`, `os.Hostname`, `Logger.Close` and `Logger.Write`. Partial writes are not modelled either; the writer either accepts a whole record or returns an error.
- `Config.Load` is not modelled: TOML decoding and the file check. `validate` receives a decoded configuration.
- The top-level `run` loop is not modelled beyond handling one event. Its select and its returns on signals and worker errors are out.
- Floating point is not modelled. RTTs are integer milliseconds; loss % and mean RTT are exact reals. Go's `float64` rounding is absent, and so is its p95 index truncation, which is taken to be `(n-1)*95/100`.
- Go's Unicode whitespace is not modelled. `TrimSpace` and `Fields` use ASCII whitespace, and the regular expression `\s` is `[\t\n\f\r ]`.
- Traceroute.ParseHop: `strconv.ParseFloat` is modelled only for unsigned decimals (`12`, `1.5`, `.5`). Go also reads signed and exponent forms such as `-1.5` or `1e3`, but the model gives 0 for them, the value the source keeps only when parsing really fails.
- Traceroute.ParseOutput: `strconv.Atoi` overflow is not modelled. `bufio.Scanner`'s 64 KiB token limit is not modelled either.
- Logging.Emit: the `uint64` sequence counter is unbounded, so its wrap-around is not modelled.
- Go's `int64` values are unbounded `int`/`nat` in the model: nanosecond timestamps, `time.Duration` arithmetic such as `ts.Sub` (which saturates in Go), the summary's `DurationMs`, and the detector's id counter. Their limits are not modelled.
- Config.Validate: the messages are collected as problem values and rendered by `Config.Message` when joined. The source appends the rendered strings as it goes, which gives the same text.
- Edgeprobe.TraceCorrelator.Handle: the emitted records are returned rather than passed to `Emit`. The source ignores `Emit`'s result there, so stamping them is `Logging.Emit`'s contract.
- Edgeprobe.CooldownScenario: the two fingerprints are parameters, required to be distinct and non-empty. An arbitrary digest does not guarantee that distinct inputs give distinct hashes.
