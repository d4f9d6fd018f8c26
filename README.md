# system-sentinel in Dafny

A model of the sampling-and-detection pipeline of system-sentinel. This Linux
daemon works in ticks. On each tick it reads CPU, memory and network counters
from `/proc`, builds a metrics snapshot and checks it against spike and alert
thresholds. It logs spikes, alerts and throttled samples as NDJSON lines, into
one file per day. When alerts pass a per-category debounce window, it runs
a round of operator shell scripts. Separately, a retention pass deletes log
files older than a configured number of days.

The modules follow the repository's packages:

| module | file | models |
|---|---|---|
| `Base` | base.dfy | `uint64` with explicit wrap-around, `time.Time` as nanoseconds since the Unix epoch (or the zero time), `Option`/`Result` |
| `Text` | text.dfy | `strings.Fields`, prefixes and suffixes, `strconv.ParseUint`/`FormatUint` in base 10, `filepath.Join` |
| `Clock` | clock.dfy | UTC day numbers, the proleptic Gregorian calendar, `Format`/`Parse` with layout `2006-01-02` |
| `Events` | events.dfy | category lists in cpu, memory, network order; the `"multi"` metric rule; the relative-rise test |
| `Config` | config.dfy | `Config`, `applyDefaults`, `validate`, the two intervals |
| `Metrics` | metrics.dfy | the snapshot, the three `/proc` readers as parsers over lines, the `Collector` object and its state |
| `SpikeDetector` | spikes.dfy | the spike detector |
| `AlertEngine` | alerts.dfy | the alert detector and the debouncer `Engine` with its `lastFired` map |
| `Logging` | logging.dfy | the daily-rotating `Logger`, over an in-memory `FileStore` |
| `Storage` | storage.dfy | the retention pass `Rotator.rotate`, over an in-memory `Directory` |
| `ScriptRunner` | scripts.dfy | the env map, the env file, script discovery and `Execute`'s run-in-order-and-stop |
| `Sentinel` | sentinel.dfy | one iteration of the daemon's loop, as a class over `lastSnapshot`, `lastWriteTime` and the engine |

The parts of the Go code that change state in place are classes here:
`Collector`, `Engine`, `Logger`, `Directory` and `Rotator`, `Runner` and
`Sentinel`. Each of their methods is proved equal to a pure step function
(`CpuStep`, `Debounce`, `RotateStep`/`LogStep`, `Survivors`, `RunAll`,
`TickStep`), and lemmas about those functions state what the code promises.
Clock readings, kernel files, directory listings and whether an open, write or
removal succeeds are all parameters.

## Model

| member | source | states |
|---|---|---|
| Base.Sub64 | internal/metrics/collector.go:111-122 | uint64 subtraction wraps modulo 2^64 and is the exact difference when it does not underflow |
| Base.Mul64 | internal/metrics/collector.go:156 | the uint64 product (KiB × 1024) is the product modulo 2^64, and the exact product below 2^64 |
| Text.TokenEnd | internal/metrics/collector.go:88 | the first token ends at the first white-space character and holds none |
| Text.Fields | internal/metrics/collector.go:88 | `strings.Fields`: every field is non-empty and has no white space |
| Text.FieldsSkipSpace | internal/metrics/collector.go:88 | leading white space does not change the fields |
| Text.FieldsOfSpread | internal/metrics/collector.go:88 | words laid out with any runs of white space around them (non-empty between two words) split back into exactly those words |
| Text.SpreadOfFields | internal/metrics/collector.go:88 | every line is its fields laid out with such white space, so `strings.Fields` keeps every non-space character in order and cuts only at white space |
| Text.FirstFieldPrefixContained | internal/metrics/collector.go:198-210 | a line whose first field starts with p contains p, so the `Contains` pre-test never rejects a line the prefix test accepts |
| Text.ParseUint | internal/metrics/collector.go:94-102 | a digit string parses to its value, saturated at 2^64-1; anything else, including the empty string, gives 0 (the ignored error) |
| Text.FormatUint | internal/scripts/runner.go:76-77 | decimal rendering is a non-empty digit string |
| Text.DecimalValueOfFormat | internal/scripts/runner.go:76-77 | the rendered digits denote the number |
| Text.ParseFormatRoundTrip | internal/scripts/runner.go:76-77 | parsing a rendered uint64 gives it back |
| Text.DecimalValueOfPad | internal/logging/logger.go:92 | zero-padded rendering keeps the value |
| Text.PadLength | internal/logging/logger.go:92 | zero-padding to a width reaches exactly that width when the number fits |
| Text.JoinPath | internal/logging/logger.go:102 | a joined path ends with the file name |
| Clock.DayBounds | internal/storage/rotator.go:61 | an instant lies between the midnight of its UTC day and the next midnight |
| Clock.CivilRoundTrip | internal/logging/logger.go:91-92 | converting a day number to a calendar date gives a valid date that converts back to the same day |
| Clock.ParseFormatDate | internal/storage/rotator.go:73 | a valid date in the years 0-9999, formatted as `2006-01-02`, has the date shape and parses back to its day |
| Clock.ParseDateOfDay | internal/storage/rotator.go:73 | the UTC date string of a day parses back to that day |
| Clock.ParseRejectsMissingDates | internal/storage/rotator.go:73-76 | `time.Parse` rejects month 13 and 29 February of a common year |
| Events.Tripped | internal/alerts/alert_engine.go:24-46 | the list holds each tripped category exactly once, in cpu, memory, network order, and is empty iff none tripped |
| Events.MetricFor | internal/logging/logger.go:46-60 | the sole reason when there is exactly one, otherwise `"multi"` (including the empty list) |
| Events.MetricIsMultiIff | internal/scripts/runner.go:65-68 | the metric is `"multi"` iff the list does not have exactly one element, and otherwise a category |
| Events.RelativeRiseIff | internal/spikes/spike_detector.go:47-52 | the Go test `(cur-prev)/prev*100 >= rel` under its guard `prev > 0 && rel > 0`, stated without division |
| Config.IntOrDefault | internal/config/config.go:103-129 | a positive value is kept, and a non-positive one becomes the positive default |
| Config.StringOrDefault | internal/config/config.go:109-123 | a non-empty value is kept, and the empty string becomes the non-empty default |
| Config.DefaultsIdempotent | internal/config/config.go:102-130 | applying a default twice is the same as applying it once |
| Config.Config.constructor | internal/config/config.go:11-77 | the record holds the decoded fields |
| Config.Config.ApplyDefaults | internal/config/config.go:102-130 | each field gets its stated default (1, 60, the log dir, 30, `eth0`, the scripts dir, the env file, 60, 30) only when unset; nothing else changes; afterwards `Validate` succeeds |
| Config.Config.Validate | internal/config/config.go:132-152 | succeeds iff both intervals, the retention, the debounce and the timeout are positive and the interface is non-empty; the first failing check picks the message |
| Config.Config.SampleInterval | internal/config/config.go:154-156 | the configured seconds, as nanoseconds |
| Config.Config.CollectionInterval | internal/config/config.go:158-160 | the configured seconds, as nanoseconds |
| Metrics.ParseCpuLine | internal/metrics/collector.go:88-103 | rejected iff there are fewer than 8 fields or the first is not `cpu`; otherwise user … softirq are the parsed fields 1-7 and steal is the parsed field 8, or 0 without a ninth field |
| Metrics.ParseCpuLineRoundTrip | internal/metrics/collector.go:88-103 | a `cpu` line with the eight counters in decimal parses back to those counters, whatever white space separates the words (such as the kernel's two spaces after `cpu`) and whatever further counters follow steal |
| Metrics.ParseCpuLineWithoutSteal | internal/metrics/collector.go:88-103 | a line that stops after softirq parses to its seven counters with steal 0 |
| Metrics.ReadCpu | internal/metrics/collector.go:75-103 | an unreadable file gives its open error, an empty one `empty /proc/stat`, a rejected first line `invalid cpu line`; it succeeds iff the first line parses, with that line's counters |
| Metrics.CpuUsage | internal/metrics/collector.go:111-132 | zero when the total did not move |
| Metrics.CpuUsageInRange | internal/metrics/collector.go:111-132 | with non-decreasing counters the usage is `(1 - Δidle/Δtotal) × 100` over the exact deltas, and lies in [0, 100] |
| Metrics.DeltasExact | internal/metrics/collector.go:111-122 | with non-decreasing counters the wrapped deltas are the exact ones |
| Metrics.KiBField | internal/metrics/collector.go:153-162 | a value is read iff the line has at least two fields, and it is the second field parsed, times 1024 in uint64 |
| Metrics.ReadMemory | internal/metrics/collector.go:140-178 | success carries a positive total and a positive available value; a readable file that fails reports `could not read MemTotal` |
| Metrics.ScanFindsTotal | internal/metrics/collector.go:146-168 | when exactly one line starts with `MemTotal:`, the scan's total is that line's KiB value |
| Metrics.ScanFindsAvailable | internal/metrics/collector.go:146-168 | when exactly one line starts with `MemAvailable:`, the scan's available value is that line's KiB value |
| Metrics.ReadMemoryValues | internal/metrics/collector.go:140-178 | with one `MemTotal:` line of value t and one `MemAvailable:` line of value a, the read fails iff t = 0, and otherwise gives total t and available a, or t when a = 0 |
| Metrics.ReadMemoryWithoutAvailable | internal/metrics/collector.go:140-178 | with one `MemTotal:` line of value t and no `MemAvailable:` line, the read fails iff t = 0, and otherwise gives total and available both t |
| Metrics.ScanMemKeepsTotal | internal/metrics/collector.go:150-157 | lines without the `MemTotal:` prefix leave the total as it was |
| Metrics.ScanMemKeepsAvailable | internal/metrics/collector.go:158-163 | lines without the `MemAvailable:` prefix leave the available value as it was |
| Metrics.MissingMemTotalFails | internal/metrics/collector.go:170-172 | without a MemTotal line the read fails |
| Metrics.MissingMemAvailableMeansNoneUsed | internal/metrics/collector.go:173-175 | without MemAvailable, available is the total, so no memory counts as used |
| Metrics.MemoryUsageInRange | internal/metrics/collector.go:59-61 | when available ≤ total, used = total - available ≤ total and the percentage is in [0, 100] |
| Metrics.InterfaceLineIff | internal/metrics/collector.go:196-210 | a line is selected iff it has at least 10 fields and its first field starts with `<iface>:` |
| Metrics.FindInterface | internal/metrics/collector.go:196-220 | no counters iff no line is selected |
| Metrics.FindInterfaceFirstMatch | internal/metrics/collector.go:196-216 | the counters come from the first selected line: rx is field 1 and tx is field 9 |
| Metrics.ElapsedSeconds | internal/metrics/collector.go:228-231 | the elapsed seconds are positive: the real difference, or 1 when the clock did not advance |
| Metrics.Rate | internal/metrics/collector.go:233-237 | the byte rate is non-negative, and is delta / elapsed when the counter did not go back |
| Metrics.Mbps | internal/metrics/collector.go:69-70 | megabits per second are bytes per second × 8 / 1 000 000 |
| Metrics.CpuStep | internal/metrics/collector.go:75-133 | fails iff the reading fails, leaving the state alone; the first reading gives 0 and stores the counters; later readings give the usage over the deltas and replace the counters |
| Metrics.NetworkStep | internal/metrics/collector.go:185-243 | fails iff no line is selected, leaving the state alone; rates are 0 on the first sample; later each rate is the wrapped counter delta over the elapsed seconds; success stores the counters and the time; rates are never negative |
| Metrics.NetworkRatesExact | internal/metrics/collector.go:224-237 | after a first sample, with counters that did not go back and a clock that advanced, rate × elapsed nanoseconds = byte delta × 10^9 |
| Metrics.CollectStep | internal/metrics/collector.go:42-73 | the snapshot carries the clock and the interface; each stage's error is tagged with that stage and its message, the first failing stage deciding; a CPU error changes no state, a memory error keeps the CPU update, a network error keeps `NetworkStep`'s state; it succeeds iff all three stages do, and then the snapshot holds the CPU usage, the memory total, used bytes and percentage, and the network rates, with Mbps = bytes/s × 8 / 10^6, and the state is the network stage's |
| Metrics.FirstCollectIsQuiet | internal/metrics/collector.go:105-109 | the very first collect reports 0% CPU and zero network rates |
| Metrics.SnapshotPercentagesInRange | internal/metrics/collector.go:42-73 | with non-decreasing counters and available ≤ total, both percentages of a successful snapshot are in [0, 100] |
| Metrics.Collector.constructor | internal/metrics/collector.go:36-40 | a new collector is uninitialized and holds the interface name |
| Metrics.Collector.Collect | internal/metrics/collector.go:42-73 | the snapshot, the error and the new state are `CollectStep` of the old state |
| Metrics.Collector.CollectCpu | internal/metrics/collector.go:75-133 | the result and the new state are `CpuStep` of the old state |
| Metrics.Collector.CollectMemory | internal/metrics/collector.go:140-178 | the scanning loop computes `ReadMemory` |
| Metrics.Collector.CollectNetwork | internal/metrics/collector.go:185-243 | the scanning loop and the state update are `NetworkStep` of the old state |
| SpikeDetector.DetectCpuSpike | internal/spikes/spike_detector.go:40-55 | fires iff the usage reaches the absolute threshold, or it rose by the relative threshold over a positive previous usage; reaching a threshold exactly counts |
| SpikeDetector.DetectMemorySpike | internal/spikes/spike_detector.go:57-72 | the same rule on the used-memory percentage |
| SpikeDetector.DetectNetworkSpike | internal/spikes/spike_detector.go:74-100 | fires iff rx or tx reaches its threshold, or either rose by the relative threshold, each guarded by its own positive previous rate |
| SpikeDetector.Detect | internal/spikes/spike_detector.go:16-38 | each category appears iff it is enabled and its rule fires, at most once and in cpu, memory, network order; with none enabled the list is empty |
| SpikeDetector.ZeroPreviousNeedsAbsolute | internal/spikes/spike_detector.go:40-72 | against a zero previous snapshot, only the absolute thresholds can fire |
| SpikeDetector.DetectMonotone | internal/spikes/spike_detector.go:16-100 | raising every current reading can only add categories |
| AlertEngine.DetectCpuAlert | internal/alerts/alert_engine.go:71-86 | fires iff the usage reaches the absolute threshold, or it rose by the relative threshold over a positive previous usage |
| AlertEngine.Detect | internal/alerts/alert_engine.go:24-46 | each category appears iff it is enabled and its rule fires (memory: current percentage ≥ threshold; network: rx or tx ≥ its threshold), once each, in category order; with none enabled the list is empty |
| AlertEngine.DetectIgnoresPreviousExceptCpu | internal/alerts/alert_engine.go:88-96 | the memory and network verdicts do not depend on the previous snapshot, and with CPU disabled no verdict does |
| AlertEngine.Debounce | internal/alerts/alert_engine.go:48-69 | the walk over the list never drops a stored category |
| AlertEngine.DebounceRunsClosed | internal/alerts/alert_engine.go:48-69 | the walk runs a round iff some listed category is admitted by the timestamps from before the round |
| AlertEngine.DebounceStampsClosed | internal/alerts/alert_engine.go:59-66 | the walk ends with every listed category that was admitted stamped with now and every other key unchanged |
| AlertEngine.DebounceRunsIff | internal/alerts/alert_engine.go:48-69 | a round runs iff some listed category is absent from `lastFired` or at least the window has passed since it last fired (the boundary counts) |
| AlertEngine.DebounceStampsOnlyAdmitted | internal/alerts/alert_engine.go:60-66 | every listed category is present afterwards; an admitted category holds now; a listed category still inside its window, and every unlisted key, keeps its timestamp; no other key appears |
| AlertEngine.DebounceKeepsPast | internal/alerts/alert_engine.go:61-65 | if no stored timestamp lies after now, none does afterwards, and every listed category has one |
| AlertEngine.DebounceEmpty | internal/alerts/alert_engine.go:49-51 | an empty list does not run a round and stores nothing |
| AlertEngine.Engine.constructor | internal/alerts/alert_engine.go:17-22 | a new engine has fired nothing |
| AlertEngine.Engine.ShouldExecuteScripts | internal/alerts/alert_engine.go:48-69 | the loop computes `Debounce` of the old map: its verdict and its new map; an empty list returns false and leaves the map alone |
| Logging.LogFileName | internal/logging/logger.go:102 | the path of a date ends with `metrics-<date>.ndjson` |
| Logging.LogBaseName | internal/logging/logger.go:102 | the file name is `metrics-`, the date, `.ndjson` |
| Logging.RotateSameDayIsNoOp | internal/logging/logger.go:94-96 | while today's file is held, rotation does nothing |
| Logging.RotateOpensToday | internal/logging/logger.go:98-110 | a rotation that opens a file holds today's file, writable, under `<logDir>/metrics-<today>.ndjson`; that file keeps its content and no other file changes |
| Logging.RotateFailureRetries | internal/logging/logger.go:103-106 | a failed open reports an error, keeps the old date and every file, leaves no writable handle, and the next successful open gets today's file |
| Logging.RotatePreservesValid | internal/logging/logger.go:90-111 | rotation keeps the held handle on the file of the held date, and removes no file |
| Logging.LogAppendsOne | internal/logging/logger.go:62-88 | a successful log call appends exactly its entry to today's file, stamped with the snapshot's time and not the clock's, and changes no other file |
| Logging.LogFailureWritesNothing | internal/logging/logger.go:66-85 | a failed log call adds nothing to any file |
| Logging.LogPreservesValid | internal/logging/logger.go:62-88 | log calls keep the logger's state valid |
| Logging.LogAfterCloseFails | internal/logging/logger.go:90-121 | after Close, the rest of the day's log calls fail without writing, because the closed handle still counts as today's file |
| Logging.FileStore.constructor | internal/logging/logger.go:103 | the store holds the given files |
| Logging.FileStore.OpenForAppend | internal/logging/logger.go:103 | opening with `O_CREATE|O_APPEND` creates a missing file and keeps an existing one's content |
| Logging.FileStore.Write | internal/logging/logger.go:83 | a write appends one line to the file |
| Logging.Logger.constructor | internal/logging/logger.go:29-40 | a new logger holds no file and no date |
| Logging.Logger.NewLogger | internal/logging/logger.go:29-40 | a failed mkdir gives `failed to create log dir` and no logger; otherwise the first rotation decides between a logger holding today's file and its error |
| Logging.Logger.RotateIfNeeded | internal/logging/logger.go:90-111 | the result, the new state and the files are `RotateStep` at the UTC date of the clock |
| Logging.Logger.Log | internal/logging/logger.go:62-88 | the result, the new state and the files are `LogStep` with the entry of the event |
| Logging.Logger.LogSample | internal/logging/logger.go:42-44 | logs type `sample`, metric `sample` and no reasons |
| Logging.Logger.LogSpike | internal/logging/logger.go:46-52 | logs type `spike` with metric `MetricFor` of the spike list |
| Logging.Logger.LogAlert | internal/logging/logger.go:54-60 | logs type `alert` with metric `MetricFor` of the alert list |
| Logging.Logger.Close | internal/logging/logger.go:113-121 | closes the held file, keeping it held; closing a closed file is an error; without a file it does nothing |
| Storage.PatternIsLogName | internal/storage/rotator.go:17 | the pattern accepts the logger's file name of a date iff the date has the `DDDD-DD-DD` shape, and captures that date |
| Storage.MatchingNameIsLogName | internal/storage/rotator.go:17 | every name the pattern accepts is the logger's file name of the captured date |
| Storage.SurvivorsMembership | internal/storage/rotator.go:63-82 | an entry survives a pass iff it was listed and was not deleted |
| Storage.SurvivorsSubsequence | internal/storage/rotator.go:63-82 | a pass leaves no more entries than listed, and leaves all of them iff none is due |
| Storage.SurvivorsInOrder | internal/storage/rotator.go:63-82 | a pass keeps listing order: the survivors are the listing's entries at increasing positions, and those positions are exactly the entries not deleted |
| Storage.SurvivorIsListed | internal/storage/rotator.go:63-82 | every survivor is an entry of the listing |
| Storage.SurvivorsIdempotent | internal/storage/rotator.go:61-78 | a second pass with the same clock and the same failing removals removes nothing more |
| Storage.UndatedEntriesKept | internal/storage/rotator.go:64-76 | directories, names outside the pattern and names with an invalid date are never removed |
| Storage.MonthThirteenSkipped | internal/storage/rotator.go:73-76 | `metrics-2024-13-01.ndjson` matches the pattern but is skipped |
| Storage.AgeRule | internal/storage/rotator.go:61-78 | a file dated d days before today is removed iff d > R, or d = R and now is not exactly midnight |
| Storage.AgedLogFile | internal/storage/rotator.go:61-81 | the logger's file of a day is deleted iff the age rule says so |
| Storage.ExpiredByAge | internal/storage/rotator.go:61-81 | the age rule for any entry dated by its name |
| Storage.TodaysLogFileKept | internal/storage/rotator.go:61-78 | with a retention of at least one day, today's log file survives |
| Storage.SurvivorsDistinct | internal/storage/rotator.go:63-82 | the surviving names stay distinct |
| Storage.Directory.constructor | internal/storage/rotator.go:56 | the directory holds the given entries |
| Storage.Directory.ReadDir | internal/storage/rotator.go:56-59 | the listing is the entries, or an error when the directory cannot be read |
| Storage.Directory.Remove | internal/storage/rotator.go:80 | a successful removal drops exactly the entry of the name |
| Storage.Rotator.constructor | internal/storage/rotator.go:19-26 | the rotator holds the directory and the retention |
| Storage.Rotator.Rotate | internal/storage/rotator.go:55-83 | a listing error removes nothing; otherwise the directory ends as the `Survivors` of the pass at the cutoff now - R days |
| ScriptRunner.NamesInjective | internal/scripts/runner.go:70-83 | the twelve `SYS_*` names are distinct |
| ScriptRunner.BuildEnv | internal/scripts/runner.go:64-86 | the env map has exactly the twelve `SYS_*` keys |
| ScriptRunner.EnvShape | internal/scripts/runner.go:65-83 | 12 entries; `SYS_EVENT_TYPE` is `alert`; `SYS_NET_INTERFACE` is the snapshot's interface; `SYS_EVENT_METRIC` is `multi` iff there is not exactly one alert type |
| ScriptRunner.EnvCountsReadBack | internal/scripts/runner.go:76-77 | the two byte counts in the env read back as the snapshot's values |
| ScriptRunner.EnvLines | internal/scripts/runner.go:55-59 | one line per key written |
| ScriptRunner.EnvFileReadsBack | internal/scripts/runner.go:55-59 | splitting a line of the env file at its first `=` gives back its key and its value |
| ScriptRunner.ExecuteBitsIff | internal/scripts/runner.go:109 | `mode & 0111 != 0` iff the owner, group or other execute bit is set |
| ScriptRunner.SelectedAppend | internal/scripts/runner.go:95-114 | discovery works entry by entry, in directory order |
| ScriptRunner.SelectedOne | internal/scripts/runner.go:95-114 | an entry is kept, joined to the directory, iff it is not a directory, ends in `.sh`, has readable info and an execute bit |
| ScriptRunner.SelectedFromScript | internal/scripts/runner.go:95-114 | every discovered path is the joined name of a qualifying entry |
| ScriptRunner.ScriptIsSelected | internal/scripts/runner.go:95-114 | every qualifying entry is discovered |
| ScriptRunner.RunAll | internal/scripts/runner.go:37-43 | no more scripts are started than listed |
| ScriptRunner.RunAllSucceedsIff | internal/scripts/runner.go:37-43 | the round succeeds iff every script succeeds, and then every script ran, in order, with the same env |
| ScriptRunner.RunAllStopsAtFirstFailure | internal/scripts/runner.go:37-43 | on failure the first failing script is the last one started, every earlier one succeeded, and the error names it |
| ScriptRunner.Runner.constructor | internal/scripts/runner.go:21-23 | a new runner has started nothing |
| ScriptRunner.Runner.WriteEnvFile | internal/scripts/runner.go:46-62 | on success the file holds one `KEY=VALUE` line per env key, in some order of all the keys; on failure the file is unchanged |
| ScriptRunner.Runner.FindScripts | internal/scripts/runner.go:88-117 | a listing error is an error; otherwise the discovered paths |
| ScriptRunner.Runner.RunScripts | internal/scripts/runner.go:37-43 | the loop starts the scripts of `RunAll` in order and returns its error |
| ScriptRunner.Runner.Execute | internal/scripts/runner.go:25-44 | env-file and listing failures run nothing and give their messages; otherwise the scripts run as `RunAll` with the env |
| Sentinel.TickEffectsShape | cmd/system-sentinel/main.go:78-106 | a tick's calls come in spike, alert, dispatch, sample order; each is present iff its condition holds |
| Sentinel.Round | cmd/system-sentinel/main.go:85-91 | the debouncer is consulted only when there are alerts |
| Sentinel.TickStep | cmd/system-sentinel/main.go:72-76 | a collect error logs nothing and changes no state |
| Sentinel.TickBehaviour | cmd/system-sentinel/main.go:78-108 | a successful tick logs spikes iff there are any, alerts iff there are any, dispatches iff alerts exist and the debouncer admits, samples iff due, in that order; the new state holds the snapshot, the sample time and the debouncer's stamps |
| Sentinel.FirstTickLogsSample | cmd/system-sentinel/main.go:58-106 | the first successful tick compares against the zero snapshot and always writes a sample |
| Sentinel.SamplesThrottled | cmd/system-sentinel/main.go:72-106 | after a sample at t1 a failed collect changes nothing, and a later tick at t2 samples iff t2 - t1 reaches the collection interval |
| Sentinel.DispatchFollowsAlert | cmd/system-sentinel/main.go:85-97 | a script round is dispatched only right after logging the alerts it belongs to, with those categories |
| Sentinel.Sentinel.constructor | cmd/system-sentinel/main.go:45-59 | the loop starts from the zero snapshot, the zero time and an empty engine |
| Sentinel.Sentinel.Tick | cmd/system-sentinel/main.go:72-108 | the new state and the calls made are `TickStep` of the old state |

## Left out

- File and directory I/O (`os.Open`, `bufio.Scanner`, `os.ReadDir`, `os.OpenFile`, `os.Create`, `os.Remove`, `os.MkdirAll`). The kernel files are a `Source`: either an error or their lines. Listings are entry sequences, and log files are a map from path to entries. Whether an open, write, removal or mkdir succeeds is a boolean parameter.
- Reading the clock (`time.Now`). Every operation takes the reading as a parameter. The tick uses one reading for both the debouncer and the sample throttle, where the daemon reads the clock separately for each.
- `LoadConfig` (internal/config/config.go:79-100): reading the file and decoding YAML are library calls. The model starts from a decoded `Config`, and `ApplyDefaults` proves the defaults-then-validate sequence succeeds.
- JSON encoding of a log entry (internal/logging/logger.go:78-81). An entry is a record, and its marshalling error path is not modelled.
- Running a script (internal/scripts/runner.go:119-138): the subprocess, its timeout, its output and the inherited environment. Each script's outcome is a function from its path to success, an exit code or another error.
- Error messages keep their Go prefix (`failed to open log file`, `failed to write env file`, `script <path> failed: exit code <n>`, …) but not the wrapped OS error.
- Concurrency and scheduling. This covers the goroutine that runs a script round (cmd/system-sentinel/main.go:92-97); the model records the dispatch as an effect of the tick. It also covers the rotator's goroutine, ticker and stop channel (internal/storage/rotator.go:28-53), the mutexes, signal handling, flags and the daemon's ticker (cmd/system-sentinel/main.go:24-71). Each call is atomic.
- Sentinel.Tick: the logger calls of a tick are recorded as effects rather than run against a `Logger`. Their errors are only printed in the daemon, so the effects do not capture any file contents.
- IEEE-754 arithmetic. `float64` is `real`, so rounding, NaN and infinities are not modelled. `strconv.FormatFloat(…, 'f', 2, 64)` and RFC 3339 formatting for the env map are a `Formats` parameter. The log entry's timestamp is `Clock.Rfc3339`; see the time-zone line below.
- Rfc3339: renders the instant in UTC with the suffix `Z`, and states no contract. Go formats `snap.Timestamp` (internal/logging/logger.go:71) in the host's local zone with its offset, so the two agree only on a host whose zone is UTC.
- Time zones: the model takes the host's zone to be UTC. The log file's date (internal/logging/logger.go:92) comes from `time.Now()` in the local zone, so on another host the file changes at local midnight and the retention pass compares local dates parsed as UTC midnights.
- JoinPath: joins with one `/` but does not clean the result as `filepath.Join` does (no removal of `.`, `..` or doubled slashes in the directory). The joins at internal/logging/logger.go:102, internal/storage/rotator.go:79 and internal/scripts/runner.go:113 agree with it when the configured directory is already clean.
- `time.Duration` is unbounded here. Go's multiplication of seconds into a Duration would overflow for values above about 292 years.
- Dates: formatting and parsing with `2006-01-02` are proved for the years 0 to 9999, the layout's four-digit range.
- Text.ParseUint: it saturates on overflow and gives 0 on any other error. It does not model Go's exact error values, since the code ignores them.
- ScriptRunner.Runner.WriteEnvFile: a failure is one boolean for the whole write. It does not tell a failed create from a failed line, and on failure the file is left as it was rather than half written.
- ScriptRunner.BuildEnv: the keys are an enumeration with their `SYS_*` names rather than strings.
- `scripts.enabled` is decoded but never read by the daemon. The model keeps it in `Config` and gives it no behaviour.

### Behaviour worth knowing

- The debouncer stamps only the admitted categories, at internal/alerts/alert_engine.go:60-66. A listed category still inside its window keeps its old timestamp, so it can come out of its window on the next tick of another category's round. One might expect every listed category to be stamped.
- The retention cutoff keeps the time of day, at internal/storage/rotator.go:61. A file dated exactly R days ago is therefore deleted unless the pass runs exactly at midnight (`Storage.AgeRule`). One might expect such a file to be kept.
- The network reader selects the first line whose first field *starts with* `<iface>:`, at internal/metrics/collector.go:207-210. The test is a prefix, not an equality: a first field such as `eth0:1234`, with a counter run into the colon, is selected too, and the counters are then read one field further on.
