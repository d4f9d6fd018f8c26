/** The metrics collector: the Snapshot record produced once per tick, the
    readers of the kernel's CPU, memory and network counter sources (given as the
    lines a scanner would yield), and the Collector object, which keeps the
    previous readings so that it can turn monotonic counters into percentages and
    rates. */
module Metrics {
  import opened Base
  import opened Text
  import Events

  /** One tick's derived metrics. */
  datatype Snapshot = Snapshot(
    timestamp: Time,
    cpuUsagePercent: real,
    memUsedPercent: real,
    memUsedBytes: u64,
    memTotalBytes: u64,
    netInterface: string,
    netRxBytesPS: real,
    netTxBytesPS: real,
    netRxMbps: real,
    netTxMbps: real)

  /** The zero value of the snapshot struct. */
  const ZeroSnapshot: Snapshot := Snapshot(ZeroTime, 0.0, 0.0, 0, 0, "", 0.0, 0.0, 0.0, 0.0)

  /** The aggregate CPU jiffy counters of the first line of the kernel's stat file. */
  datatype CpuStats = CpuStats(user: u64, nice: u64, system: u64, idle: u64, iowait: u64,
                               irq: u64, softirq: u64, steal: u64)

  const ZeroCpuStats: CpuStats := CpuStats(0, 0, 0, 0, 0, 0, 0, 0)

  /** Received and transmitted byte counters of one interface. */
  datatype NetStats = NetStats(rxBytes: u64, txBytes: u64)

  /** Total and available memory, in bytes. */
  datatype MemoryInfo = MemoryInfo(total: u64, available: u64)

  datatype NetworkInfo = NetworkInfo(rxBytesPS: real, txBytesPS: real)

  /** A kernel source: the error its open returned, or the lines scanned from it. */
  datatype Source = Unreadable(cause: string) | Lines(lines: seq<string>)

  /** The stage whose failure a collect error is tagged with. */
  datatype Stage = CpuStage | MemoryStage | NetworkStage

  datatype CollectError = CollectError(stage: Stage, cause: string)

  // ---------------------------------------------------------------- CPU

  function RawTotal(s: CpuStats): nat {
    s.user + s.nice + s.system + s.idle + s.iowait + s.irq + s.softirq + s.steal
  }

  /** The uint64 sum of all eight counters (it wraps like the Go additions). */
  function Total(s: CpuStats): u64 {
    RawTotal(s) % TWO_TO_64
  }

  /** The uint64 sum idle + iowait. */
  function IdleTotal(s: CpuStats): u64 {
    (s.idle + s.iowait) % TWO_TO_64
  }

  /** The counters of a CPU line: None unless the line has at least eight fields
      and the first is "cpu"; unparsable counters read as 0; steal, the ninth
      field, is 0 when absent. */
  function ParseCpuLine(line: string): (r: Option<CpuStats>)
    ensures r.None? <==> |Fields(line)| < 8 || Fields(line)[0] != "cpu"
    ensures r.Some? ==>
              var f := Fields(line);
              r.value == CpuStats(ParseUint(f[1]), ParseUint(f[2]), ParseUint(f[3]), ParseUint(f[4]),
                                  ParseUint(f[5]), ParseUint(f[6]), ParseUint(f[7]),
                                  if |f| > 8 then ParseUint(f[8]) else 0)
  {
    var f := Fields(line);
    if |f| < 8 || f[0] != "cpu" then None
    else
      var steal := if |f| > 8 then ParseUint(f[8]) else 0;
      Some(CpuStats(ParseUint(f[1]), ParseUint(f[2]), ParseUint(f[3]), ParseUint(f[4]),
                    ParseUint(f[5]), ParseUint(f[6]), ParseUint(f[7]), steal))
  }

  /** "cpu" and the eight counters in decimal, in the order the aggregate line
      of the stat file lists them. */
  function CpuWords(s: CpuStats): seq<string> {
    ["cpu", FormatUint(s.user), FormatUint(s.nice), FormatUint(s.system), FormatUint(s.idle),
     FormatUint(s.iowait), FormatUint(s.irq), FormatUint(s.softirq), FormatUint(s.steal)]
  }

  lemma DigitsHaveNoSpace(s: string)
    requires AllDigits(s)
    ensures NoSpace(s)
  {
  }

  lemma CpuWordsAreFields(s: CpuStats)
    ensures forall k :: 0 <= k < |CpuWords(s)| ==> CpuWords(s)[k] != [] && NoSpace(CpuWords(s)[k])
  {
    var ws := CpuWords(s);
    forall k | 1 <= k < |ws| ensures ws[k] != [] && NoSpace(ws[k]) {
      DigitsHaveNoSpace(ws[k]);
    }
    assert NoSpace(ws[0]);
  }

  /** Reading back a CPU line gives the counters written on it, whatever white
      space separates the words and whatever further counters (guest,
      guest_nice, ...) follow steal. */
  lemma ParseCpuLineRoundTrip(s: CpuStats, extra: seq<string>, gaps: seq<string>)
    requires forall k :: 0 <= k < |extra| ==> extra[k] != [] && NoSpace(extra[k])
    requires Separators(gaps, 9 + |extra|)
    ensures ParseCpuLine(Spread(CpuWords(s) + extra, gaps)) == Some(s)
  {
    var ws := CpuWords(s) + extra;
    CpuWordsAreFields(s);
    assert forall k :: 0 <= k < 9 ==> ws[k] == CpuWords(s)[k];
    assert forall k :: 9 <= k < |ws| ==> ws[k] == extra[k - 9];
    FieldsOfSpread(ws, gaps);
    ParseFormatRoundTrip(s.user);
    ParseFormatRoundTrip(s.nice);
    ParseFormatRoundTrip(s.system);
    ParseFormatRoundTrip(s.idle);
    ParseFormatRoundTrip(s.iowait);
    ParseFormatRoundTrip(s.irq);
    ParseFormatRoundTrip(s.softirq);
    ParseFormatRoundTrip(s.steal);
  }

  /** An older kernel's line, which stops after softirq, reads with steal 0. */
  lemma ParseCpuLineWithoutSteal(s: CpuStats, gaps: seq<string>)
    requires Separators(gaps, 8)
    ensures ParseCpuLine(Spread(CpuWords(s)[..8], gaps)) == Some(s.(steal := 0))
  {
    var ws := CpuWords(s)[..8];
    CpuWordsAreFields(s);
    FieldsOfSpread(ws, gaps);
    ParseFormatRoundTrip(s.user);
    ParseFormatRoundTrip(s.nice);
    ParseFormatRoundTrip(s.system);
    ParseFormatRoundTrip(s.idle);
    ParseFormatRoundTrip(s.iowait);
    ParseFormatRoundTrip(s.irq);
    ParseFormatRoundTrip(s.softirq);
  }

  /** What the CPU reader makes of the stat source: only its first line counts. */
  function ReadCpu(stat: Source): (r: Result<CpuStats>)
    ensures stat.Unreadable? ==> r == Err(stat.cause)
    ensures stat.Lines? && stat.lines == [] ==> r == Err("empty /proc/stat")
    ensures stat.Lines? && stat.lines != [] && ParseCpuLine(stat.lines[0]).None? ==> r == Err("invalid cpu line")
    ensures r.Ok? <==> stat.Lines? && stat.lines != [] && ParseCpuLine(stat.lines[0]).Some?
    ensures r.Ok? ==> Some(r.value) == ParseCpuLine(stat.lines[0])
  {
    match stat
    case Unreadable(cause) => Err(cause)
    case Lines(lines) =>
      if lines == [] then Err("empty /proc/stat")
      else match ParseCpuLine(lines[0])
        case None => Err("invalid cpu line")
        case Some(stats) => Ok(stats)
  }

  /** The CPU busy percentage between two readings: 0 when no jiffies elapsed,
      otherwise the non-idle share of the elapsed jiffies. */
  function CpuUsage(prev: CpuStats, cur: CpuStats): (usage: real)
    ensures Sub64(Total(cur), Total(prev)) == 0 ==> usage == 0.0
  {
    UsageOf(Sub64(IdleTotal(cur), IdleTotal(prev)), Sub64(Total(cur), Total(prev)))
  }

  function UsageOf(idleDelta: u64, totalDelta: u64): real {
    if totalDelta == 0 then 0.0 else (1.0 - idleDelta as real / totalDelta as real) * 100.0
  }

  /** No counter went backwards and the sum of the counters fits in 64 bits. */
  predicate CountersAdvance(prev: CpuStats, cur: CpuStats) {
    && prev.user <= cur.user && prev.nice <= cur.nice && prev.system <= cur.system
    && prev.idle <= cur.idle && prev.iowait <= cur.iowait && prev.irq <= cur.irq
    && prev.softirq <= cur.softirq && prev.steal <= cur.steal
    && RawTotal(cur) < TWO_TO_64
  }

  /** With counters that only advance, the usage is a percentage, and it is the
      usage formula applied to the true (unwrapped) jiffy deltas. */
  lemma CpuUsageInRange(prev: CpuStats, cur: CpuStats)
    requires CountersAdvance(prev, cur)
    ensures 0.0 <= CpuUsage(prev, cur) <= 100.0
    ensures CpuUsage(prev, cur) == UsageOf(IdleElapsed(prev, cur), Elapsed(prev, cur))
  {
    DeltasExact(prev, cur);
    UsageOfDeltas(CpuUsage(prev, cur), IdleElapsed(prev, cur), Elapsed(prev, cur));
  }

  /** Jiffies elapsed between two readings, and those spent idle or in iowait. */
  function Elapsed(prev: CpuStats, cur: CpuStats): int {
    RawTotal(cur) - RawTotal(prev)
  }

  function IdleElapsed(prev: CpuStats, cur: CpuStats): int {
    cur.idle + cur.iowait - prev.idle - prev.iowait
  }

  /** On deltas where the idle part does not exceed the whole, the usage formula
      gives a percentage: the share of elapsed jiffies not spent idle or waiting
      for I/O. */
  lemma UsageOfDeltas(usage: real, id: u64, td: u64)
    requires id <= td && usage == UsageOf(id, td)
    ensures 0.0 <= usage <= 100.0
    ensures usage * td as real == 100.0 * (td - id) as real
  {
    if td > 0 {
      RatioInUnit(id as real, td as real);
      var x := id as real / td as real;
      assert (1.0 - x) * 100.0 * td as real == 100.0 * td as real - 100.0 * (x * td as real);
    }
  }

  /** Without wrap-around the uint64 deltas are the true deltas, and the idle
      delta is part of the total delta. */
  lemma DeltasExact(prev: CpuStats, cur: CpuStats)
    requires CountersAdvance(prev, cur)
    ensures RawTotal(prev) <= RawTotal(cur)
    ensures Sub64(Total(cur), Total(prev)) == RawTotal(cur) - RawTotal(prev)
    ensures Sub64(IdleTotal(cur), IdleTotal(prev)) == IdleElapsed(prev, cur)
    ensures 0 <= IdleElapsed(prev, cur) <= Elapsed(prev, cur) < TWO_TO_64
    ensures CpuUsage(prev, cur) == UsageOf(IdleElapsed(prev, cur), Elapsed(prev, cur))
  {
    var tp, tc := RawTotal(prev), RawTotal(cur);
    assert tp <= tc < TWO_TO_64;
    assert prev.idle + prev.iowait <= cur.idle + cur.iowait <= tc;
    SmallMod(tc);
    SmallMod(tp);
    SmallMod(cur.idle + cur.iowait);
    SmallMod(prev.idle + prev.iowait);
    assert Total(cur) == tc && Total(prev) == tp;
    assert IdleTotal(cur) == cur.idle + cur.iowait && IdleTotal(prev) == prev.idle + prev.iowait;
  }

  lemma SmallMod(x: int)
    requires 0 <= x < TWO_TO_64
    ensures x % TWO_TO_64 == x
  {
  }

  /** A share of a positive whole lies between 0 and 1. */
  lemma RatioInUnit(part: real, whole: real)
    requires 0.0 <= part <= whole && whole > 0.0
    ensures 0.0 <= part / whole <= 1.0
    ensures part / whole * whole == part
  {
    var x := part / whole;
    assert x * whole == part;
    Events.MultiplyBothSides(x, 0.0, whole);
    Events.MultiplyBothSides(1.0, x, whole);
  }

  // ---------------------------------------------------------------- memory

  /** The value of a "Key: value kB" line, converted from KiB to bytes. */
  function KiBField(line: string): (r: Option<u64>)
    ensures r.Some? <==> |Fields(line)| >= 2
    ensures r.Some? ==> r.value == Mul64(ParseUint(Fields(line)[1]), 1024)
  {
    var f := Fields(line);
    if |f| >= 2 then Some(Mul64(ParseUint(f[1]), 1024)) else None
  }

  /** How one meminfo line updates what the reader has found so far. */
  function MemStep(info: MemoryInfo, line: string): MemoryInfo {
    if HasPrefix(line, "MemTotal:") then
      match KiBField(line)
      case Some(v) => info.(total := v)
      case None => info
    else if HasPrefix(line, "MemAvailable:") then
      match KiBField(line)
      case Some(v) => info.(available := v)
      case None => info
    else info
  }

  /** The meminfo scan: lines are read in order until both values are non-zero. */
  function ScanMem(lines: seq<string>, info: MemoryInfo): MemoryInfo
    decreases |lines|
  {
    if lines == [] then info
    else
      var next := MemStep(info, lines[0]);
      if next.total > 0 && next.available > 0 then next else ScanMem(lines[1..], next)
  }

  /** The memory reader: MemTotal must be found and non-zero; a missing (or zero)
      MemAvailable stands for all of memory being available. */
  function ReadMemory(meminfo: Source): (r: Result<MemoryInfo>)
    ensures r.Ok? ==> r.value.total > 0 && r.value.available > 0
    ensures meminfo.Lines? && r.Err? ==> r.msg == "could not read MemTotal"
  {
    match meminfo
    case Unreadable(cause) => Err(cause)
    case Lines(lines) =>
      var info := ScanMem(lines, MemoryInfo(0, 0));
      if info.total == 0 then Err("could not read MemTotal")
      else if info.available == 0 then Ok(info.(available := info.total))
      else Ok(info)
  }

  lemma {:induction false} ScanMemKeepsTotal(lines: seq<string>, info: MemoryInfo)
    requires forall i :: 0 <= i < |lines| ==> !HasPrefix(lines[i], "MemTotal:")
    ensures ScanMem(lines, info).total == info.total
    decreases |lines|
  {
    if lines != [] {
      ScanMemKeepsTotal(lines[1..], MemStep(info, lines[0]));
    }
  }

  lemma {:induction false} ScanMemKeepsAvailable(lines: seq<string>, info: MemoryInfo)
    requires forall i :: 0 <= i < |lines| ==> !HasPrefix(lines[i], "MemAvailable:")
    ensures ScanMem(lines, info).available == info.available
    decreases |lines|
  {
    if lines != [] {
      ScanMemKeepsAvailable(lines[1..], MemStep(info, lines[0]));
    }
  }

  /** The line of a meminfo scan that is the only one with a given prefix. */
  predicate SoleLine(lines: seq<string>, i: int, prefix: string) {
    0 <= i < |lines| && HasPrefix(lines[i], prefix)
    && forall k :: 0 <= k < |lines| && k != i ==> !HasPrefix(lines[k], prefix)
  }

  /** A scan that has not found a total yet ends with the value of the only
      MemTotal line: no line before it can end the scan. */
  lemma {:induction false} ScanFindsTotal(lines: seq<string>, info: MemoryInfo, i: int, t: u64)
    requires SoleLine(lines, i, "MemTotal:") && KiBField(lines[i]) == Some(t)
    requires info.total == 0
    ensures ScanMem(lines, info).total == t
    decreases |lines|
  {
    var next := MemStep(info, lines[0]);
    if i == 0 {
      if !(next.total > 0 && next.available > 0) {
        assert forall k :: 0 <= k < |lines[1..]| ==> lines[1..][k] == lines[k + 1];
        ScanMemKeepsTotal(lines[1..], next);
      }
    } else {
      assert forall k :: 0 <= k < |lines[1..]| ==> lines[1..][k] == lines[k + 1];
      ScanFindsTotal(lines[1..], next, i - 1, t);
    }
  }

  /** Likewise for the only MemAvailable line. */
  lemma {:induction false} ScanFindsAvailable(lines: seq<string>, info: MemoryInfo, j: int, a: u64)
    requires SoleLine(lines, j, "MemAvailable:") && KiBField(lines[j]) == Some(a)
    requires info.available == 0
    ensures ScanMem(lines, info).available == a
    decreases |lines|
  {
    var next := MemStep(info, lines[0]);
    if j == 0 {
      assert lines[0][3] == "MemAvailable:"[3] != "MemTotal:"[3];
      if !(next.total > 0 && next.available > 0) {
        assert forall k :: 0 <= k < |lines[1..]| ==> lines[1..][k] == lines[k + 1];
        ScanMemKeepsAvailable(lines[1..], next);
      }
    } else {
      assert forall k :: 0 <= k < |lines[1..]| ==> lines[1..][k] == lines[k + 1];
      ScanFindsAvailable(lines[1..], next, j - 1, a);
    }
  }

  /** What the memory reader returns for a meminfo with one MemTotal line and
      one MemAvailable line: the two values in bytes, a zero available value
      standing for all of memory, and an error for a zero total. */
  lemma ReadMemoryValues(lines: seq<string>, i: int, j: int, t: u64, a: u64)
    requires SoleLine(lines, i, "MemTotal:") && KiBField(lines[i]) == Some(t)
    requires SoleLine(lines, j, "MemAvailable:") && KiBField(lines[j]) == Some(a)
    ensures ReadMemory(Lines(lines))
            == if t == 0 then Err("could not read MemTotal") else Ok(MemoryInfo(t, if a == 0 then t else a))
  {
    ScanFindsTotal(lines, MemoryInfo(0, 0), i, t);
    ScanFindsAvailable(lines, MemoryInfo(0, 0), j, a);
  }

  /** Without a MemAvailable line the only MemTotal value is both the total and
      the available memory. */
  lemma ReadMemoryWithoutAvailable(lines: seq<string>, i: int, t: u64)
    requires SoleLine(lines, i, "MemTotal:") && KiBField(lines[i]) == Some(t)
    requires forall k :: 0 <= k < |lines| ==> !HasPrefix(lines[k], "MemAvailable:")
    ensures ReadMemory(Lines(lines)) == if t == 0 then Err("could not read MemTotal") else Ok(MemoryInfo(t, t))
  {
    ScanFindsTotal(lines, MemoryInfo(0, 0), i, t);
    ScanMemKeepsAvailable(lines, MemoryInfo(0, 0));
  }

  /** Without a MemTotal line the memory reading fails. */
  lemma MissingMemTotalFails(lines: seq<string>)
    requires forall i :: 0 <= i < |lines| ==> !HasPrefix(lines[i], "MemTotal:")
    ensures ReadMemory(Lines(lines)) == Err("could not read MemTotal")
  {
    ScanMemKeepsTotal(lines, MemoryInfo(0, 0));
  }

  /** Without a MemAvailable line all memory counts as available, so no memory is
      reported used. */
  lemma MissingMemAvailableMeansNoneUsed(lines: seq<string>)
    requires forall i :: 0 <= i < |lines| ==> !HasPrefix(lines[i], "MemAvailable:")
    requires ReadMemory(Lines(lines)).Ok?
    ensures ReadMemory(Lines(lines)).value.available == ReadMemory(Lines(lines)).value.total
    ensures UsedBytes(ReadMemory(Lines(lines)).value) == 0
  {
    ScanMemKeepsAvailable(lines, MemoryInfo(0, 0));
  }

  /** total - available, in uint64 arithmetic. */
  function UsedBytes(info: MemoryInfo): u64 {
    Sub64(info.total, info.available)
  }

  function UsedPercent(info: MemoryInfo): real
    requires info.total > 0
  {
    UsedBytes(info) as real / info.total as real * 100.0
  }

  /** When no more memory is available than exists, the used bytes are the
      difference, at most the total, and the percentage lies in [0, 100]. */
  lemma MemoryUsageInRange(info: MemoryInfo)
    requires 0 < info.total && info.available <= info.total
    ensures UsedBytes(info) == info.total - info.available <= info.total
    ensures 0.0 <= UsedPercent(info) <= 100.0
  {
    RatioInUnit(UsedBytes(info) as real, info.total as real);
  }

  // ---------------------------------------------------------------- network

  /** The line the network reader stops at: it mentions the interface, has at
      least ten fields, and its first field starts with "<interface>:". */
  predicate IsInterfaceLine(line: string, iface: string) {
    Contains(line, iface) && |Fields(line)| >= 10 && HasPrefix(Fields(line)[0], iface + ":")
  }

  /** The Contains test is implied by the other two: a line is selected exactly
      when it has ten fields and its first field starts with "<interface>:". */
  lemma InterfaceLineIff(line: string, iface: string)
    ensures IsInterfaceLine(line, iface) <==> |Fields(line)| >= 10 && HasPrefix(Fields(line)[0], iface + ":")
  {
    var f := Fields(line);
    if |f| >= 10 && HasPrefix(f[0], iface + ":") {
      assert f[0][..|iface|] == (iface + ":")[..|iface|];
      assert HasPrefix(f[0], iface);
      FirstFieldPrefixContained(line, iface);
    }
  }

  /** Column 2 is the received byte count, column 10 the transmitted one. */
  function Counters(line: string): NetStats
    requires |Fields(line)| >= 10
  {
    var f := Fields(line);
    NetStats(ParseUint(f[1]), ParseUint(f[9]))
  }

  /** The counters of the first selected line, if any. */
  function FindInterface(lines: seq<string>, iface: string): (r: Option<NetStats>)
    ensures r.None? <==> forall i :: 0 <= i < |lines| ==> !IsInterfaceLine(lines[i], iface)
    decreases |lines|
  {
    if lines == [] then None
    else if IsInterfaceLine(lines[0], iface) then Some(Counters(lines[0]))
    else
      var r := FindInterface(lines[1..], iface);
      assert forall i :: 1 <= i < |lines| ==> lines[i] == lines[1..][i - 1];
      r
  }

  /** The reader takes its counters from the first selected line. */
  lemma {:induction false} FindInterfaceFirstMatch(lines: seq<string>, iface: string, i: nat)
    requires i < |lines| && IsInterfaceLine(lines[i], iface)
    requires forall j :: 0 <= j < i ==> !IsInterfaceLine(lines[j], iface)
    ensures FindInterface(lines, iface) == Some(Counters(lines[i]))
    decreases i
  {
    if i > 0 {
      assert !IsInterfaceLine(lines[0], iface);
      assert lines[1..][i - 1] == lines[i];
      FindInterfaceFirstMatch(lines[1..], iface, i - 1);
    }
  }

  /** Seconds between two clock readings, with 1 s substituted for a
      non-positive interval. */
  function ElapsedSeconds(prev: int, now: int): (secs: real)
    ensures secs > 0.0
    ensures now > prev ==> secs * NanosPerSecond as real == (now - prev) as real
    ensures now <= prev ==> secs == 1.0
  {
    var d := (now - prev) as real / NanosPerSecond as real;
    if d <= 0.0 then 1.0 else d
  }

  /** Bytes per second from two counter readings (the uint64 difference). */
  function Rate(prevCount: u64, count: u64, secs: real): (r: real)
    requires secs > 0.0
    ensures r >= 0.0
    ensures prevCount <= count ==> r * secs == (count - prevCount) as real
  {
    var x := Sub64(count, prevCount) as real / secs;
    assert x * secs == Sub64(count, prevCount) as real;
    x
  }

  /** bytes/s x 8 / 1 000 000. */
  function Mbps(bytesPerSec: real): (r: real)
    ensures bytesPerSec >= 0.0 ==> r >= 0.0
    ensures r * 1_000_000.0 == bytesPerSec * 8.0
  {
    bytesPerSec * 8.0 / 1_000_000.0
  }

  // ---------------------------------------------------------------- collector

  /** The collector's private state. */
  datatype CollectorState = CollectorState(prevCpuStats: CpuStats, prevNetStats: NetStats,
                                           prevSampleTime: Time, initialized: bool)

  const InitialState: CollectorState := CollectorState(ZeroCpuStats, NetStats(0, 0), ZeroTime, false)

  /** collectCPU as a state transition: the first reading reports 0 and marks the
      collector initialized, later readings report CpuUsage against the stored
      counters; each successful reading replaces the stored counters, even when
      it reports 0. A failed reading changes nothing. */
  function CpuStep(s: CollectorState, stat: Source): (r: (Result<real>, CollectorState))
    ensures r.0.Err? <==> ReadCpu(stat).Err?
    ensures r.0.Err? ==> r.1 == s
    ensures r.0.Ok? ==> r.1 == s.(prevCpuStats := ReadCpu(stat).value, initialized := true)
    ensures r.0.Ok? && !s.initialized ==> r.0.value == 0.0
    ensures r.0.Ok? && s.initialized ==> r.0.value == CpuUsage(s.prevCpuStats, ReadCpu(stat).value)
  {
    match ReadCpu(stat)
    case Err(e) => (Err(e), s)
    case Ok(stats) =>
      var usage := if s.initialized then CpuUsage(s.prevCpuStats, stats) else 0.0;
      (Ok(usage), s.(prevCpuStats := stats, initialized := true))
  }

  /** collectNetwork as a state transition: without a previous sample time (or
      before initialization) the rates are 0; otherwise they are the counter
      deltas over the elapsed seconds. Every successful reading stores the
      counters and the time; a failed one (interface not found) changes nothing. */
  function NetworkStep(s: CollectorState, iface: string, netdev: Source, now: int): (r: (Result<NetworkInfo>, CollectorState))
    ensures netdev.Lines? ==> (r.0.Err? <==> FindInterface(netdev.lines, iface).None?)
    ensures r.0.Err? ==> r.1 == s
    ensures r.0.Ok? ==> netdev.Lines? && FindInterface(netdev.lines, iface).Some? && r.1 == s.(prevNetStats := FindInterface(netdev.lines, iface).value, prevSampleTime := At(now))
    ensures r.0.Ok? && (!s.initialized || s.prevSampleTime.IsZero()) ==> r.0.value == NetworkInfo(0.0, 0.0)
    ensures r.0.Ok? ==> r.0.value.rxBytesPS >= 0.0 && r.0.value.txBytesPS >= 0.0
    ensures r.0.Ok? && s.initialized && !s.prevSampleTime.IsZero() ==>
              var c := FindInterface(netdev.lines, iface).value;
              var secs := ElapsedSeconds(s.prevSampleTime.nanos, now);
              r.0.value == NetworkInfo(Rate(s.prevNetStats.rxBytes, c.rxBytes, secs), Rate(s.prevNetStats.txBytes, c.txBytes, secs))
  {
    match netdev
    case Unreadable(cause) => (Err(cause), s)
    case Lines(lines) =>
      match FindInterface(lines, iface)
      case None => (Err("interface " + iface + " not found"), s)
      case Some(c) =>
        var s' := s.(prevNetStats := c, prevSampleTime := At(now));
        if !s.initialized || s.prevSampleTime.IsZero() then (Ok(NetworkInfo(0.0, 0.0)), s')
        else
          var secs := ElapsedSeconds(s.prevSampleTime.nanos, now);
          (Ok(NetworkInfo(Rate(s.prevNetStats.rxBytes, c.rxBytes, secs), Rate(s.prevNetStats.txBytes, c.txBytes, secs))), s')
  }

  /** After a first sample, with counters that did not go back and a clock that
      advanced, the rates are the byte deltas over the elapsed time. */
  lemma NetworkRatesExact(s: CollectorState, iface: string, netdev: Source, now: int)
    requires NetworkStep(s, iface, netdev, now).0.Ok? && s.initialized && s.prevSampleTime.At?
    requires now > s.prevSampleTime.nanos
    requires var c := FindInterface(netdev.lines, iface).value;
             s.prevNetStats.rxBytes <= c.rxBytes && s.prevNetStats.txBytes <= c.txBytes
    ensures var c := FindInterface(netdev.lines, iface).value;
            var info := NetworkStep(s, iface, netdev, now).0.value;
            var elapsed := (now - s.prevSampleTime.nanos) as real;
            && info.rxBytesPS * elapsed == (c.rxBytes - s.prevNetStats.rxBytes) as real * NanosPerSecond as real
            && info.txBytesPS * elapsed == (c.txBytes - s.prevNetStats.txBytes) as real * NanosPerSecond as real
  {
    var c := FindInterface(netdev.lines, iface).value;
    var secs := ElapsedSeconds(s.prevSampleTime.nanos, now);
    assert NetworkStep(s, iface, netdev, now).0.value
        == NetworkInfo(Rate(s.prevNetStats.rxBytes, c.rxBytes, secs), Rate(s.prevNetStats.txBytes, c.txBytes, secs));
    RateOverElapsed(s.prevNetStats.rxBytes, c.rxBytes, s.prevSampleTime.nanos, now);
    RateOverElapsed(s.prevNetStats.txBytes, c.txBytes, s.prevSampleTime.nanos, now);
  }

  /** One counter's rate times the elapsed nanoseconds is its delta times 10^9. */
  lemma RateOverElapsed(prevCount: u64, count: u64, prev: int, now: int)
    requires prevCount <= count && now > prev
    ensures Rate(prevCount, count, ElapsedSeconds(prev, now)) * (now - prev) as real
            == (count - prevCount) as real * NanosPerSecond as real
  {
    var secs := ElapsedSeconds(prev, now);
    ScaleRate(Rate(prevCount, count, secs), secs, NanosPerSecond as real, (now - prev) as real, (count - prevCount) as real);
  }

  /** A rate over seconds, rescaled to another unit of time. */
  lemma ScaleRate(rate: real, secs: real, unit: real, elapsed: real, delta: real)
    requires secs * unit == elapsed && rate * secs == delta
    ensures rate * elapsed == delta * unit
  {
    calc {
      rate * elapsed;
      rate * (secs * unit);
      (rate * secs) * unit;
    }
  }

  /** The snapshot a collect starts from: its time and interface, everything else 0. */
  function EmptySnapshot(now: int, iface: string): Snapshot {
    Snapshot(At(now), 0.0, 0.0, 0, 0, iface, 0.0, 0.0, 0.0, 0.0)
  }

  function WithMemory(snap: Snapshot, info: MemoryInfo): Snapshot
    requires info.total > 0
  {
    snap.(memTotalBytes := info.total, memUsedBytes := UsedBytes(info), memUsedPercent := UsedPercent(info))
  }

  function WithNetwork(snap: Snapshot, net: NetworkInfo): Snapshot {
    snap.(netRxBytesPS := net.rxBytesPS, netTxBytesPS := net.txBytesPS,
          netRxMbps := Mbps(net.rxBytesPS), netTxMbps := Mbps(net.txBytesPS))
  }

  /** Collect as a state transition: CPU, then memory, then network; the first
      failing stage ends the collect with an error tagged with that stage, the
      snapshot filled as far as it got, and the state of the stages before it
      already updated. */
  function CollectStep(s: CollectorState, iface: string, now: int, stat: Source, meminfo: Source, netdev: Source)
    : (r: (Snapshot, Option<CollectError>, CollectorState))
    ensures r.0.timestamp == At(now) && r.0.netInterface == iface
    ensures ReadCpu(stat).Err? ==> r.1 == Some(CollectError(CpuStage, ReadCpu(stat).msg))
    ensures r.1.Some? && r.1.value.stage == CpuStage ==> ReadCpu(stat).Err?
    ensures r.1.Some? && r.1.value.stage == CpuStage ==> r.2 == s
    ensures r.1.Some? && r.1.value.stage != CpuStage ==> r.2.prevCpuStats == CpuStep(s, stat).1.prevCpuStats && r.2.initialized
    ensures r.1.Some? && r.1.value.stage == MemoryStage ==> r.2 == CpuStep(s, stat).1
    ensures r.1.None? ==> r.0.netRxBytesPS >= 0.0 && r.0.netTxBytesPS >= 0.0
                          && r.0.netRxMbps * 1_000_000.0 == r.0.netRxBytesPS * 8.0
                          && r.0.netTxMbps * 1_000_000.0 == r.0.netTxBytesPS * 8.0
                          && r.0.memTotalBytes > 0
    ensures ReadCpu(stat).Ok? && ReadMemory(meminfo).Err? ==> r.1 == Some(CollectError(MemoryStage, ReadMemory(meminfo).msg))
    ensures var net := NetworkStep(CpuStep(s, stat).1, iface, netdev, now);
            ReadCpu(stat).Ok? && ReadMemory(meminfo).Ok? && net.0.Err?
            ==> r.1 == Some(CollectError(NetworkStage, net.0.msg)) && r.2 == net.1
    ensures var net := NetworkStep(CpuStep(s, stat).1, iface, netdev, now);
            r.1.None? <==> ReadCpu(stat).Ok? && ReadMemory(meminfo).Ok? && net.0.Ok?
    ensures var net := NetworkStep(CpuStep(s, stat).1, iface, netdev, now);
            var mem := ReadMemory(meminfo);
            r.1.None? ==>
              && r.2 == net.1
              && r.0.cpuUsagePercent == CpuStep(s, stat).0.value
              && r.0.memTotalBytes == mem.value.total && r.0.memUsedBytes == UsedBytes(mem.value)
              && r.0.memUsedPercent == UsedPercent(mem.value)
              && r.0.netRxBytesPS == net.0.value.rxBytesPS && r.0.netTxBytesPS == net.0.value.txBytesPS
  {
    var base := EmptySnapshot(now, iface);
    var (cpu, s1) := CpuStep(s, stat);
    if cpu.Err? then (base, Some(CollectError(CpuStage, cpu.msg)), s1)
    else
      var snap1 := base.(cpuUsagePercent := cpu.value);
      var mem := ReadMemory(meminfo);
      if mem.Err? then (snap1, Some(CollectError(MemoryStage, mem.msg)), s1)
      else
        var snap2 := WithMemory(snap1, mem.value);
        var (net, s2) := NetworkStep(s1, iface, netdev, now);
        if net.Err? then (snap2, Some(CollectError(NetworkStage, net.msg)), s2)
        else (WithNetwork(snap2, net.value), None, s2)
  }

  /** The first successful collect of a fresh collector reports no CPU use and no
      traffic. */
  lemma FirstCollectIsQuiet(iface: string, now: int, stat: Source, meminfo: Source, netdev: Source)
    requires CollectStep(InitialState, iface, now, stat, meminfo, netdev).1.None?
    ensures var snap := CollectStep(InitialState, iface, now, stat, meminfo, netdev).0;
            snap.cpuUsagePercent == 0.0 && snap.netRxBytesPS == 0.0 && snap.netTxBytesPS == 0.0
            && snap.netRxMbps == 0.0 && snap.netTxMbps == 0.0
  {
  }

  /** With sane kernel counters every percentage of a snapshot lies in [0, 100]
      and the used memory never exceeds the total. */
  lemma SnapshotPercentagesInRange(s: CollectorState, iface: string, now: int, stat: Source, meminfo: Source, netdev: Source)
    requires CollectStep(s, iface, now, stat, meminfo, netdev).1.None?
    requires s.initialized && ReadCpu(stat).Ok? ==> CountersAdvance(s.prevCpuStats, ReadCpu(stat).value)
    requires ReadMemory(meminfo).Ok? ==> ReadMemory(meminfo).value.available <= ReadMemory(meminfo).value.total
    ensures var snap := CollectStep(s, iface, now, stat, meminfo, netdev).0;
            0.0 <= snap.cpuUsagePercent <= 100.0 && 0.0 <= snap.memUsedPercent <= 100.0
            && snap.memUsedBytes <= snap.memTotalBytes
  {
    if s.initialized {
      CpuUsageInRange(s.prevCpuStats, ReadCpu(stat).value);
    }
    MemoryUsageInRange(ReadMemory(meminfo).value);
  }

  /** The collector object. Its methods are the Go methods; each is tied to the
      step function above over the abstract state State(). */
  class Collector {
    const interfaceName: string
    var prevCpuStats: CpuStats
    var prevNetStats: NetStats
    var prevSampleTime: Time
    var initialized: bool

    function State(): CollectorState
      reads this
    {
      CollectorState(prevCpuStats, prevNetStats, prevSampleTime, initialized)
    }

    constructor (interfaceName: string)
      ensures this.interfaceName == interfaceName && State() == InitialState
    {
      this.interfaceName := interfaceName;
      prevCpuStats := ZeroCpuStats;
      prevNetStats := NetStats(0, 0);
      prevSampleTime := ZeroTime;
      initialized := false;
    }

    method Collect(now: int, stat: Source, meminfo: Source, netdev: Source) returns (snap: Snapshot, err: Option<CollectError>)
      modifies this
      ensures (snap, err, State()) == CollectStep(old(State()), interfaceName, now, stat, meminfo, netdev)
    {
      snap := EmptySnapshot(now, interfaceName);
      var cpuUsage := CollectCpu(stat);
      if cpuUsage.Err? {
        return snap, Some(CollectError(CpuStage, cpuUsage.msg));
      }
      snap := snap.(cpuUsagePercent := cpuUsage.value);

      var memInfo := CollectMemory(meminfo);
      if memInfo.Err? {
        return snap, Some(CollectError(MemoryStage, memInfo.msg));
      }
      snap := snap.(memTotalBytes := memInfo.value.total, memUsedBytes := Sub64(memInfo.value.total, memInfo.value.available));
      snap := snap.(memUsedPercent := snap.memUsedBytes as real / memInfo.value.total as real * 100.0);

      var netInfo := CollectNetwork(netdev, now);
      if netInfo.Err? {
        return snap, Some(CollectError(NetworkStage, netInfo.msg));
      }
      snap := snap.(netRxBytesPS := netInfo.value.rxBytesPS, netTxBytesPS := netInfo.value.txBytesPS);
      snap := snap.(netRxMbps := netInfo.value.rxBytesPS * 8.0 / 1_000_000.0, netTxMbps := netInfo.value.txBytesPS * 8.0 / 1_000_000.0);
      err := None;
    }

    method CollectCpu(stat: Source) returns (r: Result<real>)
      modifies this
      ensures (r, State()) == CpuStep(old(State()), stat)
    {
      if stat.Unreadable? {
        return Err(stat.cause);
      }
      var lines := stat.lines;
      if |lines| == 0 {
        return Err("empty /proc/stat");
      }
      var fields := Fields(lines[0]);
      if |fields| < 8 || fields[0] != "cpu" {
        return Err("invalid cpu line");
      }
      var stats := CpuStats(ParseUint(fields[1]), ParseUint(fields[2]), ParseUint(fields[3]), ParseUint(fields[4]),
                            ParseUint(fields[5]), ParseUint(fields[6]), ParseUint(fields[7]), 0);
      if |fields| > 8 {
        stats := stats.(steal := ParseUint(fields[8]));
      }
      assert ReadCpu(stat) == Ok(stats);

      if !initialized {
        prevCpuStats := stats;
        initialized := true;
        return Ok(0.0);
      }

      var totalPrev := Total(prevCpuStats);
      var totalCurr := Total(stats);
      var idlePrev := IdleTotal(prevCpuStats);
      var idleCurr := IdleTotal(stats);
      var totalDelta := Sub64(totalCurr, totalPrev);
      var idleDelta := Sub64(idleCurr, idlePrev);

      if totalDelta == 0 {
        assert CpuUsage(prevCpuStats, stats) == 0.0;
        prevCpuStats := stats;
        return Ok(0.0);
      }

      var usage := (1.0 - idleDelta as real / totalDelta as real) * 100.0;
      assert usage == CpuUsage(prevCpuStats, stats);
      prevCpuStats := stats;
      return Ok(usage);
    }

    /** Scans the meminfo lines until both values are known; reads no state. */
    method CollectMemory(meminfo: Source) returns (r: Result<MemoryInfo>)
      ensures r == ReadMemory(meminfo)
    {
      if meminfo.Unreadable? {
        return Err(meminfo.cause);
      }
      var lines := meminfo.lines;
      var info := MemoryInfo(0, 0);
      var i := 0;
      while i < |lines|
        invariant 0 <= i <= |lines|
        invariant ScanMem(lines[i..], info) == ScanMem(lines, MemoryInfo(0, 0))
      {
        var line := lines[i];
        if HasPrefix(line, "MemTotal:") {
          var fields := Fields(line);
          if |fields| >= 2 {
            var val := ParseUint(fields[1]);
            info := info.(total := Mul64(val, 1024));
          }
        } else if HasPrefix(line, "MemAvailable:") {
          var fields := Fields(line);
          if |fields| >= 2 {
            var val := ParseUint(fields[1]);
            info := info.(available := Mul64(val, 1024));
          }
        }
        if info.total > 0 && info.available > 0 {
          break;
        }
        assert lines[i..][1..] == lines[i + 1..];
        i := i + 1;
      }

      if info.total == 0 {
        return Err("could not read MemTotal");
      }
      if info.available == 0 {
        info := info.(available := info.total);
      }
      return Ok(info);
    }

    method CollectNetwork(netdev: Source, now: int) returns (r: Result<NetworkInfo>)
      modifies this
      ensures (r, State()) == NetworkStep(old(State()), interfaceName, netdev, now)
    {
      if netdev.Unreadable? {
        return Err(netdev.cause);
      }
      var lines := netdev.lines;
      var rxBytes: u64, txBytes: u64 := 0, 0;
      var found := false;
      var i := 0;
      while i < |lines|
        invariant 0 <= i <= |lines|
        invariant FindInterface(lines[i..], interfaceName) == FindInterface(lines, interfaceName)
        invariant !found
      {
        var line := lines[i];
        if !Contains(line, interfaceName) {
          assert lines[i..][1..] == lines[i + 1..];
          i := i + 1;
          continue;
        }
        var fields := Fields(line);
        if |fields| < 10 {
          assert lines[i..][1..] == lines[i + 1..];
          i := i + 1;
          continue;
        }
        var interfacePart := fields[0];
        if !HasPrefix(interfacePart, interfaceName + ":") {
          assert lines[i..][1..] == lines[i + 1..];
          i := i + 1;
          continue;
        }
        rxBytes := ParseUint(fields[1]);
        txBytes := ParseUint(fields[9]);
        found := true;
        break;
      }

      if !found {
        return Err("interface " + interfaceName + " not found");
      }

      if !initialized || prevSampleTime.IsZero() {
        prevNetStats := NetStats(rxBytes, txBytes);
        prevSampleTime := At(now);
        return Ok(NetworkInfo(0.0, 0.0));
      }

      var deltaTime := (now - prevSampleTime.nanos) as real / NanosPerSecond as real;
      if deltaTime <= 0.0 {
        deltaTime := 1.0;
      }
      var rxDelta := Sub64(rxBytes, prevNetStats.rxBytes);
      var txDelta := Sub64(txBytes, prevNetStats.txBytes);
      var rxBytesPS := rxDelta as real / deltaTime;
      var txBytesPS := txDelta as real / deltaTime;
      assert deltaTime == ElapsedSeconds(prevSampleTime.nanos, now);
      assert NetworkInfo(rxBytesPS, txBytesPS) == NetworkInfo(Rate(prevNetStats.rxBytes, rxBytes, deltaTime), Rate(prevNetStats.txBytes, txBytes, deltaTime));

      prevNetStats := NetStats(rxBytes, txBytes);
      prevSampleTime := At(now);
      return Ok(NetworkInfo(rxBytesPS, txBytesPS));
    }
  }
}
