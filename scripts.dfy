/** The script runner: on an alert round it writes the round's variables to the
    env file, finds the executable shell scripts of the scripts directory and
    runs them one after the other with those variables, stopping at the first
    one that fails. */
module ScriptRunner {
  import opened Base
  import opened Text
  import Clock
  import Config
  import Events
  import opened Metrics

  /** The variables a round exports. */
  datatype EnvVar =
    | Timestamp | EventType | EventMetric | CpuUsage | MemUsedPercent | MemUsedBytes
    | MemTotalBytes | NetInterface | NetRxBps | NetTxBps | NetRxMbps | NetTxMbps

  /** The name a variable is exported under. */
  function Name(v: EnvVar): string {
    match v
    case Timestamp => "SYS_TIMESTAMP"
    case EventType => "SYS_EVENT_TYPE"
    case EventMetric => "SYS_EVENT_METRIC"
    case CpuUsage => "SYS_CPU_USAGE"
    case MemUsedPercent => "SYS_MEM_USED_PERCENT"
    case MemUsedBytes => "SYS_MEM_USED_BYTES"
    case MemTotalBytes => "SYS_MEM_TOTAL_BYTES"
    case NetInterface => "SYS_NET_INTERFACE"
    case NetRxBps => "SYS_NET_RX_BPS"
    case NetTxBps => "SYS_NET_TX_BPS"
    case NetRxMbps => "SYS_NET_RX_MBPS"
    case NetTxMbps => "SYS_NET_TX_MBPS"
  }

  const AllVars: set<EnvVar> := {
    Timestamp, EventType, EventMetric, CpuUsage, MemUsedPercent, MemUsedBytes,
    MemTotalBytes, NetInterface, NetRxBps, NetTxBps, NetRxMbps, NetTxMbps}

  /** There are twelve variables. */
  lemma AllVarsCount()
    ensures |AllVars| == 12
  {
    var rest := AllVars - {Timestamp, EventType, EventMetric, CpuUsage, MemUsedPercent, MemUsedBytes};
    assert rest == {MemTotalBytes, NetInterface, NetRxBps, NetTxBps, NetRxMbps, NetTxMbps};
  }

  /** No two variables are exported under the same name. */
  lemma NamesInjective(v: EnvVar, w: EnvVar)
    ensures Name(v) == Name(w) ==> v == w
  {
    if Name(v) == Name(w) {
      var a, b := Name(v), Name(w);
      assert |a| == |b| && a[4] == b[4] && a[8] == b[8] && a[12] == b[12];
    }
  }

  /** No name contains '=', so an env file line splits back at its first '='. */
  lemma NameHasNoEquals(v: EnvVar)
    ensures v in AllVars && '=' !in Name(v)
  {
  }

  /** The renderings a round uses: time stands for Time.Format(time.RFC3339)
      (Clock.Rfc3339 in the daemon) and float for strconv.FormatFloat(x, 'f',
      2, 64), two decimals, whose digits are not modelled. */
  datatype Formats = Formats(time: Time -> string, float: real -> string)

  /** The variables of a round, each with its value. */
  function BuildEnv(alertTypes: seq<string>, snap: Snapshot, formats: Formats): (env: map<EnvVar, string>)
    ensures env.Keys == AllVars
  {
    map v | v in AllVars :: EnvValue(v, alertTypes, snap, formats)
  }

  /** The value a round gives a variable. */
  function EnvValue(v: EnvVar, alertTypes: seq<string>, snap: Snapshot, formats: Formats): string {
    match v
    case Timestamp => formats.time(snap.timestamp)
    case EventType => "alert"
    case EventMetric => Events.MetricFor(alertTypes)
    case CpuUsage => formats.float(snap.cpuUsagePercent)
    case MemUsedPercent => formats.float(snap.memUsedPercent)
    case MemUsedBytes => FormatUint(snap.memUsedBytes)
    case MemTotalBytes => FormatUint(snap.memTotalBytes)
    case NetInterface => snap.netInterface
    case NetRxBps => formats.float(snap.netRxBytesPS)
    case NetTxBps => formats.float(snap.netTxBytesPS)
    case NetRxMbps => formats.float(snap.netRxMbps)
    case NetTxMbps => formats.float(snap.netTxMbps)
  }

  /** A round exports exactly twelve variables; the event type is "alert",
      the interface is the snapshot's unchanged, and the metric follows the
      naming rule: for the alert engine's output it is "multi" exactly when the
      round is not about a single category. */
  lemma EnvShape(alertTypes: seq<string>, snap: Snapshot, formats: Formats)
    requires Events.InCategoryOrder(alertTypes)
    ensures |BuildEnv(alertTypes, snap, formats)| == 12
    ensures BuildEnv(alertTypes, snap, formats)[EventType] == "alert"
    ensures BuildEnv(alertTypes, snap, formats)[NetInterface] == snap.netInterface
    ensures BuildEnv(alertTypes, snap, formats)[EventMetric] == Events.MetricFor(alertTypes)
    ensures BuildEnv(alertTypes, snap, formats)[EventMetric] == "multi" <==> |alertTypes| != 1
  {
    Events.MetricIsMultiIff(alertTypes);
    var env := BuildEnv(alertTypes, snap, formats);
    assert |env| == |env.Keys|;
    AllVarsCount();
  }

  /** The byte counts are written in plain decimal, so they read back exactly. */
  lemma EnvCountsReadBack(alertTypes: seq<string>, snap: Snapshot, formats: Formats)
    ensures ParseUint(BuildEnv(alertTypes, snap, formats)[MemUsedBytes]) == snap.memUsedBytes
    ensures ParseUint(BuildEnv(alertTypes, snap, formats)[MemTotalBytes]) == snap.memTotalBytes
  {
    ParseFormatRoundTrip(snap.memUsedBytes);
    ParseFormatRoundTrip(snap.memTotalBytes);
  }

  // ---------------------------------------------------------------------------
  // The env file

  /** One line of the env file, without its newline: NAME=VALUE. */
  function EnvLine(name: string, value: string): string {
    name + "=" + value
  }

  /** The lines written for the keys of env in the order given. */
  function EnvLines(env: map<EnvVar, string>, order: seq<EnvVar>): (lines: seq<string>)
    requires forall i :: 0 <= i < |order| ==> order[i] in env
    ensures |lines| == |order|
  {
    if order == [] then []
    else
      var last := order[|order| - 1];
      EnvLines(env, order[..|order| - 1]) + [EnvLine(Name(last), env[last])]
  }

  /** order lists every key of the map exactly once. */
  predicate IsOrdering(order: seq<EnvVar>, keys: set<EnvVar>) {
    && (forall i :: 0 <= i < |order| ==> order[i] in keys)
    && (forall k :: k in keys ==> k in order)
    && (forall i, j :: 0 <= i < j < |order| ==> order[i] != order[j])
  }

  /** Part way through writing: order lists distinct keys not yet remaining,
      and every key is either remaining or listed. */
  ghost predicate WritingOrder(order: seq<EnvVar>, remaining: set<EnvVar>, keys: set<EnvVar>) {
    && remaining <= keys
    && (forall i :: 0 <= i < |order| ==> order[i] in keys && order[i] !in remaining)
    && (forall k :: k in keys ==> k in remaining || k in order)
    && (forall i, j :: 0 <= i < j < |order| ==> order[i] != order[j])
  }

  /** Writing one remaining key keeps the order well formed. */
  lemma WritingStep(order: seq<EnvVar>, remaining: set<EnvVar>, keys: set<EnvVar>, key: EnvVar)
    requires WritingOrder(order, remaining, keys) && key in remaining
    ensures WritingOrder(order + [key], remaining - {key}, keys)
  {
    var next := order + [key];
    assert forall i :: 0 <= i < |order| ==> next[i] == order[i];
    assert next[|order|] == key;
    forall k | k in keys
      ensures k in remaining - {key} || k in next
    {
      if k == key {
        assert next[|order|] == k;
      } else if k !in remaining {
        assert k in order;
        var i :| 0 <= i < |order| && order[i] == k;
        assert next[i] == k;
      }
    }
  }

  /** With nothing remaining, the order lists every key exactly once. */
  lemma WritingDone(order: seq<EnvVar>, keys: set<EnvVar>)
    requires WritingOrder(order, {}, keys)
    ensures IsOrdering(order, keys)
  {
  }

  /** Writing one more variable appends its line. */
  lemma EnvLinesSnoc(env: map<EnvVar, string>, order: seq<EnvVar>, key: EnvVar)
    requires forall i :: 0 <= i < |order| ==> order[i] in env
    requires key in env
    ensures forall i :: 0 <= i < |order + [key]| ==> (order + [key])[i] in env
    ensures EnvLines(env, order + [key]) == EnvLines(env, order) + [EnvLine(Name(key), env[key])]
  {
    assert (order + [key])[..|order|] == order;
  }

  /** Where the first '=' of a line is (|s| when there is none). */
  function FirstEquals(s: string): (n: nat)
    ensures n <= |s|
    ensures forall i :: 0 <= i < n ==> s[i] != '='
    ensures n < |s| ==> s[n] == '='
  {
    if s == [] || s[0] == '=' then 0 else 1 + FirstEquals(s[1..])
  }

  /** A KEY=VALUE line read back: split at the first '='. */
  function SplitAssignment(line: string): (string, string) {
    var n := FirstEquals(line);
    if n == |line| then (line, "") else (line[..n], line[n + 1..])
  }

  /** Reading a line back gives its name and value, for a name without '='. */
  lemma SplitEnvLine(name: string, value: string)
    requires '=' !in name
    ensures SplitAssignment(EnvLine(name, value)) == (name, value)
  {
    var line := EnvLine(name, value);
    assert line[|name|] == '=';
    assert forall i :: 0 <= i < |name| ==> line[i] == name[i];
    assert line[..|name|] == name && line[|name| + 1..] == value;
  }

  /** Line i of the env file is the line of the i-th variable written. */
  lemma {:induction false} EnvLinesIndex(env: map<EnvVar, string>, order: seq<EnvVar>, i: int)
    requires forall j :: 0 <= j < |order| ==> order[j] in env
    requires 0 <= i < |order|
    ensures EnvLines(env, order)[i] == EnvLine(Name(order[i]), env[order[i]])
  {
    var init := order[..|order| - 1];
    if i < |init| {
      EnvLinesIndex(env, init, i);
      assert init[i] == order[i];
      assert EnvLines(env, order)[i] == EnvLines(env, init)[i];
    }
  }

  /** The env file read back line by line gives every variable of the round
      under its name with its value. */
  lemma EnvFileReadsBack(env: map<EnvVar, string>, order: seq<EnvVar>, i: int)
    requires forall j :: 0 <= j < |order| ==> order[j] in env
    requires 0 <= i < |order|
    ensures SplitAssignment(EnvLines(env, order)[i]) == (Name(order[i]), env[order[i]])
  {
    EnvLinesIndex(env, order, i);
    NameHasNoEquals(order[i]);
    SplitEnvLine(Name(order[i]), env[order[i]]);
  }

  // ---------------------------------------------------------------------------
  // Script discovery

  /** One entry of the scripts directory; mode is none when entry.Info() fails. */
  datatype ScriptEntry = ScriptEntry(name: string, isDir: bool, mode: Option<bv32>)

  /** The permission bits 0111: execute for owner, group and other. */
  const ExecuteBits: bv32 := 0x49

  /** A runnable script: a readable non-directory whose name ends in ".sh" and
      with some execute bit set. */
  predicate IsScript(e: ScriptEntry) {
    !e.isDir && HasSuffix(e.name, ".sh") && e.mode.Some? && e.mode.value & ExecuteBits != 0
  }

  /** The execute test holds iff the owner, the group or others may execute. */
  lemma ExecuteBitsIff(mode: bv32)
    ensures mode & ExecuteBits != 0 <==> mode & 0x40 != 0 || mode & 0x8 != 0 || mode & 0x1 != 0
  {
  }

  /** The scripts found in a listing: the runnable ones, joined to the
      directory, in listing order. */
  function Selected(dir: string, es: seq<ScriptEntry>): seq<string> {
    if es == [] then []
    else
      var last := es[|es| - 1];
      Selected(dir, es[..|es| - 1]) + (if IsScript(last) then [JoinPath(dir, last.name)] else [])
  }

  /** Discovery keeps the listing order: the scripts of two runs of entries are
      those of the first followed by those of the second. */
  lemma {:induction false} SelectedAppend(dir: string, a: seq<ScriptEntry>, b: seq<ScriptEntry>)
    ensures Selected(dir, a + b) == Selected(dir, a) + Selected(dir, b)
  {
    if b != [] {
      var b' := b[..|b| - 1];
      SelectedAppend(dir, a, b');
      assert (a + b)[..|a + b| - 1] == a + b';
    } else {
      assert a + b == a;
    }
  }

  /** Exactly the runnable entries are selected: a single entry gives its
      path iff it is a script. */
  lemma SelectedOne(dir: string, e: ScriptEntry)
    ensures Selected(dir, [e]) == if IsScript(e) then [JoinPath(dir, e.name)] else []
  {
    assert [e][..0] == [];
  }

  /** Every selected path belongs to a runnable entry of the listing. */
  lemma {:induction false} SelectedFromScript(dir: string, es: seq<ScriptEntry>, k: int) returns (j: int)
    requires 0 <= k < |Selected(dir, es)|
    ensures 0 <= j < |es| && IsScript(es[j]) && Selected(dir, es)[k] == JoinPath(dir, es[j].name)
  {
    var init := es[..|es| - 1];
    if k < |Selected(dir, init)| {
      j := SelectedFromScript(dir, init, k);
    } else {
      j := |es| - 1;
    }
  }

  /** Every runnable entry of the listing is selected. */
  lemma {:induction false} ScriptIsSelected(dir: string, es: seq<ScriptEntry>, j: int)
    requires 0 <= j < |es| && IsScript(es[j])
    ensures JoinPath(dir, es[j].name) in Selected(dir, es)
  {
    var init := es[..|es| - 1];
    if j < |init| {
      ScriptIsSelected(dir, init, j);
    }
  }

  // ---------------------------------------------------------------------------
  // Running scripts

  /** How a script ended: its exit status, or a failure to run it at all. A
      timeout kills the script, which then ends with a non-zero status. */
  datatype Outcome = Exited(code: int) | NotRun(cause: string)

  predicate Succeeded(o: Outcome) {
    o == Exited(0)
  }

  /** One script started with the round's variables. */
  datatype Invocation = Invocation(script: string, env: map<EnvVar, string>)

  /** strconv.Itoa. */
  function FormatInt(n: int): string {
    if n < 0 then "-" + FormatUint(-n) else FormatUint(n)
  }

  function FailureMessage(script: string, o: Outcome): string {
    "script " + script + " failed: " + (match o case Exited(code) => "exit code " + FormatInt(code) case NotRun(cause) => cause)
  }

  /** The scripts of a round run in order until one fails: the invocations
      made and the error returned. */
  function RunAll(scripts: seq<string>, env: map<EnvVar, string>, outcome: string -> Outcome)
    : (r: (seq<Invocation>, Option<string>))
    ensures |r.0| <= |scripts|
  {
    if scripts == [] then ([], None)
    else if !Succeeded(outcome(scripts[0])) then
      ([Invocation(scripts[0], env)], Some(FailureMessage(scripts[0], outcome(scripts[0]))))
    else
      var (ran, err) := RunAll(scripts[1..], env, outcome);
      ([Invocation(scripts[0], env)] + ran, err)
  }

  /** One step of a round: the script at i runs, and the round goes on after
      it only if it succeeded. */
  lemma RunAllStep(scripts: seq<string>, i: int, env: map<EnvVar, string>, outcome: string -> Outcome)
    requires 0 <= i < |scripts|
    ensures RunAll(scripts[i..], env, outcome) ==
            if !Succeeded(outcome(scripts[i])) then
              ([Invocation(scripts[i], env)], Some(FailureMessage(scripts[i], outcome(scripts[i]))))
            else
              ([Invocation(scripts[i], env)] + RunAll(scripts[i + 1..], env, outcome).0,
               RunAll(scripts[i + 1..], env, outcome).1)
  {
    assert scripts[i..][0] == scripts[i];
    assert scripts[i..][1..] == scripts[i + 1..];
  }

  /** Part way through a round, after the scripts before i ran (and
      succeeded): the round is what has started followed by the rest. */
  ghost predicate RoundAt(scripts: seq<string>, i: int, started: seq<Invocation>,
                          env: map<EnvVar, string>, outcome: string -> Outcome)
    requires 0 <= i <= |scripts|
  {
    RunAll(scripts, env, outcome) ==
      (started + RunAll(scripts[i..], env, outcome).0, RunAll(scripts[i..], env, outcome).1)
  }

  lemma RoundStart(scripts: seq<string>, env: map<EnvVar, string>, outcome: string -> Outcome)
    ensures RoundAt(scripts, 0, [], env, outcome)
  {
    assert scripts[0..] == scripts;
    var r := RunAll(scripts, env, outcome);
    assert [] + r.0 == r.0;
  }

  /** The script at i succeeded: the round goes on with it started. */
  lemma RoundNext(scripts: seq<string>, i: int, started: seq<Invocation>,
                  env: map<EnvVar, string>, outcome: string -> Outcome)
    requires 0 <= i < |scripts| && RoundAt(scripts, i, started, env, outcome)
    requires Succeeded(outcome(scripts[i]))
    ensures RoundAt(scripts, i + 1, started + [Invocation(scripts[i], env)], env, outcome)
  {
    RunAllStep(scripts, i, env, outcome);
    var rest := RunAll(scripts[i + 1..], env, outcome);
    var first := [Invocation(scripts[i], env)];
    assert RunAll(scripts[i..], env, outcome) == (first + rest.0, rest.1);
    assert started + (first + rest.0) == (started + first) + rest.0;
  }

  /** The script at i failed: the round ends with it, reporting its failure. */
  lemma RoundFail(scripts: seq<string>, i: int, started: seq<Invocation>,
                  env: map<EnvVar, string>, outcome: string -> Outcome)
    requires 0 <= i < |scripts| && RoundAt(scripts, i, started, env, outcome)
    requires !Succeeded(outcome(scripts[i]))
    ensures RunAll(scripts, env, outcome) ==
            (started + [Invocation(scripts[i], env)], Some(FailureMessage(scripts[i], outcome(scripts[i]))))
  {
    RunAllStep(scripts, i, env, outcome);
  }

  lemma RoundEnd(scripts: seq<string>, started: seq<Invocation>, env: map<EnvVar, string>, outcome: string -> Outcome)
    requires RoundAt(scripts, |scripts|, started, env, outcome)
    ensures RunAll(scripts, env, outcome) == (started, None)
  {
    assert scripts[|scripts|..] == [];
    assert started + [] == started;
  }

  /** A round succeeds iff every script succeeds, and then every script ran, in
      order, with the round's variables. */
  lemma {:induction false} RunAllSucceedsIff(scripts: seq<string>, env: map<EnvVar, string>, outcome: string -> Outcome)
    ensures RunAll(scripts, env, outcome).1 == None <==> forall i :: 0 <= i < |scripts| ==> Succeeded(outcome(scripts[i]))
    ensures RunAll(scripts, env, outcome).1 == None ==>
            RunAll(scripts, env, outcome).0 == seq(|scripts|, i requires 0 <= i < |scripts| => Invocation(scripts[i], env))
  {
    if scripts != [] {
      RunAllSucceedsIff(scripts[1..], env, outcome);
      if forall i :: 0 <= i < |scripts| ==> Succeeded(outcome(scripts[i])) {
        assert forall i :: 0 <= i < |scripts| - 1 ==> scripts[1..][i] == scripts[i + 1];
      }
      if !Succeeded(outcome(scripts[0])) {
        assert !(forall i :: 0 <= i < |scripts| ==> Succeeded(outcome(scripts[i])));
      }
    }
  }

  /** A failing round stopped at its first failing script: every script before
      it succeeded, it ran, none after it did, and the error names it. */
  lemma {:induction false} RunAllStopsAtFirstFailure(scripts: seq<string>, env: map<EnvVar, string>, outcome: string -> Outcome)
    returns (j: int)
    requires RunAll(scripts, env, outcome).1.Some?
    ensures 0 <= j < |scripts| && !Succeeded(outcome(scripts[j]))
    ensures forall i :: 0 <= i < j ==> Succeeded(outcome(scripts[i]))
    ensures RunAll(scripts, env, outcome).0 == seq(j + 1, i requires 0 <= i <= j => Invocation(scripts[i], env))
    ensures RunAll(scripts, env, outcome).1 == Some(FailureMessage(scripts[j], outcome(scripts[j])))
  {
    if !Succeeded(outcome(scripts[0])) {
      j := 0;
    } else {
      var j' := RunAllStopsAtFirstFailure(scripts[1..], env, outcome);
      j := j' + 1;
      forall i | 0 <= i < j
        ensures Succeeded(outcome(scripts[i]))
      {
        if i > 0 {
          assert scripts[1..][i - 1] == scripts[i];
        }
      }
    }
  }

  // ---------------------------------------------------------------------------
  // The runner

  /** The runner's effects on the world: the env file's lines and the scripts
      started so far. */
  class Runner {
    const cfg: Config.Config
    var envFile: seq<string>
    var invocations: seq<Invocation>

    constructor (cfg: Config.Config, envFile: seq<string>)
      ensures this.cfg == cfg && this.envFile == envFile && invocations == []
    {
      this.cfg := cfg;
      this.envFile := envFile;
      invocations := [];
    }

    /** writeEnvFile: when the file can be created it is truncated and gets one
        KEY=VALUE line per variable, in the map's iteration order (unspecified:
        order is the order chosen). */
    method WriteEnvFile(alertTypes: seq<string>, snap: Snapshot, formats: Formats, writable: bool)
      returns (ok: bool, order: seq<EnvVar>)
      modifies this
      ensures ok == writable
      ensures ok ==> IsOrdering(order, AllVars) && envFile == EnvLines(BuildEnv(alertTypes, snap, formats), order)
      ensures !ok ==> envFile == old(envFile)
      ensures invocations == old(invocations)
    {
      var env := BuildEnv(alertTypes, snap, formats);
      order := [];
      if !writable {
        return false, order;
      }
      envFile := [];
      var remaining := env.Keys;
      while remaining != {}
        invariant WritingOrder(order, remaining, env.Keys)
        invariant envFile == EnvLines(env, order)
        invariant invocations == old(invocations)
        decreases |remaining|
      {
        var key :| key in remaining;
        WritingStep(order, remaining, env.Keys, key);
        EnvLinesSnoc(env, order, key);
        envFile := envFile + [EnvLine(Name(key), env[key])];
        order := order + [key];
        remaining := remaining - {key};
      }
      WritingDone(order, env.Keys);
      return true, order;
    }

    /** findScripts over a listing of the scripts directory (none when it
        cannot be read). */
    method FindScripts(listing: Option<seq<ScriptEntry>>) returns (scripts: Result<seq<string>>)
      ensures listing.None? ==> scripts.Err?
      ensures listing.Some? ==> scripts == Ok(Selected(cfg.scripts.dir, listing.value))
    {
      if listing.None? {
        return Err("failed to find scripts");
      }
      var es := listing.value;
      var found := [];
      var i := 0;
      while i < |es|
        invariant 0 <= i <= |es|
        invariant found == Selected(cfg.scripts.dir, es[..i])
      {
        var entry := es[i];
        assert es[..i + 1][..i] == es[..i];
        if !entry.isDir && HasSuffix(entry.name, ".sh") && entry.mode.Some? && entry.mode.value & 0x49 != 0 {
          found := found + [JoinPath(cfg.scripts.dir, entry.name)];
        }
        i := i + 1;
      }
      assert es[..i] == es;
      return Ok(found);
    }

    /** The loop of Execute: each script is started with the round's variables
        in turn, and the first failure ends the round with its error. */
    method RunScripts(scripts: seq<string>, env: map<EnvVar, string>, outcome: string -> Outcome)
      returns (err: Option<string>)
      modifies this
      ensures invocations == old(invocations) + RunAll(scripts, env, outcome).0
      ensures err == RunAll(scripts, env, outcome).1
      ensures envFile == old(envFile)
    {
      var i := 0;
      ghost var started: seq<Invocation> := [];
      RoundStart(scripts, env, outcome);
      while i < |scripts|
        invariant 0 <= i <= |scripts|
        invariant invocations == old(invocations) + started
        invariant RoundAt(scripts, i, started, env, outcome)
        invariant envFile == old(envFile)
      {
        var script := scripts[i];
        var o := outcome(script);
        if !Succeeded(o) {
          RoundFail(scripts, i, started, env, outcome);
          invocations := invocations + [Invocation(script, env)];
          return Some(FailureMessage(script, o));
        }
        RoundNext(scripts, i, started, env, outcome);
        invocations := invocations + [Invocation(script, env)];
        started := started + [Invocation(script, env)];
        i := i + 1;
      }
      RoundEnd(scripts, started, env, outcome);
      return None;
    }

    /** Execute: write the env file, find the scripts, then run them in order
        and stop at the first failure. Nothing runs when the env file cannot be
        written or the directory cannot be listed. */
    method Execute(alertTypes: seq<string>, snap: Snapshot, formats: Formats, writable: bool,
                   listing: Option<seq<ScriptEntry>>, outcome: string -> Outcome)
      returns (err: Option<string>, order: seq<EnvVar>)
      modifies this
      ensures !writable ==> err == Some("failed to write env file") && envFile == old(envFile)
      ensures writable ==> IsOrdering(order, AllVars) && envFile == EnvLines(BuildEnv(alertTypes, snap, formats), order)
      ensures writable && listing.None? ==> err == Some("failed to find scripts")
      ensures !writable || listing.None? ==> invocations == old(invocations)
      ensures writable && listing.Some? ==>
              invocations == old(invocations) + RunAll(Selected(cfg.scripts.dir, listing.value), BuildEnv(alertTypes, snap, formats), outcome).0
              && err == RunAll(Selected(cfg.scripts.dir, listing.value), BuildEnv(alertTypes, snap, formats), outcome).1
    {
      var ok;
      ok, order := WriteEnvFile(alertTypes, snap, formats, writable);
      if !ok {
        return Some("failed to write env file"), order;
      }
      var found := FindScripts(listing);
      if found.Err? {
        return Some("failed to find scripts"), order;
      }
      var env := BuildEnv(alertTypes, snap, formats);
      err := RunScripts(found.value, env, outcome);
    }
  }
}
