/** The alert engine: a detector like the spike detector (only the CPU rule
    looks at the previous snapshot), and the debouncer, which remembers when each
    category last admitted a script round and admits a category again only once
    its window has passed. Instants are nanosecond clock readings. */
module AlertEngine {
  import opened Base
  import opened Events
  import opened Metrics
  import Config

  /** The CPU rule: the absolute threshold is reached, or the usage rose by the
      relative threshold over a positive previous usage. */
  function DetectCpuAlert(cfg: Config.CpuAlert, current: Snapshot, previous: Snapshot): (fires: bool)
    ensures fires <==> current.cpuUsagePercent >= cfg.absoluteThreshold
                       || (previous.cpuUsagePercent > 0.0 && cfg.relativeThreshold > 0.0
                           && current.cpuUsagePercent * 100.0 >= previous.cpuUsagePercent * (100.0 + cfg.relativeThreshold))
  {
    RelativeRiseIff(current.cpuUsagePercent, previous.cpuUsagePercent, cfg.relativeThreshold);
    current.cpuUsagePercent >= cfg.absoluteThreshold
    || RelativeRise(current.cpuUsagePercent, previous.cpuUsagePercent, cfg.relativeThreshold)
  }

  /** The memory rule looks at the current snapshot only. */
  function DetectMemoryAlert(cfg: Config.MemoryAlert, current: Snapshot): bool {
    current.memUsedPercent >= cfg.absoluteThreshold
  }

  /** The network rule looks at the current snapshot only: either direction at
      or above its threshold. */
  function DetectNetworkAlert(cfg: Config.NetworkAlert, current: Snapshot): bool {
    current.netRxMbps >= cfg.rxMbpsThreshold || current.netTxMbps >= cfg.txMbpsThreshold
  }

  /** The alert categories of a tick: each enabled category whose rule fires, in
      the order cpu, memory, network, each at most once; nothing when every
      category is disabled. */
  function Detect(cfg: Config.Alerts, current: Snapshot, previous: Snapshot): (alerts: seq<string>)
    ensures InCategoryOrder(alerts)
    ensures "cpu" in alerts <==> cfg.cpu.enabled && DetectCpuAlert(cfg.cpu, current, previous)
    ensures "memory" in alerts <==> cfg.memory.enabled && current.memUsedPercent >= cfg.memory.absoluteThreshold
    ensures "network" in alerts
            <==> cfg.network.enabled && (current.netRxMbps >= cfg.network.rxMbpsThreshold || current.netTxMbps >= cfg.network.txMbpsThreshold)
    ensures !cfg.cpu.enabled && !cfg.memory.enabled && !cfg.network.enabled ==> alerts == []
  {
    Tripped(cfg.cpu.enabled && DetectCpuAlert(cfg.cpu, current, previous),
            cfg.memory.enabled && DetectMemoryAlert(cfg.memory, current),
            cfg.network.enabled && DetectNetworkAlert(cfg.network, current))
  }

  /** Memory and network alerts do not depend on the previous snapshot; with CPU
      alerts disabled, neither does the whole result. */
  lemma DetectIgnoresPreviousExceptCpu(cfg: Config.Alerts, current: Snapshot, p1: Snapshot, p2: Snapshot)
    ensures ("memory" in Detect(cfg, current, p1)) == ("memory" in Detect(cfg, current, p2))
    ensures ("network" in Detect(cfg, current, p1)) == ("network" in Detect(cfg, current, p2))
    ensures !cfg.cpu.enabled ==> Detect(cfg, current, p1) == Detect(cfg, current, p2)
  {
  }

  // ---------------------------------------------------------------- debouncer

  /** A category is admitted when it never fired, or when at least the window has
      passed since it last did (exactly the window counts as passed). */
  predicate Admits(lastFired: map<string, int>, c: string, now: int, window: int) {
    c !in lastFired || now - lastFired[c] >= window
  }

  /** The debouncer's walk over the alert list, in list order: an admitted
      category is stamped with now, and the round runs when any category was
      admitted. */
  function Debounce(lastFired: map<string, int>, alertTypes: seq<string>, now: int, window: int): (r: (bool, map<string, int>))
    ensures lastFired.Keys <= r.1.Keys
    decreases |alertTypes|
  {
    if alertTypes == [] then (false, lastFired)
    else
      var c := alertTypes[0];
      var admitted := Admits(lastFired, c, now, window);
      var next := if admitted then lastFired[c := now] else lastFired;
      var rest := Debounce(next, alertTypes[1..], now, window);
      (admitted || rest.0, rest.1)
  }

  function Elements(s: seq<string>): set<string> {
    set i | 0 <= i < |s| :: s[i]
  }

  /** The timestamps after a round, stated without the walk: a listed category
      that was admitted by the timestamps before the round now holds now; every
      other key keeps its old timestamp; every listed category is present. */
  function Stamped(lastFired: map<string, int>, alertTypes: seq<string>, now: int, window: int): map<string, int> {
    map k | k in lastFired.Keys + Elements(alertTypes) ::
      if k in Elements(alertTypes) && Admits(lastFired, k, now, window) then now else lastFired[k]
  }

  lemma ElementsCons(s: seq<string>)
    requires s != []
    ensures Elements(s) == {s[0]} + Elements(s[1..])
  {
    forall x | x in Elements(s) ensures x in {s[0]} + Elements(s[1..]) {
      var i :| 0 <= i < |s| && s[i] == x;
      if i > 0 {
        assert s[1..][i - 1] == x;
      }
    }
    forall x | x in Elements(s[1..]) ensures x in Elements(s) {
      var i :| 0 <= i < |s[1..]| && s[1..][i] == x;
      assert s[i + 1] == x;
    }
  }

  /** Whether the round runs, in closed form: exactly when some listed category
      is admitted by the timestamps before the round (a repeat of a category
      later in the list is judged against its new stamp, but then the round
      already runs). */
  lemma {:induction false} DebounceRunsClosed(lastFired: map<string, int>, alertTypes: seq<string>, now: int, window: int)
    ensures Debounce(lastFired, alertTypes, now, window).0
            <==> exists i :: 0 <= i < |alertTypes| && Admits(lastFired, alertTypes[i], now, window)
    decreases |alertTypes|
  {
    if alertTypes != [] {
      var c := alertTypes[0];
      var tail := alertTypes[1..];
      if Admits(lastFired, c, now, window) {
        assert Admits(lastFired, alertTypes[0], now, window);
      } else {
        DebounceRunsClosed(lastFired, tail, now, window);
        if exists i :: 0 <= i < |alertTypes| && Admits(lastFired, alertTypes[i], now, window) {
          var i :| 0 <= i < |alertTypes| && Admits(lastFired, alertTypes[i], now, window);
          assert i > 0 && Admits(lastFired, tail[i - 1], now, window);
        }
        if exists i :: 0 <= i < |tail| && Admits(lastFired, tail[i], now, window) {
          var i :| 0 <= i < |tail| && Admits(lastFired, tail[i], now, window);
          assert Admits(lastFired, alertTypes[i + 1], now, window);
        }
      }
    }
  }

  /** What is stored, in closed form: the walk ends with Stamped of the
      timestamps before the round. */
  lemma {:induction false} DebounceStampsClosed(lastFired: map<string, int>, alertTypes: seq<string>, now: int, window: int)
    ensures Debounce(lastFired, alertTypes, now, window).1 == Stamped(lastFired, alertTypes, now, window)
    decreases |alertTypes|
  {
    if alertTypes == [] {
      assert Stamped(lastFired, alertTypes, now, window) == lastFired;
    } else {
      var c := alertTypes[0];
      var tail := alertTypes[1..];
      var admitted := Admits(lastFired, c, now, window);
      var next := if admitted then lastFired[c := now] else lastFired;
      DebounceStampsClosed(next, tail, now, window);
      ElementsCons(alertTypes);
      StampedStep(lastFired, alertTypes, now, window);
    }
  }

  /** One step of the walk in terms of Stamped. */
  lemma StampedStep(lastFired: map<string, int>, alertTypes: seq<string>, now: int, window: int)
    requires alertTypes != []
    requires Elements(alertTypes) == {alertTypes[0]} + Elements(alertTypes[1..])
    ensures var c := alertTypes[0];
            var next := if Admits(lastFired, c, now, window) then lastFired[c := now] else lastFired;
            Stamped(next, alertTypes[1..], now, window) == Stamped(lastFired, alertTypes, now, window)
  {
    var c := alertTypes[0];
    var tail := alertTypes[1..];
    var next := if Admits(lastFired, c, now, window) then lastFired[c := now] else lastFired;
    var lhs := Stamped(next, tail, now, window);
    var rhs := Stamped(lastFired, alertTypes, now, window);
    assert lhs.Keys == rhs.Keys;
    forall k | k in lhs.Keys
      ensures lhs[k] == rhs[k]
    {
      if k != c {
        assert Admits(next, k, now, window) == Admits(lastFired, k, now, window);
      }
    }
  }

  /** The round runs exactly when a listed category is new or past its window. */
  lemma DebounceRunsIff(lastFired: map<string, int>, alertTypes: seq<string>, now: int, window: int)
    ensures Debounce(lastFired, alertTypes, now, window).0
            <==> exists i :: 0 <= i < |alertTypes| && (alertTypes[i] !in lastFired || now - lastFired[alertTypes[i]] >= window)
  {
    DebounceRunsClosed(lastFired, alertTypes, now, window);
  }

  /** Only admitted categories are stamped: a listed category still inside its
      window, and every key that is not listed, keeps its timestamp. */
  lemma DebounceStampsOnlyAdmitted(lastFired: map<string, int>, alertTypes: seq<string>, now: int, window: int, k: string)
    ensures var after := Debounce(lastFired, alertTypes, now, window).1;
            && (k in Elements(alertTypes) ==> k in after)
            && (k in Elements(alertTypes) && Admits(lastFired, k, now, window) ==> after[k] == now)
            && (k in lastFired && (k !in Elements(alertTypes) || !Admits(lastFired, k, now, window)) ==> after[k] == lastFired[k])
            && (k !in lastFired && k !in Elements(alertTypes) ==> k !in after)
  {
    DebounceStampsClosed(lastFired, alertTypes, now, window);
  }

  /** If no stored timestamp lies in the future, none does after a round either,
      and every listed category then has a timestamp. */
  lemma DebounceKeepsPast(lastFired: map<string, int>, alertTypes: seq<string>, now: int, window: int)
    requires forall k :: k in lastFired ==> lastFired[k] <= now
    ensures var after := Debounce(lastFired, alertTypes, now, window).1;
            (forall k :: k in after ==> after[k] <= now)
            && (forall i :: 0 <= i < |alertTypes| ==> alertTypes[i] in after)
  {
    DebounceStampsClosed(lastFired, alertTypes, now, window);
    var after := Debounce(lastFired, alertTypes, now, window).1;
    forall i | 0 <= i < |alertTypes| ensures alertTypes[i] in after {
      assert alertTypes[i] in Elements(alertTypes);
    }
  }

  /** An empty list never runs a round and stores nothing. */
  lemma DebounceEmpty(lastFired: map<string, int>, now: int, window: int)
    ensures Debounce(lastFired, [], now, window) == (false, lastFired)
  {
  }

  /** The engine object: its configuration and the time each category last
      admitted a script round. */
  class Engine {
    const cfg: Config.Config
    var lastFired: map<string, int>

    constructor (cfg: Config.Config)
      ensures this.cfg == cfg && lastFired == map[]
    {
      this.cfg := cfg;
      lastFired := map[];
    }

    /** The window in nanoseconds: the configured debounce seconds. */
    function Window(): int
      reads cfg
    {
      cfg.scripts.debounceSec * NanosPerSecond
    }

    /** Decides whether this tick's alerts start a script round, stamping each
        admitted category with now (a clock reading). */
    method ShouldExecuteScripts(alertTypes: seq<string>, now: int) returns (shouldExecute: bool)
      modifies this
      ensures (shouldExecute, lastFired) == Debounce(old(lastFired), alertTypes, now, Window())
      ensures alertTypes == [] ==> !shouldExecute && lastFired == old(lastFired)
    {
      if |alertTypes| == 0 {
        return false;
      }
      var debounceDur := cfg.scripts.debounceSec * NanosPerSecond;
      shouldExecute := false;
      var i := 0;
      while i < |alertTypes|
        invariant 0 <= i <= |alertTypes|
        invariant Debounce(old(lastFired), alertTypes, now, debounceDur)
                  == (shouldExecute || Debounce(lastFired, alertTypes[i..], now, debounceDur).0,
                      Debounce(lastFired, alertTypes[i..], now, debounceDur).1)
      {
        var alertType := alertTypes[i];
        assert alertTypes[i..][1..] == alertTypes[i + 1..];
        if alertType !in lastFired || now - lastFired[alertType] >= debounceDur {
          shouldExecute := true;
          lastFired := lastFired[alertType := now];
        }
        i := i + 1;
      }
    }
  }
}
