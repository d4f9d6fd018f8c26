/** The daemon's tick: one pass of the main loop. It takes a collected
    snapshot, logs a spike event and an alert event when the detectors report
    categories, asks the debouncer whether the alerts start a script round,
    logs a throttled sample, and remembers the snapshot for the next tick. The
    collector, the logger and the script runner are collaborators whose calls
    the tick records as effects, in the order the loop makes them. */
module Sentinel {
  import opened Base
  import opened Metrics
  import Config
  import SpikeDetector
  import AlertEngine

  /** What a tick asks of its collaborators, in order. */
  datatype Effect =
    | SpikeLogged(snap: Snapshot, spikeTypes: seq<string>)
    | AlertLogged(snap: Snapshot, alertTypes: seq<string>)
    | ScriptsDispatched(alertTypes: seq<string>, snap: Snapshot)
    | SampleLogged(snap: Snapshot)

  /** The position of an effect within a tick. */
  function Stage(e: Effect): nat {
    match e
    case SpikeLogged(_, _) => 0
    case AlertLogged(_, _) => 1
    case ScriptsDispatched(_, _) => 2
    case SampleLogged(_) => 3
  }

  /** Effects in tick order, each kind at most once. */
  predicate InTickOrder(out: seq<Effect>) {
    forall i, j :: 0 <= i < j < |out| ==> Stage(out[i]) < Stage(out[j])
  }

  /** The loop's own state, and the debouncer's timestamps it drives. */
  datatype TickState = TickState(lastSnapshot: Snapshot, lastWriteTime: Time, lastFired: map<string, int>)

  /** Before the first tick: the zero snapshot, no sample written yet, and no
      category ever admitted. */
  const InitialTick: TickState := TickState(ZeroSnapshot, ZeroTime, map[])

  /** A sample is due when none was written yet, or when at least the
      collection interval has passed since the last one. */
  predicate SampleDue(lastWriteTime: Time, now: int, interval: int) {
    lastWriteTime.IsZero() || now - lastWriteTime.nanos >= interval
  }

  /** The spike event of a tick, when there are spike categories. */
  function SpikeEvents(snap: Snapshot, s: seq<string>): seq<Effect> {
    if s != [] then [SpikeLogged(snap, s)] else []
  }

  /** The alert event of a tick, when there are alert categories, followed by
      a script round when the debouncer admitted one. */
  function AlertEvents(snap: Snapshot, a: seq<string>, run: bool): seq<Effect> {
    if a != [] then [AlertLogged(snap, a)] + (if run then [ScriptsDispatched(a, snap)] else []) else []
  }

  /** The sample of a tick, when one is due. */
  function SampleEvents(snap: Snapshot, due: bool): seq<Effect> {
    if due then [SampleLogged(snap)] else []
  }

  /** The calls of a successful tick. */
  function TickEffects(snap: Snapshot, s: seq<string>, a: seq<string>, run: bool, due: bool): seq<Effect> {
    SpikeEvents(snap, s) + AlertEvents(snap, a, run) + SampleEvents(snap, due)
  }

  /** Two runs of calls in tick order, the first entirely before the second,
      make one run in tick order. */
  lemma OrderedConcat(x: seq<Effect>, y: seq<Effect>, cut: nat)
    requires InTickOrder(x) && InTickOrder(y)
    requires forall i :: 0 <= i < |x| ==> Stage(x[i]) < cut
    requires forall j :: 0 <= j < |y| ==> cut <= Stage(y[j])
    ensures InTickOrder(x + y)
  {
    var xy := x + y;
    forall i, j | 0 <= i < j < |xy|
      ensures Stage(xy[i]) < Stage(xy[j])
    {
      if j < |x| {
        assert xy[i] == x[i] && xy[j] == x[j];
      } else if i < |x| {
        assert xy[i] == x[i] && xy[j] == y[j - |x|];
      } else {
        assert xy[i] == y[i - |x|] && xy[j] == y[j - |x|];
      }
    }
  }

  /** The calls of a successful tick are in tick order. */
  lemma TickEffectsOrdered(snap: Snapshot, s: seq<string>, a: seq<string>, run: bool, due: bool)
    ensures InTickOrder(TickEffects(snap, s, a, run, due))
  {
    var sp, al, sa := SpikeEvents(snap, s), AlertEvents(snap, a, run), SampleEvents(snap, due);
    assert forall i :: 0 <= i < |al| ==> 1 <= Stage(al[i]) <= 2;
    OrderedConcat(sp, al, 1);
    OrderedConcat(sp + al, sa, 3);
  }

  /** Each call of a successful tick is present exactly when its condition
      holds, and there are no others. */
  lemma TickEffectsMembers(snap: Snapshot, s: seq<string>, a: seq<string>, run: bool, due: bool)
    ensures var out := TickEffects(snap, s, a, run, due);
            && (SpikeLogged(snap, s) in out <==> s != [])
            && (AlertLogged(snap, a) in out <==> a != [])
            && (ScriptsDispatched(a, snap) in out <==> a != [] && run)
            && (SampleLogged(snap) in out <==> due)
            && (forall e :: e in out ==>
                  (e == SpikeLogged(snap, s) || e == AlertLogged(snap, a) || e == ScriptsDispatched(a, snap) || e == SampleLogged(snap)))
  {
    var sp, al, sa := SpikeEvents(snap, s), AlertEvents(snap, a, run), SampleEvents(snap, due);
    assert TickEffects(snap, s, a, run, due) == sp + al + sa;
    assert AlertLogged(snap, a) in al <==> a != [];
    assert ScriptsDispatched(a, snap) in al <==> a != [] && run;
  }

  /** Both facts about the calls of a successful tick together. */
  lemma TickEffectsShape(snap: Snapshot, s: seq<string>, a: seq<string>, run: bool, due: bool)
    ensures var out := TickEffects(snap, s, a, run, due);
            && InTickOrder(out)
            && (SpikeLogged(snap, s) in out <==> s != [])
            && (AlertLogged(snap, a) in out <==> a != [])
            && (ScriptsDispatched(a, snap) in out <==> a != [] && run)
            && (SampleLogged(snap) in out <==> due)
  {
    TickEffectsOrdered(snap, s, a, run, due);
    TickEffectsMembers(snap, s, a, run, due);
  }

  /** A round is dispatched only right after the alert event it belongs to. */
  lemma DispatchFollowsAlertEvent(snap: Snapshot, s: seq<string>, a: seq<string>, run: bool, due: bool, i: int)
    requires 0 <= i < |TickEffects(snap, s, a, run, due)| && TickEffects(snap, s, a, run, due)[i].ScriptsDispatched?
    ensures 0 < i && TickEffects(snap, s, a, run, due)[i - 1] == AlertLogged(snap, a) && a != []
  {
    var spikeOut := if s != [] then [SpikeLogged(snap, s)] else [];
    var out := TickEffects(snap, s, a, run, due);
    TickEffectsShape(snap, s, a, run, due);
    assert out[i] in out;
    assert a != [] && run;
    assert out == spikeOut + [AlertLogged(snap, a), ScriptsDispatched(a, snap)] + SampleEvents(snap, due);
    assert i == |spikeOut| + 1;
  }

  /** The debouncer is consulted only when there are alerts. */
  function Round(lastFired: map<string, int>, a: seq<string>, now: int, window: int): (r: (bool, map<string, int>))
    ensures a == [] ==> r == (false, lastFired)
    ensures a != [] ==> r == AlertEngine.Debounce(lastFired, a, now, window)
  {
    if a != [] then AlertEngine.Debounce(lastFired, a, now, window) else (false, lastFired)
  }

  /** One tick. err is the collector's error (the snapshot is then ignored),
      now the clock reading, window the debounce window and interval the
      collection interval, both in nanoseconds. */
  function TickStep(spikes: Config.Spikes, alerts: Config.Alerts, window: int, interval: int,
                    st: TickState, snap: Snapshot, err: Option<CollectError>, now: int)
    : (r: (TickState, seq<Effect>))
    ensures err.Some? ==> r == (st, [])
  {
    if err.Some? then (st, [])
    else
      var s := SpikeDetector.Detect(spikes, snap, st.lastSnapshot);
      var a := AlertEngine.Detect(alerts, snap, st.lastSnapshot);
      var (run, fired) := Round(st.lastFired, a, now, window);
      var due := SampleDue(st.lastWriteTime, now, interval);
      (TickState(snap, if due then At(now) else st.lastWriteTime, fired), TickEffects(snap, s, a, run, due))
  }

  /** A successful tick, unfolded into its parts. */
  lemma TickStepParts(spikes: Config.Spikes, alerts: Config.Alerts, window: int, interval: int,
                      st: TickState, snap: Snapshot, now: int)
    ensures var a := AlertEngine.Detect(alerts, snap, st.lastSnapshot);
            var round := Round(st.lastFired, a, now, window);
            var due := SampleDue(st.lastWriteTime, now, interval);
            TickStep(spikes, alerts, window, interval, st, snap, None, now)
            == (TickState(snap, if due then At(now) else st.lastWriteTime, round.1),
                TickEffects(snap, SpikeDetector.Detect(spikes, snap, st.lastSnapshot), a, round.0, due))
  {
  }

  /** What a successful tick does: the events it logs, in tick order; the
      round it dispatches; and the new state, which holds the snapshot, the
      time of the sample if one was written, and the debouncer's stamps. */
  lemma TickBehaviour(spikes: Config.Spikes, alerts: Config.Alerts, window: int, interval: int,
                      st: TickState, snap: Snapshot, now: int)
    ensures var (st', out) := TickStep(spikes, alerts, window, interval, st, snap, None, now);
            var s := SpikeDetector.Detect(spikes, snap, st.lastSnapshot);
            var a := AlertEngine.Detect(alerts, snap, st.lastSnapshot);
            && InTickOrder(out)
            && (SpikeLogged(snap, s) in out <==> s != [])
            && (AlertLogged(snap, a) in out <==> a != [])
            && (ScriptsDispatched(a, snap) in out <==> a != [] && AlertEngine.Debounce(st.lastFired, a, now, window).0)
            && (SampleLogged(snap) in out <==> SampleDue(st.lastWriteTime, now, interval))
            && st'.lastSnapshot == snap
            && st'.lastWriteTime == (if SampleDue(st.lastWriteTime, now, interval) then At(now) else st.lastWriteTime)
            && st'.lastFired == (if a != [] then AlertEngine.Debounce(st.lastFired, a, now, window).1 else st.lastFired)
  {
    var s := SpikeDetector.Detect(spikes, snap, st.lastSnapshot);
    var a := AlertEngine.Detect(alerts, snap, st.lastSnapshot);
    var round := Round(st.lastFired, a, now, window);
    TickStepParts(spikes, alerts, window, interval, st, snap, now);
    TickEffectsShape(snap, s, a, round.0, SampleDue(st.lastWriteTime, now, interval));
  }

  /** The first successful tick compares against the zero snapshot and always
      writes a sample. */
  lemma FirstTickLogsSample(spikes: Config.Spikes, alerts: Config.Alerts, window: int, interval: int,
                            snap: Snapshot, now: int)
    ensures var (st, out) := TickStep(spikes, alerts, window, interval, InitialTick, snap, None, now);
            SampleLogged(snap) in out && st.lastWriteTime == At(now)
            && (SpikeLogged(snap, SpikeDetector.Detect(spikes, snap, ZeroSnapshot)) in out
                <==> SpikeDetector.Detect(spikes, snap, ZeroSnapshot) != [])
  {
    var s := SpikeDetector.Detect(spikes, snap, ZeroSnapshot);
    var a := AlertEngine.Detect(alerts, snap, ZeroSnapshot);
    var (run, fired) := Round(map[], a, now, window);
    TickEffectsShape(snap, s, a, run, true);
  }

  /** Samples are throttled: after a tick at t1 wrote a sample, a failed
      collect changes nothing, and the next successful tick, at t2, writes one
      exactly when t2 - t1 reaches the interval. */
  lemma SamplesThrottled(spikes: Config.Spikes, alerts: Config.Alerts, window: int, interval: int,
                         st: TickState, snap1: Snapshot, t1: int, cause: CollectError, snapE: Snapshot, tE: int,
                         snap2: Snapshot, t2: int)
    requires SampleLogged(snap1) in TickStep(spikes, alerts, window, interval, st, snap1, None, t1).1
    ensures var st1 := TickStep(spikes, alerts, window, interval, st, snap1, None, t1).0;
            var st2 := TickStep(spikes, alerts, window, interval, st1, snapE, Some(cause), tE).0;
            st2 == st1
            && (SampleLogged(snap2) in TickStep(spikes, alerts, window, interval, st2, snap2, None, t2).1
                <==> t2 - t1 >= interval)
  {
    TickBehaviour(spikes, alerts, window, interval, st, snap1, t1);
    var st1 := TickStep(spikes, alerts, window, interval, st, snap1, None, t1).0;
    TickBehaviour(spikes, alerts, window, interval, st1, snap2, t2);
  }

  /** Script rounds follow alerts: a tick dispatches a round only right after
      logging its alerts, and only with the categories it logged. */
  lemma DispatchFollowsAlert(spikes: Config.Spikes, alerts: Config.Alerts, window: int, interval: int,
                             st: TickState, snap: Snapshot, err: Option<CollectError>, now: int, i: int)
    requires 0 <= i < |TickStep(spikes, alerts, window, interval, st, snap, err, now).1|
    requires TickStep(spikes, alerts, window, interval, st, snap, err, now).1[i].ScriptsDispatched?
    ensures var out := TickStep(spikes, alerts, window, interval, st, snap, err, now).1;
            0 < i && out[i - 1] == AlertLogged(snap, out[i].alertTypes) && out[i].alertTypes != []
  {
    var s := SpikeDetector.Detect(spikes, snap, st.lastSnapshot);
    var a := AlertEngine.Detect(alerts, snap, st.lastSnapshot);
    var (run, fired) := Round(st.lastFired, a, now, window);
    var due := SampleDue(st.lastWriteTime, now, interval);
    DispatchFollowsAlertEvent(snap, s, a, run, due, i);
  }

  /** The daemon's loop state, with the alert engine it drives. */
  class Sentinel {
    const cfg: Config.Config
    const engine: AlertEngine.Engine
    var lastSnapshot: Snapshot
    var lastWriteTime: Time
    /** Every collaborator call made so far, in order. */
    var effects: seq<Effect>

    function State(): TickState
      reads this, engine
    {
      TickState(lastSnapshot, lastWriteTime, engine.lastFired)
    }

    constructor (cfg: Config.Config)
      ensures this.cfg == cfg && engine.cfg == cfg && fresh(engine)
      ensures State() == InitialTick && effects == []
    {
      this.cfg := cfg;
      engine := new AlertEngine.Engine(cfg);
      lastSnapshot := ZeroSnapshot;
      lastWriteTime := ZeroTime;
      effects := [];
    }

    /** One tick, given the collector's result and the clock reading. */
    method Tick(snap: Snapshot, err: Option<CollectError>, now: int)
      modifies this, engine
      ensures var (st, out) := TickStep(cfg.spikes, cfg.alerts, engine.Window(), cfg.CollectionInterval(),
                                        old(State()), snap, err, now);
              State() == st && effects == old(effects) + out
    {
      ghost var st0 := State();
      ghost var window, interval := engine.Window(), cfg.CollectionInterval();
      if err.Some? {
        assert effects == old(effects) + [];
        return;
      }
      TickStepParts(cfg.spikes, cfg.alerts, window, interval, st0, snap, now);
      var spikeTypes := SpikeDetector.Detect(cfg.spikes, snap, lastSnapshot);
      var spikeOut := [];
      if |spikeTypes| > 0 {
        spikeOut := [SpikeLogged(snap, spikeTypes)];
      }
      assert spikeOut == SpikeEvents(snap, spikeTypes);
      var alertTypes := AlertEngine.Detect(cfg.alerts, snap, lastSnapshot);
      var run := false;
      var alertOut := [];
      if |alertTypes| > 0 {
        alertOut := [AlertLogged(snap, alertTypes)];
        run := engine.ShouldExecuteScripts(alertTypes, now);
        if run {
          alertOut := alertOut + [ScriptsDispatched(alertTypes, snap)];
        }
      }
      assert alertOut == AlertEvents(snap, alertTypes, run);
      ghost var round := Round(st0.lastFired, alertTypes, now, window);
      assert (run, engine.lastFired) == round;
      var due := lastWriteTime.IsZero() || now - lastWriteTime.nanos >= cfg.CollectionInterval();
      assert due == SampleDue(st0.lastWriteTime, now, interval);
      var sampleOut := [];
      if due {
        sampleOut := [SampleLogged(snap)];
        lastWriteTime := At(now);
      }
      assert sampleOut == SampleEvents(snap, due);
      lastSnapshot := snap;
      ghost var out := TickEffects(snap, spikeTypes, alertTypes, run, due);
      assert spikeOut + alertOut + sampleOut == out;
      effects := effects + (spikeOut + alertOut + sampleOut);
      assert window == engine.Window();
      assert interval == cfg.CollectionInterval();
    }
  }
}
