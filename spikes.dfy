/** The spike detector: compares the current snapshot with the previous one and
    names the categories whose value is above its absolute threshold or rose by
    at least the relative threshold. It keeps no state. */
module SpikeDetector {
  import Config
  import opened Events
  import opened Metrics

  /** The CPU rule: the absolute threshold is reached, or the usage rose by the
      relative threshold (only judged when the previous usage and the threshold
      are positive). Reaching a threshold exactly counts. */
  function DetectCpuSpike(cfg: Config.CpuSpike, current: Snapshot, previous: Snapshot): (fires: bool)
    ensures fires <==> current.cpuUsagePercent >= cfg.absoluteThreshold
                       || (previous.cpuUsagePercent > 0.0 && cfg.relativeThreshold > 0.0
                           && current.cpuUsagePercent * 100.0 >= previous.cpuUsagePercent * (100.0 + cfg.relativeThreshold))
  {
    RelativeRiseIff(current.cpuUsagePercent, previous.cpuUsagePercent, cfg.relativeThreshold);
    current.cpuUsagePercent >= cfg.absoluteThreshold
    || RelativeRise(current.cpuUsagePercent, previous.cpuUsagePercent, cfg.relativeThreshold)
  }

  /** The memory rule: the CPU rule applied to the used-memory percentage. */
  function DetectMemorySpike(cfg: Config.MemorySpike, current: Snapshot, previous: Snapshot): (fires: bool)
    ensures fires <==> current.memUsedPercent >= cfg.absoluteThreshold
                       || (previous.memUsedPercent > 0.0 && cfg.relativeThreshold > 0.0
                           && current.memUsedPercent * 100.0 >= previous.memUsedPercent * (100.0 + cfg.relativeThreshold))
  {
    RelativeRiseIff(current.memUsedPercent, previous.memUsedPercent, cfg.relativeThreshold);
    current.memUsedPercent >= cfg.absoluteThreshold
    || RelativeRise(current.memUsedPercent, previous.memUsedPercent, cfg.relativeThreshold)
  }

  /** The network rule: either direction reaches its absolute threshold, or
      either direction rose by the relative threshold, each relative test guarded
      by its own previous rate being positive. */
  function DetectNetworkSpike(cfg: Config.NetworkSpike, current: Snapshot, previous: Snapshot): (fires: bool)
    ensures fires <==> current.netRxMbps >= cfg.rxMbpsThreshold || current.netTxMbps >= cfg.txMbpsThreshold
                       || (previous.netRxMbps > 0.0 && cfg.relativeThreshold > 0.0
                           && current.netRxMbps * 100.0 >= previous.netRxMbps * (100.0 + cfg.relativeThreshold))
                       || (previous.netTxMbps > 0.0 && cfg.relativeThreshold > 0.0
                           && current.netTxMbps * 100.0 >= previous.netTxMbps * (100.0 + cfg.relativeThreshold))
  {
    RelativeRiseIff(current.netRxMbps, previous.netRxMbps, cfg.relativeThreshold);
    RelativeRiseIff(current.netTxMbps, previous.netTxMbps, cfg.relativeThreshold);
    current.netRxMbps >= cfg.rxMbpsThreshold
    || current.netTxMbps >= cfg.txMbpsThreshold
    || RelativeRise(current.netRxMbps, previous.netRxMbps, cfg.relativeThreshold)
    || RelativeRise(current.netTxMbps, previous.netTxMbps, cfg.relativeThreshold)
  }

  /** The spike categories of a tick: each enabled category whose rule fires, in
      the order cpu, memory, network, each at most once; nothing when every
      category is disabled. */
  function Detect(cfg: Config.Spikes, current: Snapshot, previous: Snapshot): (spikes: seq<string>)
    ensures InCategoryOrder(spikes)
    ensures "cpu" in spikes <==> cfg.cpu.enabled && DetectCpuSpike(cfg.cpu, current, previous)
    ensures "memory" in spikes <==> cfg.memory.enabled && DetectMemorySpike(cfg.memory, current, previous)
    ensures "network" in spikes <==> cfg.network.enabled && DetectNetworkSpike(cfg.network, current, previous)
    ensures !cfg.cpu.enabled && !cfg.memory.enabled && !cfg.network.enabled ==> spikes == []
  {
    Tripped(cfg.cpu.enabled && DetectCpuSpike(cfg.cpu, current, previous),
            cfg.memory.enabled && DetectMemorySpike(cfg.memory, current, previous),
            cfg.network.enabled && DetectNetworkSpike(cfg.network, current, previous))
  }

  /** With nothing to compare against (a previous value of 0), only the absolute
      threshold can make CPU or memory fire, whatever the relative threshold. */
  lemma ZeroPreviousNeedsAbsolute(cfg: Config.Spikes, current: Snapshot, previous: Snapshot)
    requires previous.cpuUsagePercent == 0.0 && previous.memUsedPercent == 0.0
    ensures "cpu" in Detect(cfg, current, previous) <==> cfg.cpu.enabled && current.cpuUsagePercent >= cfg.cpu.absoluteThreshold
    ensures "memory" in Detect(cfg, current, previous) <==> cfg.memory.enabled && current.memUsedPercent >= cfg.memory.absoluteThreshold
  {
  }

  /** Each current value at least as high as another's. */
  predicate DominatesCurrent(hi: Snapshot, lo: Snapshot) {
    hi.cpuUsagePercent >= lo.cpuUsagePercent && hi.memUsedPercent >= lo.memUsedPercent
    && hi.netRxMbps >= lo.netRxMbps && hi.netTxMbps >= lo.netTxMbps
  }

  /** Against the same previous snapshot, higher current values never make a
      spike go away. */
  lemma DetectMonotone(cfg: Config.Spikes, lo: Snapshot, hi: Snapshot, previous: Snapshot)
    requires DominatesCurrent(hi, lo)
    ensures forall c :: c in Detect(cfg, lo, previous) ==> c in Detect(cfg, hi, previous)
  {
    var a, b := Detect(cfg, lo, previous), Detect(cfg, hi, previous);
    forall c | c in a
      ensures c in b
    {
      assert c in Categories;
    }
  }
}
