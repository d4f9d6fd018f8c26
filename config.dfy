/** The decoded configuration: per-category spike and alert thresholds, the
    script settings, and the Config object whose defaults are filled in place
    before it is validated. */
module Config {
  import opened Base

  datatype CpuSpike = CpuSpike(enabled: bool, absoluteThreshold: real, relativeThreshold: real)
  datatype MemorySpike = MemorySpike(enabled: bool, absoluteThreshold: real, relativeThreshold: real)
  datatype NetworkSpike = NetworkSpike(enabled: bool, rxMbpsThreshold: real, txMbpsThreshold: real, relativeThreshold: real)
  datatype Spikes = Spikes(cpu: CpuSpike, memory: MemorySpike, network: NetworkSpike)

  datatype CpuAlert = CpuAlert(enabled: bool, absoluteThreshold: real, relativeThreshold: real)
  datatype MemoryAlert = MemoryAlert(enabled: bool, absoluteThreshold: real)
  datatype NetworkAlert = NetworkAlert(enabled: bool, rxMbpsThreshold: real, txMbpsThreshold: real)
  datatype Alerts = Alerts(cpu: CpuAlert, memory: MemoryAlert, network: NetworkAlert)

  datatype Scripts = Scripts(dir: string, envFile: string, debounceSec: int, timeoutSec: int, enabled: bool)

  const DefaultSampleIntervalSec: int := 1
  const DefaultCollectionIntervalSec: int := 60
  const DefaultLogDir: string := "/var/log/system-sentinel"
  const DefaultRetentionDays: int := 30
  const DefaultInterface: string := "eth0"
  const DefaultScriptsDir: string := "/etc/system-sentinel/sh"
  const DefaultEnvFile: string := "/etc/system-sentinel/.env"
  const DefaultDebounceSec: int := 60
  const DefaultTimeoutSec: int := 30

  /** The value applyDefaults leaves in a numeric field. */
  function IntOrDefault(x: int, default: int): (r: int)
    requires default > 0
    ensures r > 0
    ensures x > 0 ==> r == x
    ensures x <= 0 ==> r == default
  {
    if x <= 0 then default else x
  }

  /** The value applyDefaults leaves in a string field. */
  function StringOrDefault(s: string, default: string): (r: string)
    requires default != ""
    ensures r != ""
    ensures s != "" ==> r == s
    ensures s == "" ==> r == default
  {
    if s == "" then default else s
  }

  /** Filling in a default twice is the same as filling it in once. */
  lemma DefaultsIdempotent(x: int, d: int, s: string, ds: string)
    requires d > 0 && ds != ""
    ensures IntOrDefault(IntOrDefault(x, d), d) == IntOrDefault(x, d)
    ensures StringOrDefault(StringOrDefault(s, ds), ds) == StringOrDefault(s, ds)
  {
  }

  class Config {
    var sampleIntervalSec: int
    var collectionIntervalSec: int
    var logDir: string
    var retentionDays: int
    var interfaceName: string
    var spikes: Spikes
    var alerts: Alerts
    var scripts: Scripts
    var env: map<string, string>

    /** The configuration exactly as decoded from the file, before defaults. */
    constructor (sampleIntervalSec: int, collectionIntervalSec: int, logDir: string, retentionDays: int,
                 interfaceName: string, spikes: Spikes, alerts: Alerts, scripts: Scripts, env: map<string, string>)
      ensures this.sampleIntervalSec == sampleIntervalSec && this.collectionIntervalSec == collectionIntervalSec
      ensures this.logDir == logDir && this.retentionDays == retentionDays && this.interfaceName == interfaceName
      ensures this.spikes == spikes && this.alerts == alerts && this.scripts == scripts && this.env == env
    {
      this.sampleIntervalSec := sampleIntervalSec;
      this.collectionIntervalSec := collectionIntervalSec;
      this.logDir := logDir;
      this.retentionDays := retentionDays;
      this.interfaceName := interfaceName;
      this.spikes := spikes;
      this.alerts := alerts;
      this.scripts := scripts;
      this.env := env;
    }

    /** Replaces every non-positive number and every empty path or interface by its
        default, leaving the other fields as they were. Afterwards the
        configuration validates; since IntOrDefault and StringOrDefault keep
        positive and non-empty values, a second call changes nothing
        (DefaultsIdempotent). */
    method ApplyDefaults()
      modifies this
      ensures sampleIntervalSec == IntOrDefault(old(sampleIntervalSec), DefaultSampleIntervalSec)
      ensures collectionIntervalSec == IntOrDefault(old(collectionIntervalSec), DefaultCollectionIntervalSec)
      ensures logDir == StringOrDefault(old(logDir), DefaultLogDir)
      ensures retentionDays == IntOrDefault(old(retentionDays), DefaultRetentionDays)
      ensures interfaceName == StringOrDefault(old(interfaceName), DefaultInterface)
      ensures scripts.dir == StringOrDefault(old(scripts.dir), DefaultScriptsDir)
      ensures scripts.envFile == StringOrDefault(old(scripts.envFile), DefaultEnvFile)
      ensures scripts.debounceSec == IntOrDefault(old(scripts.debounceSec), DefaultDebounceSec)
      ensures scripts.timeoutSec == IntOrDefault(old(scripts.timeoutSec), DefaultTimeoutSec)
      ensures scripts.enabled == old(scripts.enabled)
      ensures unchanged(this`spikes, this`alerts, this`env)
      ensures Validate() == None
    {
      sampleIntervalSec := IntOrDefault(sampleIntervalSec, DefaultSampleIntervalSec);
      collectionIntervalSec := IntOrDefault(collectionIntervalSec, DefaultCollectionIntervalSec);
      logDir := StringOrDefault(logDir, DefaultLogDir);
      retentionDays := IntOrDefault(retentionDays, DefaultRetentionDays);
      interfaceName := StringOrDefault(interfaceName, DefaultInterface);
      scripts := scripts.(dir := StringOrDefault(scripts.dir, DefaultScriptsDir),
                          envFile := StringOrDefault(scripts.envFile, DefaultEnvFile),
                          debounceSec := IntOrDefault(scripts.debounceSec, DefaultDebounceSec),
                          timeoutSec := IntOrDefault(scripts.timeoutSec, DefaultTimeoutSec));
    }

    /** The first violated rule, checked in the order sample interval, collection
        interval, retention, interface, debounce, timeout; None when all hold. */
    function Validate(): (r: Option<string>)
      reads this
      ensures r == None <==> (sampleIntervalSec > 0 && collectionIntervalSec > 0 && retentionDays > 0
                              && interfaceName != "" && scripts.debounceSec > 0 && scripts.timeoutSec > 0)
      ensures sampleIntervalSec <= 0 ==> r == Some("sample_interval_sec must be positive")
      ensures sampleIntervalSec > 0 && collectionIntervalSec <= 0 ==> r == Some("collection_interval_sec must be positive")
      ensures sampleIntervalSec > 0 && collectionIntervalSec > 0 && retentionDays <= 0
              ==> r == Some("retention_days must be positive")
      ensures sampleIntervalSec > 0 && collectionIntervalSec > 0 && retentionDays > 0 && interfaceName == ""
              ==> r == Some("interface cannot be empty")
      ensures sampleIntervalSec > 0 && collectionIntervalSec > 0 && retentionDays > 0 && interfaceName != ""
              && scripts.debounceSec <= 0
              ==> r == Some("scripts.debounce_sec must be positive")
      ensures sampleIntervalSec > 0 && collectionIntervalSec > 0 && retentionDays > 0 && interfaceName != ""
              && scripts.debounceSec > 0 && scripts.timeoutSec <= 0
              ==> r == Some("scripts.timeout_sec must be positive")
    {
      if sampleIntervalSec <= 0 then Some("sample_interval_sec must be positive")
      else if collectionIntervalSec <= 0 then Some("collection_interval_sec must be positive")
      else if retentionDays <= 0 then Some("retention_days must be positive")
      else if interfaceName == "" then Some("interface cannot be empty")
      else if scripts.debounceSec <= 0 then Some("scripts.debounce_sec must be positive")
      else if scripts.timeoutSec <= 0 then Some("scripts.timeout_sec must be positive")
      else None
    }

    /** The detection tick period as a Go duration (nanoseconds): converting it
        back to seconds gives the configured value exactly. */
    function SampleInterval(): (d: int)
      reads this
      ensures d / NanosPerSecond == sampleIntervalSec && d % NanosPerSecond == 0
    {
      sampleIntervalSec * NanosPerSecond
    }

    /** The minimum gap between sample events, as a Go duration (nanoseconds). */
    function CollectionInterval(): (d: int)
      reads this
      ensures d / NanosPerSecond == collectionIntervalSec && d % NanosPerSecond == 0
    {
      collectionIntervalSec * NanosPerSecond
    }
  }
}
