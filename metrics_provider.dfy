/**
 * The scale-controller metrics of the Azure Storage back end: a provider that asks the
 * performance monitor for a heartbeat at most once every five seconds, keeps the last
 * heartbeat, and turns it into the trigger metrics the scale controller reads.
 *
 * Time is measured in ticks of 100 nanoseconds, as `DateTime` and `TimeSpan` count them;
 * the clock readings and the monitor's answer are parameters.
 */
module DurableTaskMetrics {
  import opened Wrappers

  /** `DateTime.MinValue` in ticks. */
  const MinTimestamp: int := 0

  /** Five seconds in ticks: the shortest interval between two pulses. */
  const PulseInterval: int := 50_000_000

  /** What one pulse of the monitor reports; latencies are in ticks. */
  datatype PerformanceHeartbeat = PerformanceHeartbeat(
    partitionCount: int,
    controlQueueLengths: seq<int>,
    controlQueueLatencies: seq<int>,
    workItemQueueLength: int,
    workItemQueueLatency: int)

  /** The metrics handed to the scale controller; absent text fields are null. */
  datatype DurableTaskTriggerMetrics = DurableTaskTriggerMetrics(
    partitionCount: int,
    controlQueueLengths: Option<string>,
    controlQueueLatencies: Option<string>,
    workItemQueueLength: int,
    workItemQueueLatency: Option<string>)

  /** A freshly constructed metrics object. */
  const DefaultMetrics := DurableTaskTriggerMetrics(0, None, None, 0, None)

  /** The text forms the provider relies on: JSON for the two lists, and `TimeSpan.ToString` for a latency. */
  datatype Formats = Formats(
    lengthsJson: seq<int> -> string,
    latenciesJson: seq<int> -> string,
    timeSpanText: int -> string)

  /** The heartbeat's figures as metrics; with no heartbeat the defaults stay. */
  function MetricsFrom(heartbeat: Option<PerformanceHeartbeat>, formats: Formats): (m: DurableTaskTriggerMetrics)
    ensures heartbeat.None? ==> m == DefaultMetrics
    ensures heartbeat.Some? ==>
      && m.partitionCount == heartbeat.value.partitionCount
      && m.workItemQueueLength == heartbeat.value.workItemQueueLength
      && m.controlQueueLengths == Some(formats.lengthsJson(heartbeat.value.controlQueueLengths))
      && m.controlQueueLatencies == Some(formats.latenciesJson(heartbeat.value.controlQueueLatencies))
    ensures m.workItemQueueLatency.Some? <==> heartbeat.Some? && heartbeat.value.workItemQueueLatency > 0
    ensures m.workItemQueueLatency.Some? ==>
      m.workItemQueueLatency.value == formats.timeSpanText(heartbeat.value.workItemQueueLatency)
  {
    match heartbeat
    case None => DefaultMetrics
    case Some(h) =>
      var m := DefaultMetrics.(
        partitionCount := h.partitionCount,
        controlQueueLengths := Some(formats.lengthsJson(h.controlQueueLengths)),
        controlQueueLatencies := Some(formats.latenciesJson(h.controlQueueLatencies)),
        workItemQueueLength := h.workItemQueueLength);
      if h.workItemQueueLatency > 0 then m.(workItemQueueLatency := Some(formats.timeSpanText(h.workItemQueueLatency)))
      else m
  }

  /** The throttle: a pulse is due when there is no heartbeat or the last one is more than five seconds old. */
  function NeedsPulse(heartbeat: Option<PerformanceHeartbeat>, heartbeatTimeStamp: int, now: int): (r: bool)
    ensures heartbeat.None? ==> r
    ensures heartbeat.Some? ==> (r <==> now - heartbeatTimeStamp > PulseInterval)
  {
    heartbeat.None? || now > heartbeatTimeStamp + PulseInterval
  }

  // ---------------------------------------------------------------------------------------
  // Failures and the monitor's answer
  // ---------------------------------------------------------------------------------------

  /** The exceptions that can leave the provider. */
  datatype Fault =
    | ArgumentNull(paramName: string)
    /** A failed pulse; `innerIsRequestFailed` says whether its inner exception is a storage request failure. */
    | PulseFault(details: string, innerIsRequestFailed: bool)

  /** What awaiting the monitor's pulse produced: a heartbeat (possibly null) or an exception. */
  datatype PulseOutcome = Pulsed(heartbeat: Option<PerformanceHeartbeat>) | PulseFailed(fault: Fault)

  datatype StorageAccountClientProvider = StorageAccountClientProvider(connectionName: string)

  /** The performance monitor: one supplied by the caller, or one the provider built for its task hub. */
  datatype DisconnectedPerformanceMonitor =
    | SuppliedMonitor(name: string)
    | CreatedMonitor(storageAccountClientProvider: StorageAccountClientProvider, taskHubName: string)

  // ---------------------------------------------------------------------------------------
  // One collection, as a function of the cached state
  // ---------------------------------------------------------------------------------------

  datatype HeartbeatCache = HeartbeatCache(heartbeat: Option<PerformanceHeartbeat>, heartbeatTimeStamp: int)

  /** The cache after a collection, the metrics (or the exception) it returns, and the warning it logs. */
  datatype Collection = Collection(
    cache: HeartbeatCache,
    result: Result<DurableTaskTriggerMetrics, Fault>,
    warning: Option<string>)

  /**
   * One metrics collection. Without a monitor the argument exception escapes. A pulse is made
   * only when due; a successful one replaces the heartbeat and stamps it with `pulsedAt`. A
   * failure whose inner exception is a storage request failure is logged and the old heartbeat
   * used; any other failure escapes.
   */
  function Collect(cache: HeartbeatCache, monitorAvailable: bool, now: int, pulse: PulseOutcome, pulsedAt: int,
                   formats: Formats): (c: Collection)
    ensures c.warning.Some? ==> c.result.Success? && c.cache == cache
  {
    if !monitorAvailable then
      Collection(cache, Failure(ArgumentNull("storageAccountClientProvider")), None)
    else if !NeedsPulse(cache.heartbeat, cache.heartbeatTimeStamp, now) then
      Collection(cache, Success(MetricsFrom(cache.heartbeat, formats)), None)
    else match pulse
      case Pulsed(heartbeat) =>
        Collection(HeartbeatCache(heartbeat, pulsedAt), Success(MetricsFrom(heartbeat, formats)), None)
      case PulseFailed(fault) =>
        if fault.PulseFault? && fault.innerIsRequestFailed then
          Collection(cache, Success(MetricsFrom(cache.heartbeat, formats)), Some(fault.details))
        else
          Collection(cache, Failure(fault), None)
  }

  /** Within five seconds of a heartbeat the monitor is not consulted and the cached figures are reported. */
  lemma Throttled(cache: HeartbeatCache, now: int, pulse: PulseOutcome, pulsedAt: int, formats: Formats)
    requires cache.heartbeat.Some? && now <= cache.heartbeatTimeStamp + PulseInterval
    ensures Collect(cache, true, now, pulse, pulsedAt, formats) ==
      Collection(cache, Success(MetricsFrom(cache.heartbeat, formats)), None)
  {
  }

  /**
   * After a pulse that returned a heartbeat, a collection no later than five seconds after it
   * does not depend on the monitor's next answer; after a pulse that returned null, the next
   * collection pulses again whatever the time.
   */
  lemma AtMostOnePulsePerInterval(cache: HeartbeatCache, now: int, pulse: PulseOutcome, pulsedAt: int,
                                  later: int, next: PulseOutcome, nextPulsedAt: int, formats: Formats)
    requires NeedsPulse(cache.heartbeat, cache.heartbeatTimeStamp, now) && pulse.Pulsed?
    ensures var c := Collect(cache, true, now, pulse, pulsedAt, formats).cache;
      && (pulse.heartbeat.Some? && later <= pulsedAt + PulseInterval ==>
            Collect(c, true, later, next, nextPulsedAt, formats).cache == c)
      && (pulse.heartbeat.None? ==> NeedsPulse(c.heartbeat, c.heartbeatTimeStamp, later))
  {
  }

  /** A swallowed failure changes nothing but the log, and the reported figures are the cached ones. */
  lemma SwallowedFailureKeepsCache(cache: HeartbeatCache, now: int, details: string, pulsedAt: int, formats: Formats)
    requires NeedsPulse(cache.heartbeat, cache.heartbeatTimeStamp, now)
    ensures Collect(cache, true, now, PulseFailed(PulseFault(details, true)), pulsedAt, formats) ==
      Collection(cache, Success(MetricsFrom(cache.heartbeat, formats)), Some(details))
  {
  }

  /** Every collection that returns metrics reports exactly the figures of the heartbeat it leaves cached. */
  lemma ReportsCachedHeartbeat(cache: HeartbeatCache, monitorAvailable: bool, now: int, pulse: PulseOutcome,
                               pulsedAt: int, formats: Formats)
    ensures var c := Collect(cache, monitorAvailable, now, pulse, pulsedAt, formats);
      c.result.Success? ==> c.result.value == MetricsFrom(c.cache.heartbeat, formats)
  {
  }

  // ---------------------------------------------------------------------------------------
  // The provider
  // ---------------------------------------------------------------------------------------

  class DurableTaskMetricsProvider {
    const hubName: string
    const storageAccountClientProvider: Option<StorageAccountClientProvider>
    var heartbeat: Option<PerformanceHeartbeat>
    var heartbeatTimeStamp: int
    var performanceMonitor: Option<DisconnectedPerformanceMonitor>
    /** The warnings logged, as (details, hub name). */
    var warnings: seq<(string, string)>
    /** How many monitors the provider has built itself. */
    ghost var monitorsCreated: nat

    /** The monitor is built at most once, and once built it is kept. */
    ghost predicate Valid()
      reads this
    {
      monitorsCreated <= 1 && (monitorsCreated == 1 ==> performanceMonitor.Some?)
    }

    constructor (hubName: string, performanceMonitor: Option<DisconnectedPerformanceMonitor>,
                 storageAccountClientProvider: Option<StorageAccountClientProvider>)
      ensures Valid()
      ensures this.hubName == hubName && this.performanceMonitor == performanceMonitor
      ensures this.storageAccountClientProvider == storageAccountClientProvider
      ensures heartbeat == None && heartbeatTimeStamp == MinTimestamp && warnings == []
    {
      this.hubName := hubName;
      this.performanceMonitor := performanceMonitor;
      this.storageAccountClientProvider := storageAccountClientProvider;
      heartbeat := None;
      heartbeatTimeStamp := MinTimestamp;
      warnings := [];
      monitorsCreated := 0;
    }

    /** The cached monitor, or a new one for this task hub, or the argument exception when neither can be had. */
    method GetPerformanceMonitor() returns (r: Result<DisconnectedPerformanceMonitor, Fault>)
      requires Valid()
      modifies this
      ensures Valid()
      ensures old(performanceMonitor).Some? ==> r == Success(old(performanceMonitor).value)
      ensures old(performanceMonitor).None? && storageAccountClientProvider.None? ==>
        r == Failure(ArgumentNull("storageAccountClientProvider"))
      ensures old(performanceMonitor).None? && storageAccountClientProvider.Some? ==>
        r == Success(CreatedMonitor(storageAccountClientProvider.value, hubName))
      ensures performanceMonitor == if r.Success? then Some(r.value) else None
      ensures monitorsCreated == old(monitorsCreated) + if old(performanceMonitor).None? && r.Success? then 1 else 0
      ensures heartbeat == old(heartbeat) && heartbeatTimeStamp == old(heartbeatTimeStamp) && warnings == old(warnings)
    {
      if performanceMonitor.None? {
        if storageAccountClientProvider.None? {
          return Failure(ArgumentNull("storageAccountClientProvider"));
        }
        performanceMonitor := Some(CreatedMonitor(storageAccountClientProvider.value, hubName));
        monitorsCreated := monitorsCreated + 1;
      }
      return Success(performanceMonitor.value);
    }

    /**
     * Collects the metrics at time `now`. `pulse` is what the monitor's pulse would produce and
     * `pulsedAt` the clock reading once it has; both are used only when a pulse is due.
     */
    method GetMetricsAsync(now: int, pulse: PulseOutcome, pulsedAt: int, formats: Formats)
      returns (r: Result<DurableTaskTriggerMetrics, Fault>)
      requires Valid()
      modifies this
      ensures Valid()
      ensures var c := Collect(HeartbeatCache(old(heartbeat), old(heartbeatTimeStamp)),
                               old(performanceMonitor).Some? || storageAccountClientProvider.Some?,
                               now, pulse, pulsedAt, formats);
        && r == c.result
        && HeartbeatCache(heartbeat, heartbeatTimeStamp) == c.cache
        && warnings == old(warnings) + if c.warning.Some? then [(c.warning.value, hubName)] else []
      ensures performanceMonitor == if old(performanceMonitor).Some? then old(performanceMonitor)
        else if storageAccountClientProvider.Some? then Some(CreatedMonitor(storageAccountClientProvider.value, hubName))
        else None
      ensures monitorsCreated == old(monitorsCreated) +
        if old(performanceMonitor).None? && storageAccountClientProvider.Some? then 1 else 0
    {
      var metrics := DefaultMetrics;
      var monitor := GetPerformanceMonitor();
      if monitor.Failure? {
        // not a storage request failure: the exception leaves the provider
        return Failure(monitor.error);
      }
      if heartbeat.None? || now > heartbeatTimeStamp + PulseInterval {
        match pulse
        case Pulsed(h) =>
          heartbeat := h;
          heartbeatTimeStamp := pulsedAt;
        case PulseFailed(fault) =>
          if fault.PulseFault? && fault.innerIsRequestFailed {
            warnings := warnings + [(fault.details, hubName)];
          } else {
            return Failure(fault);
          }
      }
      if heartbeat.Some? {
        metrics := metrics.(
          partitionCount := heartbeat.value.partitionCount,
          controlQueueLengths := Some(formats.lengthsJson(heartbeat.value.controlQueueLengths)),
          controlQueueLatencies := Some(formats.latenciesJson(heartbeat.value.controlQueueLatencies)),
          workItemQueueLength := heartbeat.value.workItemQueueLength);
        if heartbeat.value.workItemQueueLatency > 0 {
          metrics := metrics.(workItemQueueLatency := Some(formats.timeSpanText(heartbeat.value.workItemQueueLatency)));
        }
      }
      return Success(metrics);
    }
  }
}
