/**
 * The entry point of distributed tracing in the WebJobs extension: depending on the tracing
 * options it starts the span-based (V2) telemetry modules, or configures the process-wide
 * correlation settings and callbacks of the older (V1) correlation protocol, or does nothing.
 */
module TelemetryActivation {
  import W = Wrappers
  import WebJobsTelemetry

  // ---------------------------------------------------------------------------------------
  // Options
  // ---------------------------------------------------------------------------------------

  datatype DurableDistributedTracingVersion = None | V1 | V2

  /** The tracing options; the protocol name is null unless configured. */
  datatype TraceOptions = TraceOptions(
    distributedTracingEnabled: bool,
    version: DurableDistributedTracingVersion,
    distributedTracingProtocol: W.Option<string>)

  datatype DurableTaskOptions = DurableTaskOptions(tracing: TraceOptions)

  // ---------------------------------------------------------------------------------------
  // The V1 correlation protocol
  // ---------------------------------------------------------------------------------------

  datatype Protocol = HttpCorrelationProtocol | W3CTraceContext

  /** The name of a protocol, as the enumeration's `ToString` gives it. */
  function ProtocolName(protocol: Protocol): string
  {
    match protocol
    case HttpCorrelationProtocol => "HttpCorrelationProtocol"
    case W3CTraceContext => "W3CTraceContext"
  }

  /** The configured protocol: W3C trace context exactly when so named (case-sensitive); anything else, null included, falls back to HTTP correlation. */
  function SelectProtocol(configured: W.Option<string>): (p: Protocol)
    ensures p == W3CTraceContext <==> configured == W.Some(ProtocolName(W3CTraceContext))
  {
    if configured == W.Some(ProtocolName(W3CTraceContext)) then W3CTraceContext else HttpCorrelationProtocol
  }

  /** Configuring a protocol by its own name selects that protocol. */
  lemma SelectProtocolName(protocol: Protocol)
    ensures SelectProtocol(W.Some(ProtocolName(protocol))) == protocol
  {
    if protocol == HttpCorrelationProtocol {
      assert ProtocolName(protocol)[0] != ProtocolName(W3CTraceContext)[0];
    }
  }

  // ---------------------------------------------------------------------------------------
  // The site name
  // ---------------------------------------------------------------------------------------

  const SiteNameSetting := "WEBSITE_SITE_NAME"

  function LowerChar(c: char): char
  {
    if 'A' <= c <= 'Z' then (c as int + 32) as char else c
  }

  /** Lower-casing, letter by letter; only the ASCII letters are mapped. */
  function ToLower(s: string): (r: string)
    ensures |r| == |s|
  {
    if s == [] then [] else [LowerChar(s[0])] + ToLower(s[1..])
  }

  /** Lower-casing keeps the length, changes only upper-case letters, and leaves none behind. */
  lemma {:induction false} ToLowerLetters(s: string)
    ensures |ToLower(s)| == |s|
    ensures forall i | 0 <= i < |s| ::
      && !('A' <= ToLower(s)[i] <= 'Z')
      && (ToLower(s)[i] == s[i] || ('A' <= s[i] <= 'Z' && ToLower(s)[i] as int == s[i] as int + 32))
  {
    if s != [] {
      ToLowerLetters(s[1..]);
      forall i | 1 <= i < |s| ensures ToLower(s)[i] == ToLower(s[1..])[i - 1] {}
    }
  }

  /** Lower-casing twice is lower-casing once. */
  lemma {:induction false} ToLowerIdempotent(s: string)
    ensures ToLower(ToLower(s)) == ToLower(s)
  {
    if s != [] {
      ToLowerIdempotent(s[1..]);
      assert ToLower(s)[1..] == ToLower(s[1..]);
    }
  }

  /** The application settings a name resolver can look up. */
  datatype NameResolver = NameResolver(settings: map<string, string>)
  {
    function Resolve(name: string): (r: W.Option<string>)
      ensures r.Some? <==> name in settings
    {
      if name in settings then W.Some(settings[name]) else W.None
    }
  }

  /** The site name the request records carry: the lower-cased setting, or empty when there is no resolver or no setting. */
  function ResolveSiteName(nameResolver: W.Option<NameResolver>): (name: string)
    ensures name == ToLower(name)
    ensures nameResolver.None? || SiteNameSetting !in nameResolver.value.settings ==> name == ""
    ensures nameResolver.Some? && SiteNameSetting in nameResolver.value.settings ==>
      var setting := nameResolver.value.settings[SiteNameSetting];
      && |name| == |setting|
      && forall i | 0 <= i < |setting| ::
           if 'A' <= setting[i] <= 'Z' then name[i] as int == setting[i] as int + 32 else name[i] == setting[i]
  {
    match nameResolver
    case None => ""
    case Some(resolver) =>
      match resolver.Resolve(SiteNameSetting)
      case None => ""
      case Some(value) =>
        ToLowerIdempotent(value);
        ToLowerLetters(value);
        ToLower(value)
  }

  // ---------------------------------------------------------------------------------------
  // Process-wide V1 state
  // ---------------------------------------------------------------------------------------

  /** The process-wide correlation settings of the V1 protocol. */
  class CorrelationSettings {
    var enableDistributedTracing: bool
    var protocol: Protocol

    constructor ()
      ensures !enableDistributedTracing && protocol == HttpCorrelationProtocol
    {
      enableDistributedTracing := false;
      protocol := HttpCorrelationProtocol;
    }
  }

  /**
   * The callbacks registered with the V1 trace client: requests are recorded with the site
   * name, and every record goes to the activator's telemetry client.
   */
  datatype TraceCallbacks = TraceCallbacks(siteName: string)

  /** The process-wide V1 trace client, which calls back when a trace context ends or fails. */
  class CorrelationTraceClient {
    var callbacks: W.Option<TraceCallbacks>

    constructor ()
      ensures callbacks == W.None
    {
      callbacks := W.None;
    }

    method SetUp(callbacks: TraceCallbacks)
      modifies this
      ensures this.callbacks == W.Some(callbacks)
    {
      this.callbacks := W.Some(callbacks);
    }
  }

  // ---------------------------------------------------------------------------------------
  // The V2 module of the durable-task library
  // ---------------------------------------------------------------------------------------

  /** The span module of the durable-task library, reduced to its configuration and its disposals. */
  class DurableTelemetryModule {
    var configuration: W.Option<WebJobsTelemetry.TelemetryConfiguration>
    ghost var disposals: nat

    constructor ()
      ensures configuration == W.None && disposals == 0
    {
      configuration := W.None;
      disposals := 0;
    }

    method Initialize(configuration: WebJobsTelemetry.TelemetryConfiguration)
      modifies this
      ensures this.configuration == W.Some(configuration) && disposals == old(disposals)
    {
      this.configuration := W.Some(configuration);
    }

    method DisposeAsync()
      modifies this
      ensures configuration == old(configuration) && disposals == old(disposals) + 1
    {
      disposals := disposals + 1;
    }
  }

  // ---------------------------------------------------------------------------------------
  // The activator
  // ---------------------------------------------------------------------------------------

  class TelemetryActivator {
    const options: DurableTaskOptions
    const nameResolver: W.Option<NameResolver>
    /** `CorrelationSettings.Current` and the static trace client, shared by the whole process. */
    const settings: CorrelationSettings
    const traceClient: CorrelationTraceClient
    var telemetryClient: W.Option<WebJobsTelemetry.TelemetryClient>
    var telemetryModule: DurableTelemetryModule?
    var webJobsTelemetryModule: WebJobsTelemetry.WebJobsTelemetryModule?

    constructor (options: DurableTaskOptions, nameResolver: W.Option<NameResolver>,
                 settings: CorrelationSettings, traceClient: CorrelationTraceClient)
      ensures this.options == options && this.nameResolver == nameResolver
      ensures this.settings == settings && this.traceClient == traceClient
      ensures telemetryClient == W.None && telemetryModule == null && webJobsTelemetryModule == null
    {
      this.options := options;
      this.nameResolver := nameResolver;
      this.settings := settings;
      this.traceClient := traceClient;
      telemetryClient := W.None;
      telemetryModule := null;
      webJobsTelemetryModule := null;
    }

    /**
     * Starts distributed tracing as the options ask: nothing when it is disabled or the
     * version is None; the two span modules for V2; the V1 settings, client and callbacks
     * otherwise. Modules from an earlier call are replaced, not disposed.
     */
    method Initialize(configuration: WebJobsTelemetry.TelemetryConfiguration)
      modifies this, settings, traceClient
      ensures var tracing := options.tracing;
        !tracing.distributedTracingEnabled || tracing.version == None ==>
          && telemetryModule == old(telemetryModule) && webJobsTelemetryModule == old(webJobsTelemetryModule)
          && telemetryClient == old(telemetryClient)
          && unchanged(settings, traceClient)
      ensures var tracing := options.tracing;
        tracing.distributedTracingEnabled && tracing.version == V2 ==>
          && telemetryModule != null && fresh(telemetryModule)
          && telemetryModule.configuration == W.Some(configuration)
          && webJobsTelemetryModule != null && fresh(webJobsTelemetryModule)
          && webJobsTelemetryModule.telemetryClient == W.Some(WebJobsTelemetry.TelemetryClient(configuration, [], 0))
          && webJobsTelemetryModule.listener == W.Some(WebJobsTelemetry.ActivityListener(true))
          && telemetryClient == old(telemetryClient)
          && unchanged(settings, traceClient)
      ensures var tracing := options.tracing;
        tracing.distributedTracingEnabled && tracing.version == V1 ==>
          && telemetryModule == old(telemetryModule) && webJobsTelemetryModule == old(webJobsTelemetryModule)
          && settings.enableDistributedTracing
          && settings.protocol == SelectProtocol(tracing.distributedTracingProtocol)
          && telemetryClient == W.Some(WebJobsTelemetry.TelemetryClient(configuration, [], 0))
          && traceClient.callbacks == W.Some(TraceCallbacks(ResolveSiteName(nameResolver)))
    {
      if options.tracing.distributedTracingEnabled {
        if options.tracing.version == None {
          return;
        }
        if options.tracing.version == V2 {
          var durableModule := new DurableTelemetryModule();
          durableModule.Initialize(configuration);
          telemetryModule := durableModule;
          var webJobsModule := new WebJobsTelemetry.WebJobsTelemetryModule();
          webJobsModule.Initialize(configuration);
          webJobsTelemetryModule := webJobsModule;
        } else {
          SetUpV1DistributedTracing();
          if settings.enableDistributedTracing {
            SetUpTelemetryClient(configuration);
            if settings.enableDistributedTracing {
              SetUpTelemetryCallbacks();
            }
          }
        }
      }
    }

    /** Copies the enabled flag into the process-wide settings and selects the protocol by name. */
    method SetUpV1DistributedTracing()
      modifies settings
      ensures settings.enableDistributedTracing == options.tracing.distributedTracingEnabled
      ensures settings.protocol == SelectProtocol(options.tracing.distributedTracingProtocol)
    {
      settings.enableDistributedTracing := options.tracing.distributedTracingEnabled;
      settings.protocol :=
        if options.tracing.distributedTracingProtocol == W.Some(ProtocolName(W3CTraceContext))
        then W3CTraceContext
        else HttpCorrelationProtocol;
    }

    /** Registers the request, dependency and exception callbacks, tagged with the resolved site name. */
    method SetUpTelemetryCallbacks()
      modifies traceClient
      ensures traceClient.callbacks == W.Some(TraceCallbacks(ResolveSiteName(nameResolver)))
    {
      var resolvedSiteName := "";
      if nameResolver.Some? {
        var value := nameResolver.value.Resolve(SiteNameSetting);
        if value.Some? {
          resolvedSiteName := ToLower(value.value);
        }
      }
      traceClient.SetUp(TraceCallbacks(resolvedSiteName));
    }

    method SetUpTelemetryClient(configuration: WebJobsTelemetry.TelemetryConfiguration)
      modifies this
      ensures telemetryClient == W.Some(WebJobsTelemetry.TelemetryClient(configuration, [], 0))
      ensures telemetryModule == old(telemetryModule) && webJobsTelemetryModule == old(webJobsTelemetryModule)
    {
      telemetryClient := W.Some(WebJobsTelemetry.TelemetryClient(configuration, [], 0));
    }

    /** Disposes each module that is set, once; a module that is not set is skipped. */
    method DisposeAsync()
      modifies telemetryModule, webJobsTelemetryModule
      ensures telemetryModule != null ==> telemetryModule.disposals == old(telemetryModule.disposals) + 1
      ensures webJobsTelemetryModule != null ==>
        webJobsTelemetryModule.disposals == old(webJobsTelemetryModule.disposals) + 1
    {
      if telemetryModule != null {
        telemetryModule.DisposeAsync();
      }
      if webJobsTelemetryModule != null {
        webJobsTelemetryModule.DisposeAsync();
      }
    }

    method Dispose()
      modifies telemetryModule, webJobsTelemetryModule
      ensures telemetryModule != null ==> telemetryModule.disposals == old(telemetryModule.disposals) + 1
      ensures webJobsTelemetryModule != null ==>
        webJobsTelemetryModule.disposals == old(webJobsTelemetryModule.disposals) + 1
    {
      DisposeAsync();
    }
  }
}
