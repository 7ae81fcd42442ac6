/**
 * The span observer of the durable-task extension: the activity record it receives when a
 * span ends, the conversion of that activity into a request or dependency telemetry record,
 * the source-name filter of its listener, and the module object that owns the telemetry
 * client and the listener.
 */
module WebJobsTelemetry {
  import opened Wrappers

  // ---------------------------------------------------------------------------------------
  // Activities (spans)
  // ---------------------------------------------------------------------------------------

  datatype ActivityKind = Internal | Server | Client | Producer | Consumer

  datatype ActivityStatusCode = Unset | Ok | Error

  newtype byte = x: int | 0 <= x < 256

  /** The eight bytes of a span id. */
  type SpanBytes = s: seq<byte> | |s| == 8 witness [0, 0, 0, 0, 0, 0, 0, 0]

  /** A span id: either the default (unset) value or eight bytes. */
  datatype ActivitySpanId = DefaultSpanId | SpanId(bytes: SpanBytes)

  /**
   * A completed span as the listener sees it. Tag values are kept as the text their
   * `ToString` produces; baggage and tags are in enumeration order.
   */
  datatype Activity = Activity(
    displayName: string,
    spanId: ActivitySpanId,
    parentSpanId: ActivitySpanId,
    rootId: string,
    startTimeUtc: int,
    duration: int,
    kind: ActivityKind,
    status: ActivityStatusCode,
    baggage: seq<(string, string)>,
    tagObjects: seq<(string, string)>,
    isAllDataRequested: bool)

  // ---------------------------------------------------------------------------------------
  // Span-id text: sixteen lower-case hexadecimal digits
  // ---------------------------------------------------------------------------------------

  function HexDigit(n: int): (c: char)
    requires 0 <= n < 16
  {
    if n < 10 then (48 + n) as char else (87 + n) as char
  }

  /** The value of a lower-case hexadecimal digit, or None for any other character. */
  function HexValue(c: char): (r: Option<int>)
    ensures r.Some? ==> 0 <= r.value < 16
  {
    if '0' <= c <= '9' then Some(c as int - 48)
    else if 'a' <= c <= 'f' then Some(c as int - 87)
    else None
  }

  function ToHex(bytes: seq<byte>): (s: string)
    ensures |s| == 2 * |bytes|
  {
    if bytes == [] then ""
    else [HexDigit(bytes[0] as int / 16), HexDigit(bytes[0] as int % 16)] + ToHex(bytes[1..])
  }

  /** Parses text made of pairs of lower-case hexadecimal digits back into bytes. */
  function FromHex(s: string): (r: Option<seq<byte>>)
    decreases |s|
  {
    if s == [] then Some([])
    else if |s| == 1 then None
    else match (HexValue(s[0]), HexValue(s[1]), FromHex(s[2..]))
      case (Some(hi), Some(lo), Some(rest)) => Some([(hi * 16 + lo) as byte] + rest)
      case _ => None
  }

  lemma {:induction false} FromHexToHex(bytes: seq<byte>)
    ensures FromHex(ToHex(bytes)) == Some(bytes)
  {
    if bytes != [] {
      var b := bytes[0] as int;
      var s := ToHex(bytes);
      assert s[0] == HexDigit(b / 16) && s[1] == HexDigit(b % 16);
      assert s[2..] == ToHex(bytes[1..]);
      assert HexValue(s[0]) == Some(b / 16);
      assert HexValue(s[1]) == Some(b % 16);
      FromHexToHex(bytes[1..]);
      assert (b / 16 * 16 + b % 16) as byte == bytes[0];
      assert FromHex(s) == Some([bytes[0]] + bytes[1..]);
      assert [bytes[0]] + bytes[1..] == bytes;
    }
  }

  /** The text of a span id, as its `ToString` gives it. */
  function SpanIdText(id: ActivitySpanId): (s: string)
    ensures |s| == 16
    ensures id.SpanId? ==> FromHex(s) == Some(id.bytes)
  {
    match id
    case DefaultSpanId => "0000000000000000"
    case SpanId(bytes) => FromHexToHex(bytes); ToHex(bytes)
  }

  // ---------------------------------------------------------------------------------------
  // Telemetry records
  // ---------------------------------------------------------------------------------------

  /** The fields common to request and dependency telemetry. */
  datatype TelemetryCore = TelemetryCore(
    name: string,
    id: string,
    timestamp: int,
    duration: int,
    operationId: string,
    parentId: Option<string>,
    properties: map<string, string>)

  datatype OperationTelemetry =
    | RequestTelemetry(core: TelemetryCore, success: bool, responseCode: string)
    | DependencyTelemetry(core: TelemetryCore, success: bool, dependencyType: string)
  {
    function Id(): string { core.id }
    function ParentId(): Option<string> { core.parentId }
    function Timestamp(): int { core.timestamp }
  }

  // ---------------------------------------------------------------------------------------
  // Properties: baggage first, then tags, each entry assigned in turn
  // ---------------------------------------------------------------------------------------

  /** The keys of a list of key/value entries. */
  function EntryKeys(entries: seq<(string, string)>): set<string>
  {
    set i | 0 <= i < |entries| :: entries[i].0
  }

  lemma EntryKeysFirst(entries: seq<(string, string)>)
    requires entries != []
    ensures EntryKeys(entries) == {entries[0].0} + EntryKeys(entries[1..])
  {
    forall k | k in EntryKeys(entries) ensures k in {entries[0].0} + EntryKeys(entries[1..]) {
      var i :| 0 <= i < |entries| && entries[i].0 == k;
      if i > 0 { assert entries[1..][i - 1].0 == k; }
    }
  }

  /** The value of the last entry with the given key, if any. */
  function LastValue(entries: seq<(string, string)>, key: string): (r: Option<string>)
    ensures r.Some? <==> key in EntryKeys(entries)
    ensures r.Some? ==> exists i | 0 <= i < |entries| ::
      entries[i] == (key, r.value) && forall j | i < j < |entries| :: entries[j].0 != key
  {
    if entries == [] then None
    else
      var later := LastValue(entries[1..], key);
      EntryKeysFirst(entries);
      if later.Some? then
        assert exists i | 0 <= i < |entries| ::
            entries[i] == (key, later.value) && forall j | i < j < |entries| :: entries[j].0 != key by {
          var i :| 0 <= i < |entries[1..]| && entries[1..][i] == (key, later.value) &&
            forall j | i < j < |entries[1..]| :: entries[1..][j].0 != key;
          assert entries[i + 1] == (key, later.value);
          forall j | i + 1 < j < |entries| ensures entries[j].0 != key {
            assert entries[j] == entries[1..][j - 1];
          }
        }
        later
      else if entries[0].0 == key then
        assert forall j | 0 < j < |entries| :: entries[j].0 != key by {
          forall j | 0 < j < |entries| ensures entries[j].0 != key {
            assert entries[j] == entries[1..][j - 1];
          }
        }
        Some(entries[0].1)
      else None
  }

  /** `properties[key] = value` for every entry, in order. */
  function SetProperties(properties: map<string, string>, entries: seq<(string, string)>): (r: map<string, string>)
    ensures r.Keys == properties.Keys + EntryKeys(entries)
    decreases |entries|
  {
    if entries == [] then properties
    else
      EntryKeysFirst(entries);
      SetProperties(properties[entries[0].0 := entries[0].1], entries[1..])
  }

  /** After the assignments, a key is present iff it was present or assigned, and the last assignment wins. */
  lemma {:induction false} SetPropertiesLookup(properties: map<string, string>, entries: seq<(string, string)>, key: string)
    ensures var r := SetProperties(properties, entries);
      && (key in r <==> key in properties || key in EntryKeys(entries))
      && (key in r ==> r[key] == match LastValue(entries, key) case Some(v) => v case None => properties[key])
    decreases |entries|
  {
    if entries != [] {
      SetPropertiesLookup(properties[entries[0].0 := entries[0].1], entries[1..], key);
    }
  }

  /** The property map of an activity: every baggage item, then every tag, overwriting. */
  function ActivityProperties(activity: Activity): (p: map<string, string>)
    ensures p.Keys == EntryKeys(activity.baggage) + EntryKeys(activity.tagObjects)
  {
    SetProperties(SetProperties(map[], activity.baggage), activity.tagObjects)
  }

  /** Every baggage key and every tag key is a property; on a shared key the tag's value wins. */
  lemma PropertiesMerge(activity: Activity, key: string)
    ensures var p := ActivityProperties(activity);
      && (key in p <==> key in EntryKeys(activity.baggage) || key in EntryKeys(activity.tagObjects))
      && (key in EntryKeys(activity.tagObjects) ==> p[key] == LastValue(activity.tagObjects, key).value)
      && (key !in EntryKeys(activity.tagObjects) && key in EntryKeys(activity.baggage) ==>
            p[key] == LastValue(activity.baggage, key).value)
  {
    SetPropertiesLookup(map[], activity.baggage, key);
    SetPropertiesLookup(SetProperties(map[], activity.baggage), activity.tagObjects, key);
  }

  // ---------------------------------------------------------------------------------------
  // Conversion
  // ---------------------------------------------------------------------------------------

  /** The fields every telemetry record takes from the activity. */
  function CreateTelemetryCore(activity: Activity): (t: TelemetryCore)
    ensures t.name == activity.displayName && t.timestamp == activity.startTimeUtc
    ensures t.duration == activity.duration && t.operationId == activity.rootId
    ensures |t.id| == 16
    ensures activity.spanId.SpanId? ==> FromHex(t.id) == Some(activity.spanId.bytes)
    ensures activity.spanId == DefaultSpanId ==> t.id == "0000000000000000"
    ensures t.parentId.Some? <==> activity.parentSpanId != DefaultSpanId
    ensures t.parentId.Some? ==> FromHex(t.parentId.value) == Some(activity.parentSpanId.bytes)
    ensures t.properties == ActivityProperties(activity)
    ensures t.properties.Keys == EntryKeys(activity.baggage) + EntryKeys(activity.tagObjects)
  {
    var properties := ActivityProperties(activity);
    TelemetryCore(
      activity.displayName,
      SpanIdText(activity.spanId),
      activity.startTimeUtc,
      activity.duration,
      activity.rootId,
      if activity.parentSpanId != DefaultSpanId then Some(SpanIdText(activity.parentSpanId)) else None,
      properties)
  }

  /** Server and consumer spans become requests; every other kind becomes a dependency. */
  function CreateTelemetry(activity: Activity): (t: OperationTelemetry)
    ensures t.RequestTelemetry? <==> activity.kind == Server || activity.kind == Consumer
    ensures t.success <==> activity.status != Error
    ensures t.core == CreateTelemetryCore(activity)
    ensures t.RequestTelemetry? ==> t.responseCode == (if activity.status != Error then "200" else "500")
    ensures t.DependencyTelemetry? ==>
      t.dependencyType == (if activity.kind == Internal then "InProc" else "DurableTask")
  {
    var status := activity.status;
    match activity.kind
    case Consumer | Server =>
      var core := CreateTelemetryCore(activity);
      var success := status != Error;
      // a fresh request record has an empty response code
      var responseCode := "";
      RequestTelemetry(core, success, if responseCode == "" then (if success then "200" else "500") else responseCode)
    case Internal | Client | Producer =>
      var core := CreateTelemetryCore(activity);
      DependencyTelemetry(core, status != Error, if activity.kind == Internal then "InProc" else "DurableTask")
  }

  // ---------------------------------------------------------------------------------------
  // The listener and the module
  // ---------------------------------------------------------------------------------------

  const DurableTaskSourcePrefix := "WebJobs.Extensions.DurableTask"

  /** Ordinal prefix test, one character at a time. */
  function StartsWith(s: string, prefix: string): (r: bool)
    ensures r <==> |prefix| <= |s| && s[..|prefix|] == prefix
  {
    if prefix == [] then true
    else if s == [] then false
    else s[0] == prefix[0] && StartsWith(s[1..], prefix[1..])
  }

  /** The listener's source filter: only the extension's own activity sources. */
  function ShouldListenTo(sourceName: string): (r: bool)
    ensures r <==> |DurableTaskSourcePrefix| <= |sourceName| &&
                   sourceName[..|DurableTaskSourcePrefix|] == DurableTaskSourcePrefix
  {
    StartsWith(sourceName, DurableTaskSourcePrefix)
  }

  datatype TelemetryConfiguration = TelemetryConfiguration(connectionString: string)

  /** The telemetry client as a sink: what it was given to track, and how often it was asked to flush. */
  datatype TelemetryClient = TelemetryClient(
    configuration: TelemetryConfiguration,
    tracked: seq<OperationTelemetry>,
    flushRequests: nat)

  /** The activity listener: while registered it samples every activity of a matching source with all data. */
  datatype ActivityListener = ActivityListener(registered: bool)

  class WebJobsTelemetryModule {
    var telemetryClient: Option<TelemetryClient>
    var listener: Option<ActivityListener>
    ghost var disposals: nat

    constructor ()
      ensures telemetryClient == None && listener == None && disposals == 0
    {
      telemetryClient := None;
      listener := None;
      disposals := 0;
    }

    /** Creates the telemetry client and registers the listener. */
    method Initialize(configuration: TelemetryConfiguration)
      modifies this
      ensures telemetryClient == Some(TelemetryClient(configuration, [], 0))
      ensures listener == Some(ActivityListener(true))
      ensures disposals == old(disposals)
    {
      telemetryClient := Some(TelemetryClient(configuration, [], 0));
      listener := Some(ActivityListener(true));
    }

    /** The listener's stop callback: tracks one record for a fully sampled activity, nothing otherwise. */
    method OnEndActivity(activity: Activity)
      requires telemetryClient.Some?
      modifies this
      ensures telemetryClient.Some?
      ensures telemetryClient.value == old(telemetryClient.value).(tracked :=
        old(telemetryClient.value.tracked) + if activity.isAllDataRequested then [CreateTelemetry(activity)] else [])
      ensures listener == old(listener) && disposals == old(disposals)
    {
      if !activity.isAllDataRequested {
        return;
      }
      var telemetry := CreateTelemetry(activity);
      var client := telemetryClient.value;
      telemetryClient := Some(client.(tracked := client.tracked + [telemetry]));
    }

    /**
     * Unregisters the listener (if any) and asks the client (if any) to flush; a flush that
     * times out or fails is ignored, so disposal never fails.
     */
    method DisposeAsync()
      modifies this
      ensures listener == if old(listener).Some? then Some(ActivityListener(false)) else None
      ensures telemetryClient == if old(telemetryClient).Some?
        then Some(old(telemetryClient.value).(flushRequests := old(telemetryClient.value.flushRequests) + 1))
        else None
      ensures disposals == old(disposals) + 1
    {
      if listener.Some? {
        listener := Some(ActivityListener(false));
      }
      if telemetryClient.Some? {
        var client := telemetryClient.value;
        telemetryClient := Some(client.(flushRequests := client.flushRequests + 1));
      }
      disposals := disposals + 1;
    }
  }
}
