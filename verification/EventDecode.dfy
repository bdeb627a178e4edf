/** A decoder that looks members up by name, and the proof that it recovers every field of every event from its text. */
module EventDecode {
  import opened Prelude
  import opened Decimal
  import opened Json
  import opened Layout
  import opened Event

  // ---- reading fields ----------------------------------------------------------------------------

  function AsText(j: Json): string {
    if j.JStr? then j.s else ""
  }

  function AsOptText(j: Json): Option<string> {
    if j.JStr? then Some(j.s) else None
  }

  function AsNumber(j: Json): nat {
    if j.JNum? && AllDigits(j.token) then NumberOf(j.token) else 0
  }

  function AsOptNumber(j: Json): Option<nat> {
    if j.JNum? && AllDigits(j.token) then Some(NumberOf(j.token)) else None
  }

  function AsFloat(j: Json): F32 {
    if j.JNum? then Finite(j.token) else NonFinite
  }

  function AsOptFloat(j: Json): Option<F32> {
    if j.JNum? then Some(Finite(j.token)) else None
  }

  function TextsOf(items: seq<Json>): seq<string> {
    if items == [] then [] else [AsText(items[0])] + TextsOf(items[1..])
  }

  function AsTexts(j: Json): seq<string> {
    if j.JArr? then TextsOf(j.items) else []
  }

  function MembersOf(j: Json): seq<Member> {
    if j.JObj? then j.members else []
  }

  /** The value of the first member with that key. */
  function Lookup(m: seq<Member>, key: string): Json {
    if m == [] then JNull else if m[0].key == key then m[0].value else Lookup(m[1..], key)
  }

  /** The values of the schema's keys, wherever they stand in the object. */
  function Pick(m: seq<Member>, schema: seq<string>): (v: seq<Json>)
    ensures |v| == |schema|
  {
    if schema == [] then [] else [Lookup(m, schema[0])] + Pick(m, schema[1..])
  }

  function At(v: seq<Json>, i: nat): Json {
    if i < |v| then v[i] else JNull
  }

  function EvidenceItem(v: seq<Json>): Evidence {
    Evidence(AsText(At(v, 0)), AsText(At(v, 1)), AsFloat(At(v, 2)))
  }

  function EvidenceOf(items: seq<Json>): seq<Evidence> {
    if items == [] then [] else [EvidenceItem(Pick(MembersOf(items[0]), ["type", "value", "confidence"]))] + EvidenceOf(items[1..])
  }

  function AsEvidence(j: Json): seq<Evidence> {
    if j.JArr? then EvidenceOf(j.items) else []
  }

  function AsHeartbeat(v: seq<Json>): Payload {
    Heartbeat(AsText(At(v, 0)), AsText(At(v, 1)), AsText(At(v, 2)), AsText(At(v, 3)))
  }

  function AsCollectorStatus(v: seq<Json>): Payload {
    CollectorStatus(AsText(At(v, 0)), AsText(At(v, 1)), AsText(At(v, 2)))
  }

  function AsAgentPerformance(v: seq<Json>): Payload {
    AgentPerformance(AsText(At(v, 0)), AsOptFloat(At(v, 1)), AsOptFloat(At(v, 2)), AsNumber(At(v, 3)),
                     AsText(At(v, 4)), AsOptNumber(At(v, 5)), AsOptText(At(v, 6)), AsNumber(At(v, 7)),
                     AsNumber(At(v, 8)), AsOptNumber(At(v, 9)))
  }

  function AsProcessStarted(v: seq<Json>): Payload {
    ProcessStarted(AsText(At(v, 0)), AsOptText(At(v, 1)), AsNumber(At(v, 2)), AsOptNumber(At(v, 3)),
                   AsText(At(v, 4)), AsOptText(At(v, 5)), AsOptText(At(v, 6)), AsOptText(At(v, 7)),
                   AsOptText(At(v, 8)), AsOptText(At(v, 9)), AsOptText(At(v, 10)), AsOptText(At(v, 11)),
                   AsText(At(v, 12)))
  }

  function AsFlowStarted(v: seq<Json>): Payload {
    FlowStarted(AsText(At(v, 0)), AsOptText(At(v, 1)), AsOptNumber(At(v, 2)), AsOptText(At(v, 3)),
                AsOptText(At(v, 4)), AsText(At(v, 5)), AsText(At(v, 6)), AsText(At(v, 7)), AsOptNumber(At(v, 8)),
                AsText(At(v, 9)), AsOptNumber(At(v, 10)), AsOptText(At(v, 11)), AsText(At(v, 12)), AsFloat(At(v, 13)))
  }

  function AsDnsObserved(v: seq<Json>): Payload {
    DnsObserved(AsText(At(v, 0)), AsOptText(At(v, 1)), AsTexts(At(v, 2)), AsOptText(At(v, 3)), AsOptText(At(v, 4)),
                AsOptNumber(At(v, 5)), AsText(At(v, 6)), AsFloat(At(v, 7)))
  }

  function AsAgentDetected(v: seq<Json>): Payload {
    AgentDetected(AsText(At(v, 0)), AsOptText(At(v, 1)), AsOptText(At(v, 2)), AsText(At(v, 3)), AsFloat(At(v, 4)),
                  AsFloat(At(v, 5)), AsNumber(At(v, 6)), AsTexts(At(v, 7)), AsEvidence(At(v, 8)), AsText(At(v, 9)))
  }

  function AsRiskFindingCreated(v: seq<Json>): Payload {
    RiskFindingCreated(AsText(At(v, 0)), AsText(At(v, 1)), AsNumber(At(v, 2)), AsText(At(v, 3)), AsText(At(v, 4)),
                       AsOptText(At(v, 5)), AsOptText(At(v, 6)), AsOptText(At(v, 7)), AsEvidence(At(v, 8)),
                       AsText(At(v, 9)))
  }

  /** The payload is told by the first key of its object. */
  function KindOf(key: string): nat {
    if key == "status" then 0
    else if key == "collector" then 1
    else if key == "os" then 2
    else if key == "process_guid" then 3
    else if key == "flow_id" then 4
    else if key == "query" then 5
    else if key == "detection_id" then 6
    else if key == "finding_id" then 7
    else 8
  }

  /** The keys a consumer knows each payload kind by. */
  function Schema(kind: nat): seq<string> {
    match kind
    case 0 =>
      ["status", "message", "os", "arch"]
    case 1 =>
      ["collector", "status", "message"]
    case 2 =>
      ["os", "process_cpu_percent", "process_memory_rss_mb", "collector_runtime_ms", "collector_name",
       "collection_interval_ms", "skipped_reason", "event_queue_depth", "spool_bytes", "pack_eval_runtime_ms"]
    case 3 =>
      ["process_guid", "parent_process_guid", "pid", "ppid", "name", "path", "command_line", "user",
       "logon_session_id", "integrity_level", "sha256", "publisher", "collection_method"]
    case 4 =>
      ["flow_id", "process_guid", "pid", "process_name", "user", "protocol", "direction", "local_ip", "local_port",
       "remote_ip", "remote_port", "remote_hostname", "attribution_method", "attribution_confidence"]
    case 5 =>
      ["query", "query_type", "answers", "resolver", "process_guid", "pid", "correlation_method",
       "correlation_confidence"]
    case 6 =>
      ["detection_id", "process_guid", "flow_id", "classification", "agent_likelihood", "confidence", "risk_score",
       "detected_patterns", "evidence", "recommended_action"]
    case 7 =>
      ["finding_id", "severity", "risk_score", "title", "description", "process_guid", "flow_id", "detection_id",
       "evidence", "recommended_action"]
    case _ => []
  }

  function EnvelopeSchema(): seq<string> {
    ["schema_version", "event_id", "event_type", "timestamp_ms", "source", "device_id", "agent_id", "sensor_version",
     "sequence", "payload"]
  }

  function Construct(kind: nat, v: seq<Json>): Option<Payload> {
    match kind
    case 0 => Some(AsHeartbeat(v))
    case 1 => Some(AsCollectorStatus(v))
    case 2 => Some(AsAgentPerformance(v))
    case 3 => Some(AsProcessStarted(v))
    case 4 => Some(AsFlowStarted(v))
    case 5 => Some(AsDnsObserved(v))
    case 6 => Some(AsAgentDetected(v))
    case 7 => Some(AsRiskFindingCreated(v))
    case _ => None
  }

  function DecodePayload(m: seq<Member>): Option<Payload> {
    if m == [] then None
    else
      var kind := KindOf(m[0].key);
      Construct(kind, Pick(m, Schema(kind)))
  }

  function ConstructEvent(v: seq<Json>): Option<Event> {
    var payload := DecodePayload(MembersOf(At(v, 9)));
    if AsText(At(v, 0)) != "visibility.v1" || AsText(At(v, 4)) != "aegis-linux-agent" then None
    else if payload.None? then None
    else Some(Envelope(v, payload.value))
  }

  function Envelope(v: seq<Json>, payload: Payload): Event {
    Event(AsText(At(v, 1)), AsText(At(v, 2)), AsNumber(At(v, 3)), AsText(At(v, 5)), AsText(At(v, 6)), AsText(At(v, 7)),
          AsNumber(At(v, 8)), payload)
  }

  function DecodeEvent(j: Json): Option<Event> {
    ConstructEvent(Pick(MembersOf(j), EnvelopeSchema()))
  }

  // ---- what cannot be recovered: the kind of a non-finite float ------------------------------------

  function FloatSeen(f: F32): F32 {
    if f.Finite? then f else Finite("0")
  }

  function OptFloatSeen(f: Option<F32>): Option<F32> {
    if f.Some? && f.value.Finite? then f else None
  }

  function EvidenceSeen(values: seq<Evidence>): seq<Evidence> {
    if values == [] then []
    else [values[0].(confidence := FloatSeen(values[0].confidence))] + EvidenceSeen(values[1..])
  }

  function PayloadSeen(p: Payload): Payload {
    match p
    case AgentPerformance(_, cpu, memory, _, _, _, _, _, _, _) =>
      p.(cpuPercent := OptFloatSeen(cpu), memoryMb := OptFloatSeen(memory))
    case FlowStarted(_, _, _, _, _, _, _, _, _, _, _, _, _, conf) => p.(attributionConfidence := FloatSeen(conf))
    case DnsObserved(_, _, _, _, _, _, _, conf) => p.(correlationConfidence := FloatSeen(conf))
    case AgentDetected(_, _, _, _, likelihood, conf, _, _, evidence, _) =>
      p.(likelihood := FloatSeen(likelihood), confidence := FloatSeen(conf), evidence := EvidenceSeen(evidence))
    case RiskFindingCreated(_, _, _, _, _, _, _, _, evidence, _) => p.(findingEvidence := EvidenceSeen(evidence))
    case _ => p
  }

  /** The event as any reader of its text can know it. */
  function Seen(e: Event): Event {
    e.(payload := PayloadSeen(e.payload))
  }

  // ---- recovery ------------------------------------------------------------------------------------

  /** No key stands twice. */
  predicate Distinct(keys: seq<string>) {
    forall i, j :: 0 <= i < j < |keys| ==> keys[i] != keys[j]
  }

  lemma {:induction false} LookupFilled(keys: seq<string>, cells: seq<Cell>, i: nat)
    requires |keys| == |cells| && Distinct(keys) && i < |keys|
    ensures Lookup(Members(Fill(keys, cells)), keys[i]) == CellTree(cells[i])
  {
    if i > 0 {
      LookupFilled(keys[1..], cells[1..], i - 1);
      assert Members(Fill(keys, cells))[1..] == Members(Fill(keys[1..], cells[1..]));
    }
  }

  lemma {:induction false} PickAt(m: seq<Member>, schema: seq<string>, i: nat)
    requires i < |schema|
    ensures Pick(m, schema)[i] == Lookup(m, schema[i])
  {
    if i > 0 {
      PickAt(m, schema[1..], i - 1);
    }
  }

  /** The values are those of the cells, in order. */
  predicate Carries(v: seq<Json>, cells: seq<Cell>) {
    |v| == |cells| && forall i :: 0 <= i < |cells| ==> v[i] == CellTree(cells[i])
  }

  /** Looking a filled format string's keys up by name gives its arguments' values. */
  lemma PickFilled(keys: seq<string>, cells: seq<Cell>)
    requires |keys| == |cells| && Distinct(keys)
    ensures Carries(Pick(Members(Fill(keys, cells)), keys), cells)
  {
    var m := Members(Fill(keys, cells));
    forall i | 0 <= i < |cells| ensures Pick(m, keys)[i] == CellTree(cells[i]) {
      PickAt(m, keys, i);
      LookupFilled(keys, cells, i);
    }
  }

  lemma NumberBack(n: nat)
    ensures AsNumber(CellTree(Number(n))) == n && AsOptNumber(CellTree(OptNumber(Some(n)))) == Some(n)
  {
    NumberOfPad(n, 1);
  }

  lemma OptNumberBack(n: Option<nat>)
    ensures AsOptNumber(CellTree(OptNumber(n))) == n
  {
    if n.Some? {
      NumberBack(n.value);
    }
  }

  lemma {:induction false} TextsBack(values: seq<string>)
    ensures AsTexts(CellTree(List(TextCells(values)))) == values
  {
    if values != [] {
      TextsBack(values[1..]);
      assert TextCells(values)[1..] == TextCells(values[1..]);
      assert CellTrees(TextCells(values))[1..] == CellTrees(TextCells(values[1..]));
    }
  }

  lemma EvidenceBackOne(e: Evidence)
    ensures EvidenceItem(Pick(MembersOf(CellTree(Nested(EvidenceFields(e)))), ["type", "value", "confidence"]))
         == e.(confidence := FloatSeen(e.confidence))
  {
    PickFilled(["type", "value", "confidence"], [Text(e.kind), Text(e.value), Float(e.confidence)]);
  }

  lemma {:induction false} EvidenceBack(values: seq<Evidence>)
    ensures AsEvidence(CellTree(List(EvidenceCells(values)))) == EvidenceSeen(values)
  {
    if values != [] {
      EvidenceBackOne(values[0]);
      EvidenceBack(values[1..]);
      assert EvidenceCells(values)[1..] == EvidenceCells(values[1..]);
    }
  }

  lemma HeartbeatBack(p: Payload, v: seq<Json>)
    requires p.Heartbeat? && Carries(v, HeartbeatCells(p))
    ensures AsHeartbeat(v) == p
  {
  }

  lemma CollectorStatusBack(p: Payload, v: seq<Json>)
    requires p.CollectorStatus? && Carries(v, CollectorStatusCells(p))
    ensures AsCollectorStatus(v) == p
  {
  }

  lemma AgentPerformanceBack(p: Payload, v: seq<Json>)
    requires p.AgentPerformance? && Carries(v, AgentPerformanceCells(p))
    ensures AsAgentPerformance(v) == p.(cpuPercent := OptFloatSeen(p.cpuPercent), memoryMb := OptFloatSeen(p.memoryMb))
  {
    NumberBack(p.runtimeMs);
    OptNumberBack(p.intervalMs);
    NumberBack(p.queueDepth);
    NumberBack(p.spoolBytes);
    OptNumberBack(p.packEvalMs);
  }

  lemma ProcessStartedBack(p: Payload, v: seq<Json>)
    requires p.ProcessStarted? && Carries(v, ProcessStartedCells(p))
    ensures AsProcessStarted(v) == p
  {
    NumberBack(p.pid);
    OptNumberBack(p.ppid);
  }

  lemma FlowStartedBack(p: Payload, v: seq<Json>)
    requires p.FlowStarted? && Carries(v, FlowStartedCells(p))
    ensures AsFlowStarted(v) == p.(attributionConfidence := FloatSeen(p.attributionConfidence))
  {
    OptNumberBack(p.flowPid);
    OptNumberBack(p.localPort);
    OptNumberBack(p.remotePort);
  }

  lemma DnsObservedBack(p: Payload, v: seq<Json>)
    requires p.DnsObserved? && Carries(v, DnsObservedCells(p))
    ensures AsDnsObserved(v) == p.(correlationConfidence := FloatSeen(p.correlationConfidence))
  {
    TextsBack(p.answers);
    OptNumberBack(p.dnsPid);
  }

  lemma AgentDetectedBack(p: Payload, v: seq<Json>)
    requires p.AgentDetected? && Carries(v, AgentDetectedCells(p))
    ensures AsAgentDetected(v) == p.(likelihood := FloatSeen(p.likelihood), confidence := FloatSeen(p.confidence), evidence := EvidenceSeen(p.evidence))
  {
    NumberBack(p.riskScore);
    TextsBack(p.patterns);
    EvidenceBack(p.evidence);
  }

  lemma RiskFindingCreatedBack(p: Payload, v: seq<Json>)
    requires p.RiskFindingCreated? && Carries(v, RiskFindingCreatedCells(p))
    ensures AsRiskFindingCreated(v) == p.(findingEvidence := EvidenceSeen(p.findingEvidence))
  {
    NumberBack(p.findingScore);
    EvidenceBack(p.findingEvidence);
  }

  function Kind(p: Payload): nat {
    match p
    case Heartbeat(_, _, _, _) => 0
    case CollectorStatus(_, _, _) => 1
    case AgentPerformance(_, _, _, _, _, _, _, _, _, _) => 2
    case ProcessStarted(_, _, _, _, _, _, _, _, _, _, _, _, _) => 3
    case FlowStarted(_, _, _, _, _, _, _, _, _, _, _, _, _, _) => 4
    case DnsObserved(_, _, _, _, _, _, _, _) => 5
    case AgentDetected(_, _, _, _, _, _, _, _, _, _) => 6
    case RiskFindingCreated(_, _, _, _, _, _, _, _, _, _) => 7
  }

  lemma LongKeysAreSchema(p: Payload)
    requires p.ProcessStarted? || p.FlowStarted? || p.AgentPerformance?
    ensures PayloadKeys(p) == Schema(Kind(p)) && |PayloadKeys(p)| == |PayloadCells(p)|
  {
  }

  /** The printer writes the keys the consumer knows. */
  lemma KeysAreSchema(p: Payload)
    ensures PayloadKeys(p) == Schema(Kind(p)) && |PayloadKeys(p)| == |PayloadCells(p)|
  {
    if p.ProcessStarted? || p.FlowStarted? || p.AgentPerformance? {
      LongKeysAreSchema(p);
    }
  }

  /** The first of them tells the kind. */
  lemma KeysTellKind(p: Payload)
    ensures PayloadKeys(p) != [] && KindOf(PayloadKeys(p)[0]) == Kind(p)
  {
    if p.ProcessStarted? || p.AgentDetected? {
      assert PayloadKeys(p)[0][0] == if p.ProcessStarted? then 'p' else 'd';
    }
  }

  lemma ObservationKeysDistinct(p: Payload)
    requires p.FlowStarted? || p.DnsObserved?
    ensures Distinct(PayloadKeys(p))
  {
  }

  lemma ProcessKeysDistinct(p: Payload)
    requires p.ProcessStarted? || p.AgentPerformance?
    ensures Distinct(PayloadKeys(p))
  {
  }

  /** No format string has a key twice. */
  lemma KeysAreDistinct(p: Payload)
    ensures Distinct(PayloadKeys(p))
  {
    if p.FlowStarted? || p.DnsObserved? {
      ObservationKeysDistinct(p);
    } else if p.ProcessStarted? || p.AgentPerformance? {
      ProcessKeysDistinct(p);
    }
  }

  lemma KindBack(p: Payload, v: seq<Json>)
    requires Carries(v, PayloadCells(p))
    ensures Construct(Kind(p), v) == Some(PayloadSeen(p))
  {
    match p {
      case Heartbeat(_, _, _, _) => HeartbeatBack(p, v);
      case CollectorStatus(_, _, _) => CollectorStatusBack(p, v);
      case AgentPerformance(_, _, _, _, _, _, _, _, _, _) => AgentPerformanceBack(p, v);
      case ProcessStarted(_, _, _, _, _, _, _, _, _, _, _, _, _) => ProcessStartedBack(p, v);
      case FlowStarted(_, _, _, _, _, _, _, _, _, _, _, _, _, _) => FlowStartedBack(p, v);
      case DnsObserved(_, _, _, _, _, _, _, _) => DnsObservedBack(p, v);
      case AgentDetected(_, _, _, _, _, _, _, _, _, _) => AgentDetectedBack(p, v);
      case RiskFindingCreated(_, _, _, _, _, _, _, _, _, _) => RiskFindingCreatedBack(p, v);
    }
  }

  lemma FirstKey(keys: seq<string>, cells: seq<Cell>)
    requires |keys| == |cells| > 0
    ensures var m := Members(Fill(keys, cells)); m != [] && m[0].key == keys[0]
  {
  }

  lemma PayloadBack(p: Payload)
    ensures DecodePayload(Members(PayloadFields(p))) == Some(PayloadSeen(p))
  {
    var keys, cells := PayloadKeys(p), PayloadCells(p);
    KeysAreSchema(p);
    KeysTellKind(p);
    KeysAreDistinct(p);
    FirstKey(keys, cells);
    PickFilled(keys, cells);
    KindBack(p, Pick(Members(Fill(keys, cells)), keys));
  }

  lemma EnvelopeTexts(e: Event, payload: Cell, v: seq<Json>)
    requires Carries(v, EnvelopeCellsWith(e, payload))
    ensures |v| == 10 && v[1] == JStr(e.eventId) && v[2] == JStr(e.eventType) && v[3] == JNum(Digits(e.timestampMs))
    ensures v[5] == JStr(e.deviceId) && v[6] == JStr(e.agentId) && v[7] == JStr(e.sensorVersion)
    ensures v[8] == JNum(Digits(e.sequence)) && v[9] == CellTree(payload)
    ensures v[0] == JStr("visibility.v1") && v[4] == JStr("aegis-linux-agent")
  {
    var c := EnvelopeCellsWith(e, payload);
    assert v[0] == CellTree(c[0]) && v[4] == CellTree(c[4]);
    assert v[1] == CellTree(c[1]) && v[2] == CellTree(c[2]) && v[3] == CellTree(c[3]) && v[5] == CellTree(c[5]);
    assert v[6] == CellTree(c[6]) && v[7] == CellTree(c[7]) && v[8] == CellTree(c[8]) && v[9] == CellTree(c[9]);
  }

  lemma NumberRead(n: nat)
    ensures AsNumber(JNum(Digits(n))) == n
  {
    NumberBack(n);
  }

  lemma EnvelopeRead(e: Event, v: seq<Json>, p: Payload)
    requires |v| == 10 && v[1] == JStr(e.eventId) && v[2] == JStr(e.eventType) && AsNumber(v[3]) == e.timestampMs
    requires v[5] == JStr(e.deviceId) && v[6] == JStr(e.agentId) && v[7] == JStr(e.sensorVersion)
    requires AsNumber(v[8]) == e.sequence
    ensures Envelope(v, p) == e.(payload := p)
  {
  }

  lemma EnvelopeBack(e: Event, payload: Cell, v: seq<Json>, p: Payload)
    requires Carries(v, EnvelopeCellsWith(e, payload))
    ensures Envelope(v, p) == e.(payload := p) && At(v, 9) == CellTree(payload)
    ensures At(v, 0) == JStr("visibility.v1") && At(v, 4) == JStr("aegis-linux-agent")
  {
    EnvelopeTexts(e, payload, v);
    NumberRead(e.timestampMs);
    NumberRead(e.sequence);
    EnvelopeRead(e, v, p);
  }

  lemma EnvelopeKeysAreSchema(e: Event)
    ensures EnvelopeKeys() == EnvelopeSchema() && Distinct(EnvelopeKeys()) && |EnvelopeKeys()| == |EnvelopeCells(e)|
  {
  }

  lemma ConstructIs(v: seq<Json>, m: seq<Member>, p: Payload)
    requires At(v, 9) == JObj(m) && DecodePayload(m) == Some(p)
    requires At(v, 0) == JStr("visibility.v1") && At(v, 4) == JStr("aegis-linux-agent")
    ensures ConstructEvent(v) == Some(Envelope(v, p))
  {
  }

  lemma ConstructBack(e: Event, fields: seq<Field>, v: seq<Json>, p: Payload)
    requires Carries(v, EnvelopeCellsWith(e, Nested(fields))) && DecodePayload(Members(fields)) == Some(p)
    ensures ConstructEvent(v) == Some(e.(payload := p))
  {
    EnvelopeBack(e, Nested(fields), v, p);
    ConstructIs(v, Members(fields), p);
  }

  lemma EventBack(e: Event)
    ensures DecodeEvent(JObj(Members(EventFields(e)))) == Some(Seen(e))
  {
    EnvelopeKeysAreSchema(e);
    PickFilled(EnvelopeKeys(), EnvelopeCells(e));
    PayloadBack(e.payload);
    ConstructBack(e, PayloadFields(e.payload), Pick(Members(EventFields(e)), EnvelopeKeys()), PayloadSeen(e.payload));
  }

  /** The whole round trip: reading any event's text, followed by anything, recovers the event and the anything. */
  lemma EventsReadBack(e: Event, rest: string)
    requires Tokens(e.payload)
    ensures Read(ToJson(e) + rest) == Some((JObj(Members(EventFields(e))), rest))
    ensures DecodeEvent(JObj(Members(EventFields(e)))) == Some(Seen(e))
  {
    EventFine(e);
    LayoutReadsBack(EventFields(e), rest);
    EventBack(e);
  }

  /** No event's text starts another's, and equal texts come from events equal but for non-finite floats. */
  lemma TextDeterminesEvent(a: Event, b: Event, rest: string)
    requires Tokens(a.payload) && Tokens(b.payload)
    requires ToJson(a) == ToJson(b) + rest
    ensures rest == "" && Seen(a) == Seen(b)
  {
    EventsReadBack(a, "");
    EventsReadBack(b, rest);
    assert ToJson(a) + "" == ToJson(a);
  }
}
