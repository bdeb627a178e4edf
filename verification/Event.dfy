/** The event envelope, its eight payloads, and their JSON text. */
module Event {
  import opened Prelude
  import opened Decimal
  import opened Layout
  import opened DashIds

  datatype Evidence = Evidence(kind: string, value: string, confidence: F32)

  datatype Payload =
    | Heartbeat(status: string, message: string, os: string, arch: string)
    | CollectorStatus(collector: string, status: string, message: string)
    | AgentPerformance(os: string, cpuPercent: Option<F32>, memoryMb: Option<F32>, runtimeMs: nat, collectorName: string,
                       intervalMs: Option<nat>, skippedReason: Option<string>, queueDepth: nat, spoolBytes: nat,
                       packEvalMs: Option<nat>)
    | ProcessStarted(processGuid: string, parentGuid: Option<string>, pid: nat, ppid: Option<nat>, name: string,
                     path: Option<string>, commandLine: Option<string>, user: Option<string>, logonSession: Option<string>,
                     integrity: Option<string>, sha256: Option<string>, publisher: Option<string>, collectionMethod: string)
    | FlowStarted(flowId: string, flowGuid: Option<string>, flowPid: Option<nat>, processName: Option<string>,
                  flowUser: Option<string>, protocol: string, direction: string, localIp: string, localPort: Option<nat>,
                  remoteIp: string, remotePort: Option<nat>, remoteHostname: Option<string>, attributionMethod: string,
                  attributionConfidence: F32)
    | DnsObserved(query: string, queryType: Option<string>, answers: seq<string>, resolver: Option<string>,
                  dnsGuid: Option<string>, dnsPid: Option<nat>, correlationMethod: string, correlationConfidence: F32)
    | AgentDetected(detectionId: string, detectedGuid: Option<string>, detectedFlow: Option<string>, classification: string,
                    likelihood: F32, confidence: F32, riskScore: nat, patterns: seq<string>, evidence: seq<Evidence>,
                    recommendedAction: string)
    | RiskFindingCreated(findingId: string, severity: string, findingScore: nat, title: string, description: string,
                         findingGuid: Option<string>, findingFlow: Option<string>, findingDetection: Option<string>,
                         findingEvidence: seq<Evidence>, findingAction: string)

  datatype Event = Event(eventId: string, eventType: string, timestampMs: nat, deviceId: string, agentId: string,
                         sensorVersion: string, sequence: nat, payload: Payload)

  // ---- what the format strings contain -------------------------------------------------------

  function TextCells(values: seq<string>): (cells: seq<Cell>)
    ensures |cells| == |values|
  {
    if values == [] then [] else [Text(values[0])] + TextCells(values[1..])
  }

  function EvidenceFields(e: Evidence): seq<Field> {
    Fill(["type", "value", "confidence"], [Text(e.kind), Text(e.value), Float(e.confidence)])
  }

  function EvidenceCells(values: seq<Evidence>): (cells: seq<Cell>)
    ensures |cells| == |values|
  {
    if values == [] then [] else [Nested(EvidenceFields(values[0]))] + EvidenceCells(values[1..])
  }

  /** The keys of each payload's format string. */
  function PayloadKeys(p: Payload): seq<string> {
    match p
    case Heartbeat(_, _, _, _) =>
      ["status", "message", "os", "arch"]
    case CollectorStatus(_, _, _) =>
      ["collector", "status", "message"]
    case AgentPerformance(_, _, _, _, _, _, _, _, _, _) =>
      ["os", "process_cpu_percent", "process_memory_rss_mb", "collector_runtime_ms", "collector_name",
       "collection_interval_ms", "skipped_reason", "event_queue_depth", "spool_bytes", "pack_eval_runtime_ms"]
    case ProcessStarted(_, _, _, _, _, _, _, _, _, _, _, _, _) =>
      ["process_guid", "parent_process_guid", "pid", "ppid", "name", "path", "command_line", "user",
       "logon_session_id", "integrity_level", "sha256", "publisher", "collection_method"]
    case FlowStarted(_, _, _, _, _, _, _, _, _, _, _, _, _, _) =>
      ["flow_id", "process_guid", "pid", "process_name", "user", "protocol", "direction", "local_ip", "local_port",
       "remote_ip", "remote_port", "remote_hostname", "attribution_method", "attribution_confidence"]
    case DnsObserved(_, _, _, _, _, _, _, _) =>
      ["query", "query_type", "answers", "resolver", "process_guid", "pid", "correlation_method",
       "correlation_confidence"]
    case AgentDetected(_, _, _, _, _, _, _, _, _, _) =>
      ["detection_id", "process_guid", "flow_id", "classification", "agent_likelihood", "confidence", "risk_score",
       "detected_patterns", "evidence", "recommended_action"]
    case RiskFindingCreated(_, _, _, _, _, _, _, _, _, _) =>
      ["finding_id", "severity", "risk_score", "title", "description", "process_guid", "flow_id", "detection_id",
       "evidence", "recommended_action"]
  }

  function HeartbeatCells(p: Payload): seq<Cell>
    requires p.Heartbeat?
  {
    [Text(p.status), Text(p.message), Text(p.os), Text(p.arch)]
  }

  function CollectorStatusCells(p: Payload): seq<Cell>
    requires p.CollectorStatus?
  {
    [Text(p.collector), Text(p.status), Text(p.message)]
  }

  function AgentPerformanceCells(p: Payload): seq<Cell>
    requires p.AgentPerformance?
  {
    [Text(p.os), OptFloat(p.cpuPercent), OptFloat(p.memoryMb), Number(p.runtimeMs), Text(p.collectorName),
     OptNumber(p.intervalMs), OptText(p.skippedReason), Number(p.queueDepth), Number(p.spoolBytes),
     OptNumber(p.packEvalMs)]
  }

  function ProcessStartedCells(p: Payload): seq<Cell>
    requires p.ProcessStarted?
  {
    [Text(p.processGuid), OptText(p.parentGuid), Number(p.pid), OptNumber(p.ppid), Text(p.name), OptText(p.path),
     OptText(p.commandLine), OptText(p.user), OptText(p.logonSession), OptText(p.integrity), OptText(p.sha256),
     OptText(p.publisher), Text(p.collectionMethod)]
  }

  function FlowStartedCells(p: Payload): seq<Cell>
    requires p.FlowStarted?
  {
    [Text(p.flowId), OptText(p.flowGuid), OptNumber(p.flowPid), OptText(p.processName), OptText(p.flowUser),
     Text(p.protocol), Text(p.direction), Text(p.localIp), OptNumber(p.localPort), Text(p.remoteIp),
     OptNumber(p.remotePort), OptText(p.remoteHostname), Text(p.attributionMethod), Float(p.attributionConfidence)]
  }

  function DnsObservedCells(p: Payload): seq<Cell>
    requires p.DnsObserved?
  {
    [Text(p.query), OptText(p.queryType), List(TextCells(p.answers)), OptText(p.resolver), OptText(p.dnsGuid),
     OptNumber(p.dnsPid), Text(p.correlationMethod), Float(p.correlationConfidence)]
  }

  function AgentDetectedCells(p: Payload): seq<Cell>
    requires p.AgentDetected?
  {
    [Text(p.detectionId), OptText(p.detectedGuid), OptText(p.detectedFlow), Text(p.classification),
     Float(p.likelihood), Float(p.confidence), Number(p.riskScore), List(TextCells(p.patterns)),
     List(EvidenceCells(p.evidence)), Text(p.recommendedAction)]
  }

  function RiskFindingCreatedCells(p: Payload): seq<Cell>
    requires p.RiskFindingCreated?
  {
    [Text(p.findingId), Text(p.severity), Number(p.findingScore), Text(p.title), Text(p.description),
     OptText(p.findingGuid), OptText(p.findingFlow), OptText(p.findingDetection),
     List(EvidenceCells(p.findingEvidence)), Text(p.findingAction)]
  }

  /** The arguments of each payload's format string. */
  function PayloadCells(p: Payload): seq<Cell> {
    match p
    case Heartbeat(_, _, _, _) => HeartbeatCells(p)
    case CollectorStatus(_, _, _) => CollectorStatusCells(p)
    case AgentPerformance(_, _, _, _, _, _, _, _, _, _) => AgentPerformanceCells(p)
    case ProcessStarted(_, _, _, _, _, _, _, _, _, _, _, _, _) => ProcessStartedCells(p)
    case FlowStarted(_, _, _, _, _, _, _, _, _, _, _, _, _, _) => FlowStartedCells(p)
    case DnsObserved(_, _, _, _, _, _, _, _) => DnsObservedCells(p)
    case AgentDetected(_, _, _, _, _, _, _, _, _, _) => AgentDetectedCells(p)
    case RiskFindingCreated(_, _, _, _, _, _, _, _, _, _) => RiskFindingCreatedCells(p)
  }

  function PayloadFields(p: Payload): seq<Field> {
    Fill(PayloadKeys(p), PayloadCells(p))
  }

  const SCHEMA := "visibility.v1"

  const SOURCE := "aegis-linux-agent"

  function EnvelopeKeys(): seq<string> {
    ["schema_version", "event_id", "event_type", "timestamp_ms", "source", "device_id", "agent_id", "sensor_version",
     "sequence", "payload"]
  }

  function EnvelopeCellsWith(e: Event, payload: Cell): seq<Cell> {
    [Text(SCHEMA), Text(e.eventId), Text(e.eventType), Number(e.timestampMs), Text(SOURCE), Text(e.deviceId),
     Text(e.agentId), Text(e.sensorVersion), Number(e.sequence), payload]
  }

  function EnvelopeCells(e: Event): seq<Cell> {
    EnvelopeCellsWith(e, Nested(PayloadFields(e.payload)))
  }

  function EventFields(e: Event): seq<Field> {
    Fill(EnvelopeKeys(), EnvelopeCells(e))
  }

  /** `AegisEvent::to_json` */
  function ToJson(e: Event): string {
    CellText(Nested(EventFields(e)))
  }

  // ---- the float tokens the printer of `f32` supplies ------------------------------------------

  predicate EvidenceTokens(values: seq<Evidence>) {
    forall i :: 0 <= i < |values| ==> IsToken(values[i].confidence)
  }

  /** Every finite float in the payload is given by a JSON number token. */
  predicate Tokens(p: Payload) {
    match p
    case AgentPerformance(_, cpu, memory, _, _, _, _, _, _, _) =>
      (cpu.Some? ==> IsToken(cpu.value)) && (memory.Some? ==> IsToken(memory.value))
    case FlowStarted(_, _, _, _, _, _, _, _, _, _, _, _, _, conf) => IsToken(conf)
    case DnsObserved(_, _, _, _, _, _, _, conf) => IsToken(conf)
    case AgentDetected(_, _, _, _, likelihood, conf, _, _, evidence, _) =>
      IsToken(likelihood) && IsToken(conf) && EvidenceTokens(evidence)
    case RiskFindingCreated(_, _, _, _, _, _, _, _, evidence, _) => EvidenceTokens(evidence)
    case _ => true
  }

  predicate AllFine(cells: seq<Cell>) {
    forall i :: 0 <= i < |cells| ==> Fine(cells[i])
  }

  lemma {:induction false} FillFine(keys: seq<string>, cells: seq<Cell>)
    requires AllFine(cells)
    ensures Fine(Nested(Fill(keys, cells)))
  {
    if keys != [] && cells != [] {
      FillFine(keys[1..], cells[1..]);
    }
  }

  lemma {:induction false} TextCellsFine(values: seq<string>)
    ensures AllFine(TextCells(values))
  {
    if values != [] {
      TextCellsFine(values[1..]);
    }
  }

  lemma EvidenceFine(e: Evidence)
    requires IsToken(e.confidence)
    ensures Fine(Nested(EvidenceFields(e)))
  {
    FillFine(["type", "value", "confidence"], [Text(e.kind), Text(e.value), Float(e.confidence)]);
  }

  lemma {:induction false} EvidenceCellsFine(values: seq<Evidence>)
    requires EvidenceTokens(values)
    ensures AllFine(EvidenceCells(values))
  {
    if values != [] {
      EvidenceFine(values[0]);
      EvidenceCellsFine(values[1..]);
    }
  }

  lemma VerdictFine(p: Payload)
    requires Tokens(p) && (p.AgentDetected? || p.RiskFindingCreated?)
    ensures AllFine(PayloadCells(p))
  {
    if p.AgentDetected? {
      TextCellsFine(p.patterns);
      EvidenceCellsFine(p.evidence);
    } else {
      EvidenceCellsFine(p.findingEvidence);
    }
  }

  lemma ObservationFine(p: Payload)
    requires Tokens(p) && (p.ProcessStarted? || p.FlowStarted? || p.DnsObserved?)
    ensures AllFine(PayloadCells(p))
  {
    if p.DnsObserved? {
      TextCellsFine(p.answers);
    }
  }

  lemma CellsFine(p: Payload)
    requires Tokens(p)
    ensures AllFine(PayloadCells(p))
  {
    if p.ProcessStarted? || p.FlowStarted? || p.DnsObserved? {
      ObservationFine(p);
    } else if p.AgentDetected? || p.RiskFindingCreated? {
      VerdictFine(p);
    }
  }

  lemma PayloadFine(p: Payload)
    requires Tokens(p)
    ensures Fine(Nested(PayloadFields(p)))
  {
    CellsFine(p);
    FillFine(PayloadKeys(p), PayloadCells(p));
  }

  lemma EventFine(e: Event)
    requires Tokens(e.payload)
    ensures Fine(Nested(EventFields(e)))
  {
    PayloadFine(e.payload);
    FillFine(EnvelopeKeys(), EnvelopeCells(e));
  }

  /** `to_json` writes no control character, so no newline. */
  lemma EventIsOneLine(e: Event)
    requires Tokens(e.payload)
    ensures OneLine(ToJson(e))
  {
    EventFine(e);
    TextIsOneLine(Nested(EventFields(e)));
  }

  // ---- making events ---------------------------------------------------------------------------

  datatype Config = Config(deviceId: string, agentId: string, sensorVersion: string)

  /** One call of `AegisEvent::new`; the time is absent when the clock stands before the epoch. */
  datatype Call = Call(config: Config, eventType: string, sinceEpochMs: Option<nat>, payload: Payload)

  function EventId(agentId: string, timestampMs: nat, sequence: nat): string {
    agentId + "-" + Digits(timestampMs) + "-" + Digits(sequence)
  }

  function Made(call: Call, sequence: nat): Event {
    var timestampMs := if call.sinceEpochMs.Some? then call.sinceEpochMs.value else 0;
    Event(EventId(call.config.agentId, timestampMs, sequence), call.eventType, timestampMs, call.config.deviceId,
          call.config.agentId, call.config.sensorVersion, sequence, call.payload)
  }

  /** `fetch_add` wraps. */
  function Wrap(n: nat): nat {
    n % 0x1_0000_0000_0000_0000
  }

  lemma WrapNext(n: nat)
    ensures Wrap(Wrap(n) + 1) == Wrap(n + 1)
  {
  }

  /** The events of a run of calls, after `drawn` earlier ones. */
  function MadeRun(calls: seq<Call>, drawn: nat): (events: seq<Event>)
    ensures |events| == |calls|
  {
    if calls == [] then [] else [Made(calls[0], Wrap(1 + drawn))] + MadeRun(calls[1..], drawn + 1)
  }

  /** The process-wide counter `EVENT_SEQUENCE` and the constructor that draws from it. */
  class EventSequence {
    var next: nat
    ghost var calls: seq<Call>
    ghost var made: seq<Event>

    ghost predicate Valid()
      reads this
    {
      next == Wrap(1 + |calls|) && made == MadeRun(calls, 0)
    }

    constructor ()
      ensures Valid() && calls == []
    {
      next, calls, made := 1, [], [];
    }

    method New(call: Call) returns (event: Event)
      requires Valid()
      modifies this
      ensures Valid() && calls == old(calls) + [call] && made == old(made) + [event]
      ensures event == Made(call, old(next))
      ensures event.deviceId == call.config.deviceId && event.agentId == call.config.agentId
      ensures event.sensorVersion == call.config.sensorVersion && event.eventType == call.eventType
      ensures event.payload == call.payload && event.sequence == old(next)
      ensures if call.sinceEpochMs.None? then event.timestampMs == 0 else call.sinceEpochMs == Some(event.timestampMs)
    {
      event := Made(call, next);
      RunExtends(calls, call, 0);
      WrapNext(1 + |calls|);
      next := Wrap(next + 1);
      calls, made := calls + [call], made + [event];
    }
  }

  lemma {:induction false} RunExtends(calls: seq<Call>, call: Call, drawn: nat)
    ensures MadeRun(calls + [call], drawn) == MadeRun(calls, drawn) + [Made(call, Wrap(1 + drawn + |calls|))]
  {
    var all := calls + [call];
    if calls == [] {
      assert all[1..] == [];
    } else {
      RunExtends(calls[1..], call, drawn + 1);
      assert all[0] == calls[0] && all[1..] == calls[1..] + [call];
      var last := Made(call, Wrap(1 + drawn + |calls|));
      assert 1 + (drawn + 1) + |calls[1..]| == 1 + drawn + |calls|;
      ConcatAssociates([Made(calls[0], Wrap(1 + drawn))], MadeRun(calls[1..], drawn + 1), [last]);
    }
  }

  /** The sequence number, the time and the agent are read back off an event id, whatever the agent is called. */
  lemma EventIdReads(agentId: string, timestampMs: nat, sequence: nat)
    ensures var id := EventId(agentId, timestampMs, sequence);
            var head := BeforeDash(id);
            && AllDigits(AfterDash(id)) && NumberOf(AfterDash(id)) == sequence
            && AllDigits(AfterDash(head)) && NumberOf(AfterDash(head)) == timestampMs
            && BeforeDash(head) == agentId
  {
    NumberReadsBack(agentId + "-" + Digits(timestampMs), sequence);
    NumberReadsBack(agentId, timestampMs);
  }

  /** So an event id determines them. */
  lemma EventIdIsInjective(a: string, t: nat, s: nat, b: string, u: nat, v: nat)
    requires EventId(a, t, s) == EventId(b, u, v)
    ensures a == b && t == u && s == v
  {
    EventIdReads(a, t, s);
    EventIdReads(b, u, v);
  }

  /** The id is made of the event's own agent, time and sequence number. */
  predicate Identified(e: Event) {
    e.eventId == EventId(e.agentId, e.timestampMs, e.sequence)
  }

  lemma SequenceTellsApart(a: Event, b: Event)
    requires Identified(a) && Identified(b) && a.sequence != b.sequence
    ensures a.eventId != b.eventId
  {
    if a.eventId == b.eventId {
      EventIdIsInjective(a.agentId, a.timestampMs, a.sequence, b.agentId, b.timestampMs, b.sequence);
    }
  }

  lemma {:induction false} RunIsIdentified(calls: seq<Call>, drawn: nat, i: nat)
    requires i < |calls|
    ensures var e := MadeRun(calls, drawn)[i]; Identified(e) && e.sequence == Wrap(1 + drawn + i)
  {
    if i > 0 {
      RunIsIdentified(calls[1..], drawn + 1, i - 1);
    }
  }

  /** Among any 2^64 consecutive events of one process no two share an id. */
  lemma EventIdsAreUnique(calls: seq<Call>, drawn: nat, i: nat, j: nat)
    requires i < j < |calls| <= 0x1_0000_0000_0000_0000
    ensures MadeRun(calls, drawn)[i].eventId != MadeRun(calls, drawn)[j].eventId
  {
    RunIsIdentified(calls, drawn, i);
    RunIsIdentified(calls, drawn, j);
    UniqueIds(MadeRun(calls, drawn)[i], MadeRun(calls, drawn)[j], 1 + drawn + i, 1 + drawn + j);
  }

  lemma UniqueIds(a: Event, b: Event, m: nat, n: nat)
    requires Identified(a) && Identified(b) && m < n < m + 0x1_0000_0000_0000_0000
    requires a.sequence == Wrap(m) && b.sequence == Wrap(n)
    ensures a.eventId != b.eventId
  {
    WrapsDiffer(m, n);
    SequenceTellsApart(a, b);
  }

  lemma WrapsDiffer(m: nat, n: nat)
    requires m < n < m + 0x1_0000_0000_0000_0000
    ensures Wrap(m) != Wrap(n)
  {
  }
}
