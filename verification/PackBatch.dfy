/** Building the evaluator's batch from visibility events. */
module PackBatch {
  import opened Prelude
  import opened PackSemantics
  import opened Event
  import opened EventDecode
  import opened Spool

  const EMPTY := Batch(map[], [], [])

  /** Ports are 16-bit in the event type. */
  predicate PortFits(e: Event) {
    e.payload.FlowStarted? && e.payload.remotePort.Some? ==> e.payload.remotePort.value <= 0xFFFF
  }

  function Port(p: Option<nat>): Option<U16>
    requires p.Some? ==> p.value <= 0xFFFF
  {
    if p.Some? then Some(p.value) else None
  }

  function OrEmpty(s: Option<string>): string {
    if s.Some? then s.value else ""
  }

  predicate Starts(p: Payload, guid: string) {
    p.ProcessStarted? && p.processGuid == guid != ""
  }

  function ProcessOf(p: Payload): ProcessObs
    requires p.ProcessStarted?
  {
    ProcessObs(p.name, OrEmpty(p.commandLine), OrEmpty(p.path), OrEmpty(p.parentGuid))
  }

  /** The observation left by the last start of a process. */
  function LastStart(events: seq<Event>, guid: string): Option<ProcessObs> {
    if events == [] then None
    else
      var n := |events| - 1;
      if Starts(events[n].payload, guid) then Some(ProcessOf(events[n].payload)) else LastStart(events[..n], guid)
  }

  function QueriesOf(events: seq<Event>): seq<DnsObs> {
    if events == [] then []
    else
      var p := events[|events| - 1].payload;
      QueriesOf(events[..|events| - 1]) + if p.DnsObserved? && p.query != "" then [DnsObs(p.query)] else []
  }

  function FlowsOf(events: seq<Event>): seq<FlowObs>
    requires forall i :: 0 <= i < |events| ==> PortFits(events[i])
  {
    if events == [] then []
    else
      var e := events[|events| - 1];
      var p := e.payload;
      assert PortFits(e);
      FlowsOf(events[..|events| - 1]) +
      if p.FlowStarted?
      then [FlowObs(p.flowId, OrEmpty(p.flowGuid), Port(p.remotePort), OrEmpty(p.remoteHostname))] else []
  }

  /** Each process as its last start left it, and every named query and flow in order. */
  ghost predicate IsBatchOf(b: Batch, events: seq<Event>)
    requires forall i :: 0 <= i < |events| ==> PortFits(events[i])
  {
    (forall g :: (if g in b.processes then Some(b.processes[g]) else None) == LastStart(events, g))
    && b.dns == QueriesOf(events) && b.flows == FlowsOf(events)
  }

  /** `build_batch` */
  method BuildBatch(events: seq<Event>) returns (b: Batch)
    requires forall i :: 0 <= i < |events| ==> PortFits(events[i])
    ensures IsBatchOf(b, events)
  {
    b := EMPTY;
    for i := 0 to |events|
      invariant IsBatchOf(b, events[..i])
    {
      var p := events[i].payload;
      assert events[..i + 1][..i] == events[..i] && PortFits(events[i]);
      match p {
        case ProcessStarted(guid, parent, _, _, name, path, commandLine, _, _, _, _, _, _) =>
          if guid != "" {
            b := b.(processes := b.processes[guid := ProcessObs(name, OrEmpty(commandLine), OrEmpty(path), OrEmpty(parent))]);
          }
        case DnsObserved(query, _, _, _, _, _, _, _) =>
          if query != "" {
            b := b.(dns := b.dns + [DnsObs(query)]);
          }
        case FlowStarted(id, guid, _, _, _, _, _, _, _, _, port, host, _, _) =>
          b := b.(flows := b.flows + [FlowObs(id, OrEmpty(guid), Port(port), OrEmpty(host))]);
        case _ =>
      }
    }
    assert events[..|events|] == events;
  }

  /** The events determine the batch. */
  lemma BatchIsUnique(a: Batch, b: Batch, events: seq<Event>)
    requires forall i :: 0 <= i < |events| ==> PortFits(events[i])
    requires IsBatchOf(a, events) && IsBatchOf(b, events)
    ensures a == b
  {
    forall g ensures g in a.processes <==> g in b.processes
             ensures g in a.processes ==> a.processes[g] == b.processes[g] {
      assert (if g in a.processes then Some(a.processes[g]) else None) == LastStart(events, g);
      assert (if g in b.processes then Some(b.processes[g]) else None) == LastStart(events, g);
    }
    assert a.processes == b.processes;
  }

  /** Some start of the process left its observation, and no later one exists. */
  lemma {:induction false} LastStartIsLast(events: seq<Event>, guid: string) returns (k: nat)
    ensures LastStart(events, guid).None? <==> forall i :: 0 <= i < |events| ==> !Starts(events[i].payload, guid)
    ensures LastStart(events, guid).Some? ==>
              k < |events| && Starts(events[k].payload, guid) && LastStart(events, guid).value == ProcessOf(events[k].payload)
              && forall i :: k < i < |events| ==> !Starts(events[i].payload, guid)
  {
    k := 0;
    if events != [] {
      var n := |events| - 1;
      if Starts(events[n].payload, guid) {
        k := n;
      } else {
        k := LastStartIsLast(events[..n], guid);
        assert forall i :: 0 <= i < n ==> events[..n][i] == events[i];
      }
    }
  }

  // ---- what the batch shows of the events ------------------------------------------------------

  /** `text` is the optional one, or empty when there is none. */
  predicate Reads(text: string, optional: Option<string>) {
    if optional.Some? then text == optional.value else text == ""
  }

  predicate ShowsProcess(o: ProcessObs, p: Payload) {
    p.ProcessStarted? && o.name == p.name && Reads(o.commandLine, p.commandLine) && Reads(o.path, p.path) && Reads(o.parentGuid, p.parentGuid)
  }

  predicate ShowsFlow(o: FlowObs, p: Payload) {
    && p.FlowStarted? && o.flowId == p.flowId && Reads(o.processGuid, p.flowGuid) && Reads(o.remoteHostname, p.remoteHostname)
    && (if p.remotePort.Some? then o.remotePort.Some? && o.remotePort.value == p.remotePort.value else o.remotePort.None?)
  }

  predicate ShowsQuery(o: DnsObs, p: Payload) {
    IsQuery(p) && o.query == p.query
  }

  ghost predicate LastStartAt(events: seq<Event>, guid: string, k: int) {
    0 <= k < |events| && Starts(events[k].payload, guid) && forall i :: k < i < |events| ==> !Starts(events[i].payload, guid)
  }

  /** The batch holds a process exactly when the events start it, and shows its last start. */
  lemma ProcessesShowLastStarts(b: Batch, events: seq<Event>, guid: string)
    requires forall i :: 0 <= i < |events| ==> PortFits(events[i])
    requires IsBatchOf(b, events)
    ensures guid in b.processes <==> exists k :: LastStartAt(events, guid, k)
    ensures forall k :: LastStartAt(events, guid, k) ==> guid in b.processes && ShowsProcess(b.processes[guid], events[k].payload)
  {
    assert (if guid in b.processes then Some(b.processes[guid]) else None) == LastStart(events, guid);
    var last := LastStartIsLast(events, guid);
    if LastStart(events, guid).Some? {
      assert LastStartAt(events, guid, last);
    }
  }

  predicate IsQuery(p: Payload) {
    p.DnsObserved? && p.query != ""
  }

  function FlowCount(events: seq<Event>): nat {
    if events == [] then 0
    else FlowCount(events[..|events| - 1]) + if events[|events| - 1].payload.FlowStarted? then 1 else 0
  }

  function QueryCount(events: seq<Event>): nat {
    if events == [] then 0
    else QueryCount(events[..|events| - 1]) + if IsQuery(events[|events| - 1].payload) then 1 else 0
  }

  lemma {:induction false} AllFlows(events: seq<Event>)
    requires forall i :: 0 <= i < |events| ==> PortFits(events[i])
    ensures |FlowsOf(events)| == FlowCount(events)
  {
    if events != [] {
      AllFlows(events[..|events| - 1]);
    }
  }

  /** There are as many flows as flow events, and each flow event is shown by the one at its place among them. */
  lemma {:induction false} FlowsShowEvents(events: seq<Event>, i: nat)
    requires forall j :: 0 <= j < |events| ==> PortFits(events[j])
    requires i < |events| && events[i].payload.FlowStarted?
    ensures |FlowsOf(events)| == FlowCount(events) > FlowCount(events[..i])
    ensures ShowsFlow(FlowsOf(events)[FlowCount(events[..i])], events[i].payload)
  {
    var n := |events| - 1;
    var before, e := events[..n], events[n];
    AllFlows(before);
    if i < n {
      assert before[..i] == events[..i] && before[i] == events[i];
      FlowsShowEvents(before, i);
    }
    assert PortFits(e);
  }

  lemma {:induction false} AllQueries(events: seq<Event>)
    ensures |QueriesOf(events)| == QueryCount(events)
  {
    if events != [] {
      AllQueries(events[..|events| - 1]);
    }
  }

  /** The same for queries and the events that name one. */
  lemma {:induction false} QueriesShowEvents(events: seq<Event>, i: nat)
    requires i < |events| && IsQuery(events[i].payload)
    ensures |QueriesOf(events)| == QueryCount(events) > QueryCount(events[..i])
    ensures ShowsQuery(QueriesOf(events)[QueryCount(events[..i])], events[i].payload)
  {
    var n := |events| - 1;
    var before := events[..n];
    AllQueries(before);
    if i < n {
      assert before[..i] == events[..i] && before[i] == events[i];
      QueriesShowEvents(before, i);
    }
  }

  /** What printing loses of an event, the evaluator does not look at. */
  lemma {:induction false} SeenEventsAgree(events: seq<Event>, seen: seq<Event>)
    requires |events| == |seen| && forall i :: 0 <= i < |events| ==> seen[i] == Seen(events[i]) && PortFits(events[i])
    ensures forall i :: 0 <= i < |seen| ==> PortFits(seen[i])
    ensures forall g :: LastStart(seen, g) == LastStart(events, g)
    ensures QueriesOf(seen) == QueriesOf(events) && FlowsOf(seen) == FlowsOf(events)
  {
    if events != [] {
      var n := |events| - 1;
      SeenEventsAgree(events[..n], seen[..n]);
      assert seen[n] == Seen(events[n]) && PortFits(events[n]);
    }
  }

  lemma {:induction false} SeenAllAt(events: seq<Event>)
    ensures forall i :: 0 <= i < |events| ==> SeenAll(events)[i] == Seen(events[i])
  {
    if events != [] {
      SeenAllAt(events[1..]);
    }
  }

  /** Reading the spool back and building a batch gives the batch of the events that were spooled. */
  lemma SpoolRebuildsBatch(events: seq<Event>, b: Batch)
    requires AllTokens(events) && forall i :: 0 <= i < |events| ==> PortFits(events[i])
    ensures var seen := Decoded(Split(Framed(Texts(events))));
            && (forall i :: 0 <= i < |seen| ==> PortFits(seen[i]))
            && (IsBatchOf(b, seen) <==> IsBatchOf(b, events))
  {
    SpoolIsItsEvents(events);
    SeenAllAt(events);
    SeenEventsAgree(events, SeenAll(events));
  }
}
