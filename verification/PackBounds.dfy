/** Static bounds on what a clause can charge to each budget. */
module PackBounds {
  import opened Prelude
  import opened PackSemantics
  import opened PackRun

  // ---- static cost ---------------------------------------------------------------

  function Needles(arr: seq<Value>): nat {
    if arr == [] then 0 else (if arr[0].Str? then 1 else 0) + Needles(arr[1..])
  }

  function KeyNeedles(m: map<string, Value>, key: string): nat {
    if HasArray(m, key) then Needles(m[key].items) else 0
  }

  function ProcessNeedles(pm: map<string, Value>): nat {
    KeyNeedles(pm, "executable_names_any") + KeyNeedles(pm, "executable_name_contains_any") +
    KeyNeedles(pm, "command_line_contains_any") + KeyNeedles(pm, "parent_executable_names_any") +
    KeyNeedles(pm, "process_path_contains_any")
  }

  /** Needles times observations, summed over the leaves of the clause. */
  function StaticCost(c: Value, b: Batch): nat
    decreases c, 1
  {
    match ShapeOf(c)
    case AllOf(of) => StaticCosts(of, b)
    case AnyOf(of, _) => StaticCosts(of, b)
    case Process(pm) => ProcessNeedles(pm) * |b.processes|
    case Dns(dm) => KeyNeedles(dm, "query_contains_any") * |b.dns|
    case Flow(fm) => KeyNeedles(fm, "remote_host_contains_any") * |b.flows|
    case _ => 0
  }

  function StaticCosts(of: seq<Value>, b: Batch): nat
    decreases of, 0
  {
    if of == [] then 0 else StaticCost(of[0], b) + StaticCosts(of[1..], b)
  }

  function Nodes(c: Value): nat
    decreases c, 1
  {
    var s := ShapeOf(c);
    1 + if s.AllOf? || s.AnyOf? then NodesOf(s.of) else 0
  }

  function NodesOf(of: seq<Value>): nat
    decreases of, 0
  {
    if of == [] then 0 else Nodes(of[0]) + NodesOf(of[1..])
  }

  function Height(c: Value): nat
    decreases c, 1
  {
    var s := ShapeOf(c);
    1 + if s.AllOf? || s.AnyOf? then HeightOf(s.of) else 0
  }

  function HeightOf(of: seq<Value>): nat
    decreases of, 0
  {
    if of == [] then 0 else Max(Height(of[0]), HeightOf(of[1..]))
  }

  lemma {:induction false} ScanListBound(arr: seq<Value>, p: Probe)
    ensures ScanList(arr, p).strings <= Needles(arr)
  {
    if arr != [] {
      ScanListBound(arr[1..], p);
    }
  }

  lemma ScanKeyBound(m: map<string, Value>, key: string, p: Probe)
    ensures ScanKey(m, key, p).strings <= KeyNeedles(m, key)
  {
    if HasArray(m, key) {
      ScanListBound(m[key].items, p);
    }
  }

  lemma ScanProcessBound(b: Batch, pm: map<string, Value>, p: ProcessObs)
    ensures ScanProcess(b, pm, p).strings <= ProcessNeedles(pm)
  {
    var cs := ProcessChecks(b, pm, p);
    CheckBound(pm, cs);
    CheckBound(pm, cs[1..]);
    CheckBound(pm, cs[2..]);
    CheckBound(pm, cs[3..]);
    CheckBound(pm, cs[4..]);
  }

  lemma CheckBound(m: map<string, Value>, checks: seq<Check>)
    requires checks != []
    ensures ScanChecks(m, checks).strings <= KeyNeedles(m, checks[0].key) + ScanChecks(m, checks[1..]).strings
  {
    ScanKeyBound(m, checks[0].key, checks[0].probe);
  }

  lemma {:induction false} SpentBound(scans: seq<Scan>, bound: nat)
    requires forall i :: 0 <= i < |scans| ==> scans[i].strings <= bound
    ensures Spent(scans) <= bound * |scans|
  {
    if scans != [] {
      SpentBound(scans[1..], bound);
      assert bound * |scans| == bound + bound * (|scans| - 1);
    }
  }

  lemma ProcessBound(pm: map<string, Value>, b: Batch, order: seq<string>)
    requires Enumerates(order, b)
    ensures Spent(ProcessScans(pm, b, order)) <= ProcessNeedles(pm) * |b.processes|
  {
    var scans := ProcessScans(pm, b, order);
    forall i | 0 <= i < |scans| ensures scans[i].strings <= ProcessNeedles(pm) {
      ScanAt(pm, b, order, i);
      ScanProcessBound(b, pm, b.processes[order[i]]);
    }
    SpentBound(scans, ProcessNeedles(pm));
    assert |multiset(order)| == |order| && |multiset(b.processes.Keys)| == |b.processes|;
  }

  lemma DnsBound(dm: map<string, Value>, dns: seq<DnsObs>)
    ensures Spent(DnsScans(dm, dns)) <= KeyNeedles(dm, "query_contains_any") * |dns|
  {
    var scans := DnsScans(dm, dns);
    forall i | 0 <= i < |scans| ensures scans[i].strings <= KeyNeedles(dm, "query_contains_any") {
      ScanKeyBound(dm, "query_contains_any", Substring(Lower(dns[i].query)));
    }
    SpentBound(scans, KeyNeedles(dm, "query_contains_any"));
  }

  lemma FlowBound(fm: map<string, Value>, flows: seq<FlowObs>)
    ensures Spent(FlowScans(fm, flows)) <= KeyNeedles(fm, "remote_host_contains_any") * |flows|
  {
    var scans := FlowScans(fm, flows);
    forall i | 0 <= i < |scans| ensures scans[i].strings <= KeyNeedles(fm, "remote_host_contains_any") {
      ScanKeyBound(fm, "remote_host_contains_any", Substring(Lower(flows[i].remoteHostname)));
    }
    SpentBound(scans, KeyNeedles(fm, "remote_host_contains_any"));
  }

  predicate StaysWithin(r: Run, strings: nat, clauses: nat, levels: nat) {
    r.strings <= strings && r.clauses <= clauses && r.levels <= levels
  }

  lemma LeafBounded(c: Value, b: Batch, order: seq<string>)
    requires Enumerates(order, b)
    requires !ShapeOf(c).AllOf? && !ShapeOf(c).AnyOf?
    ensures StaysWithin(RunClause(c, b, order), StaticCost(c, b), 1, 1)
  {
    match ShapeOf(c) {
      case Process(pm) => ProcessLeafBounded(c, pm, b, order);
      case Dns(dm) => DnsBound(dm, b.dns);
      case Flow(fm) => FlowLeafBounded(c, fm, b, order);
      case _ =>
    }
  }

  lemma ProcessLeafBounded(c: Value, pm: map<string, Value>, b: Batch, order: seq<string>)
    requires Enumerates(order, b) && ShapeOf(c) == Process(pm)
    ensures StaysWithin(RunClause(c, b, order), StaticCost(c, b), 1, 1)
  {
    ProcessBound(pm, b, order);
    assert RunClause(c, b, order) == Enter(RunProcess(pm, b, order));
  }

  lemma FlowLeafBounded(c: Value, fm: map<string, Value>, b: Batch, order: seq<string>)
    requires Enumerates(order, b) && ShapeOf(c) == Flow(fm)
    ensures StaysWithin(RunClause(c, b, order), StaticCost(c, b), 1, 1)
  {
    FlowBound(fm, b.flows);
    assert RunClause(c, b, order) == Enter(RunFlow(fm, b.flows));
  }

  /** Every run, faulty or not, stays within the clause's static cost, size and height. */
  lemma {:induction false} RunBounded(c: Value, b: Batch, order: seq<string>)
    requires Enumerates(order, b)
    ensures StaysWithin(RunClause(c, b, order), StaticCost(c, b), Nodes(c), Height(c))
    decreases c, 1
  {
    var s := ShapeOf(c);
    if s.AllOf? || s.AnyOf? {
      RunListBounded(s.of, b, order);
    } else {
      LeafBounded(c, b, order);
    }
  }

  lemma {:induction false} RunListBounded(of: seq<Value>, b: Batch, order: seq<string>)
    requires Enumerates(order, b)
    ensures StaysWithin(RunAll(of, b, order), StaticCosts(of, b), NodesOf(of), HeightOf(of))
    ensures StaysWithin(RunAny(of, b, order).0, StaticCosts(of, b), NodesOf(of), HeightOf(of))
    decreases of, 0
  {
    if of != [] {
      RunBounded(of[0], b, order);
      RunListBounded(of[1..], b, order);
    }
  }
}
