/**
 One unbudgeted run of the clause evaluator: its answer, its correlation hint,
 and exactly what it would charge to each per-rule budget. The budgeted
 evaluator is proved against this, and this against the declarative meaning.
 */
module PackRun {
  import opened Prelude
  import opened PackSemantics

  /** How one candidate string of a list is tried against the subject. */
  datatype Probe = Name(subject: string, ci: bool) | Substring(subject: string)

  predicate Hit(p: Probe, needle: string) {
    match p
    case Name(subject, ci) => SameName(subject, needle, ci)
    case Substring(subject) => Lower(needle) != "" && Contains(subject, Lower(needle))
  }

  /** Outcome of a chain of string tests and the comparisons it charged. */
  datatype Scan = Scan(found: bool, strings: nat)

  /** Try list entries from the front; entries that are not strings cost nothing. */
  function ScanList(arr: seq<Value>, p: Probe): Scan {
    if arr == [] then Scan(false, 0)
    else if !arr[0].Str? then ScanList(arr[1..], p)
    else if Hit(p, arr[0].s) then Scan(true, 1)
    else var rest := ScanList(arr[1..], p); rest.(strings := rest.strings + 1)
  }

  /** An absent list passes for free. */
  function ScanKey(m: map<string, Value>, key: string, p: Probe): Scan {
    if HasArray(m, key) then ScanList(m[key].items, p) else Scan(true, 0)
  }

  /** Short-circuit conjunction. */
  function Then(a: Scan, b: Scan): Scan {
    if a.found then Scan(b.found, a.strings + b.strings) else a
  }

  datatype Check = Check(key: string, probe: Probe)

  /** The five tests of a process leaf, in the order they are made. */
  function ProcessChecks(b: Batch, pm: map<string, Value>, p: ProcessObs): seq<Check> {
    var ci := CaseInsensitive(pm);
    [Check("executable_names_any", Name(Fold(p.name, ci), ci)),
     Check("executable_name_contains_any", Substring(Fold(p.name, ci))),
     Check("command_line_contains_any", Substring(Fold(p.commandLine, ci))),
     Check("parent_executable_names_any", Name(Fold(ParentName(b, p), ci), ci)),
     Check("process_path_contains_any", Substring(Fold(p.path, ci)))]
  }

  /** All checks must pass; the first that fails ends the chain. */
  function ScanChecks(m: map<string, Value>, checks: seq<Check>): Scan {
    if checks == [] then Scan(true, 0)
    else Then(ScanKey(m, checks[0].key, checks[0].probe), ScanChecks(m, checks[1..]))
  }

  function ScanProcess(b: Batch, pm: map<string, Value>, p: ProcessObs): Scan {
    ScanChecks(pm, ProcessChecks(b, pm, p))
  }

  function ScanFlow(fm: map<string, Value>, fl: FlowObs): Scan {
    if !PortListed(fm, fl) then Scan(false, 0)
    else ScanKey(fm, "remote_host_contains_any", Substring(Lower(fl.remoteHostname)))
  }

  // ---- runs -------------------------------------------------------------------

  /**
   A run up to its first malformed clause (`fault`), if any: verdict, hint,
   string comparisons, clauses entered, and levels of nesting reached.
   */
  datatype Run = Run(fault: Option<Shape>, matched: bool, hint: MatchHint, strings: nat, clauses: nat, levels: nat)

  function Answer(matched: bool, hint: MatchHint, strings: nat): Run {
    Run(None, matched, hint, strings, 0, 0)
  }

  /** Keep what is already known; fill the gaps from `other`. */
  function Merge(h: MatchHint, other: MatchHint): MatchHint {
    MatchHint(if h.processGuid.None? then other.processGuid else h.processGuid,
              if h.flowId.None? then other.flowId else h.flowId)
  }

  function NonEmpty(s: string): Option<string> {
    if s == "" then None else Some(s)
  }

  function FlowHint(fl: FlowObs): MatchHint {
    MatchHint(NonEmpty(fl.processGuid), NonEmpty(fl.flowId))
  }

  /** Index of the first observation that passes; the number of observations when none does. */
  function FirstFound(scans: seq<Scan>): (k: nat)
    ensures k <= |scans|
    ensures k < |scans| ==> scans[k].found
    ensures forall i :: 0 <= i < k ==> !scans[i].found
  {
    if scans == [] || scans[0].found then 0 else 1 + FirstFound(scans[1..])
  }

  /** Comparisons charged up to and including the first observation that passes. */
  function Spent(scans: seq<Scan>): nat {
    if scans == [] then 0
    else if scans[0].found then scans[0].strings
    else scans[0].strings + Spent(scans[1..])
  }

  /** Every process in iteration order, whether or not the evaluator gets to it. */
  function ProcessScans(pm: map<string, Value>, b: Batch, order: seq<string>): (scans: seq<Scan>)
    requires Visits(order, b)
    ensures |scans| == |order|
  {
    if order == [] then [] else [ScanProcess(b, pm, b.processes[order[0]])] + ProcessScans(pm, b, order[1..])
  }

  lemma {:induction false} ScanAt(pm: map<string, Value>, b: Batch, order: seq<string>, i: nat)
    requires Visits(order, b) && i < |order|
    ensures ProcessScans(pm, b, order)[i] == ScanProcess(b, pm, b.processes[order[i]])
  {
    if i > 0 {
      ScanAt(pm, b, order[1..], i - 1);
    }
  }

  function DnsScans(dm: map<string, Value>, dns: seq<DnsObs>): seq<Scan> {
    seq(|dns|, i requires 0 <= i < |dns| => ScanKey(dm, "query_contains_any", Substring(Lower(dns[i].query))))
  }

  function FlowScans(fm: map<string, Value>, flows: seq<FlowObs>): seq<Scan> {
    seq(|flows|, i requires 0 <= i < |flows| => ScanFlow(fm, flows[i]))
  }

  /** The first process, in iteration order, that passes. */
  function RunProcess(pm: map<string, Value>, b: Batch, order: seq<string>): Run
    requires Visits(order, b)
  {
    var scans := ProcessScans(pm, b, order);
    var k := FirstFound(scans);
    if k < |order| then Answer(true, MatchHint(Some(order[k]), None), Spent(scans))
    else Answer(false, NO_HINT, Spent(scans))
  }

  /** A leaf without a query list is false for free. */
  function RunDns(dm: map<string, Value>, dns: seq<DnsObs>): Run {
    if !HasArray(dm, "query_contains_any") then Answer(false, NO_HINT, 0)
    else
      var scans := DnsScans(dm, dns);
      Answer(FirstFound(scans) < |dns|, NO_HINT, Spent(scans))
  }

  function RunFlow(fm: map<string, Value>, flows: seq<FlowObs>): Run {
    if flows == [] then Answer(false, NO_HINT, 0)
    else if HasAnyFlow(fm) then Answer(true, FlowHint(flows[0]), 0)
    else
      var scans := FlowScans(fm, flows);
      var k := FirstFound(scans);
      if k < |flows| then Answer(true, FlowHint(flows[k]), Spent(scans))
      else Answer(false, NO_HINT, Spent(scans))
  }

  /** Run `next` after `first`: costs add up, nesting is the deeper of the two. */
  function After(first: Run, next: Run): Run {
    next.(strings := first.strings + next.strings,
          clauses := first.clauses + next.clauses,
          levels := Max(first.levels, next.levels))
  }

  /** One clause entered around `inner`. */
  function Enter(inner: Run): Run {
    inner.(clauses := inner.clauses + 1, levels := inner.levels + 1)
  }

  /** `order` only names processes of the batch. */
  predicate Visits(order: seq<string>, b: Batch) {
    forall i :: 0 <= i < |order| ==> order[i] in b.processes
  }

  /** A hash-map iteration order: every guid of the batch exactly once. */
  ghost predicate Enumerates(order: seq<string>, b: Batch) {
    Visits(order, b) && multiset(order) == multiset(b.processes.Keys)
  }

  function RunClause(c: Value, b: Batch, order: seq<string>): Run
    requires Visits(order, b)
    decreases c, 2
  {
    Enter(RunInside(c, b, order))
  }

  /** What happens inside a clause once it has been entered. */
  function RunInside(c: Value, b: Batch, order: seq<string>): Run
    requires Visits(order, b)
    decreases c, 1
  {
    var s := ShapeOf(c);
    match s
    case AllOf(of) => RunAll(of, b, order)
    case AnyOf(of, minMatch) => AtLeast(minMatch, RunAny(of, b, order))
    case Process(pm) => RunProcess(pm, b, order)
    case Dns(dm) => RunDns(dm, b.dns)
    case Flow(fm) => RunFlow(fm, b.flows)
    case NeverMatches => Answer(false, NO_HINT, 0)
    case _ => Run(Some(s), false, NO_HINT, 0, 0, 0)
  }

  function AtLeast(minMatch: nat, counted: (Run, nat)): Run {
    counted.0.(matched := counted.1 >= minMatch)
  }

  /** Children of an `all_of`, stopping at the first false one. */
  function RunAll(of: seq<Value>, b: Batch, order: seq<string>): Run
    requires Visits(order, b)
    decreases of, 0
  {
    if of == [] then Answer(true, NO_HINT, 0)
    else
      var r := RunClause(of[0], b, order);
      if r.fault.Some? || !r.matched then r.(hint := NO_HINT)
      else JoinAll(r, RunAll(of[1..], b, order))
  }

  /** Hints of an `all_of` count only while every child so far is true. */
  function JoinAll(r: Run, rest: Run): Run {
    After(r, if rest.fault.None? && rest.matched then rest.(hint := Merge(r.hint, rest.hint)) else rest)
  }

  /** All children of an `any_of`, with the number that matched. */
  function RunAny(of: seq<Value>, b: Batch, order: seq<string>): (Run, nat)
    requires Visits(order, b)
    decreases of, 0
  {
    if of == [] then (Answer(true, NO_HINT, 0), 0)
    else
      var r := RunClause(of[0], b, order);
      if r.fault.Some? then (r.(hint := NO_HINT), 0)
      else
        var (rest, n) := RunAny(of[1..], b, order);
        (JoinAny(r, rest), if r.matched then n + 1 else n)
  }

  /** Only true children contribute hints to an `any_of`. */
  function JoinAny(r: Run, rest: Run): Run {
    After(r, rest.(hint := Merge(if r.matched then r.hint else NO_HINT, rest.hint)))
  }
}
