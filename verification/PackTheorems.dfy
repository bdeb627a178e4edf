/**
 The unbudgeted run against the declarative meaning: same truth value for every
 iteration order, no fault on well-formed clauses, and hints only from satisfied
 leaves on satisfied paths.
 */
module PackTheorems {
  import opened Prelude
  import opened PackSemantics
  import opened PackRun

  // ---- leaves -----------------------------------------------------------------

  lemma LowerIdempotent(s: string)
    ensures Lower(Lower(s)) == Lower(s)
  {
  }

  ghost predicate AnyHit(arr: seq<Value>, p: Probe) {
    exists i :: 0 <= i < |arr| && arr[i].Str? && Hit(p, arr[i].s)
  }

  lemma {:induction false} ScanListMeaning(arr: seq<Value>, p: Probe)
    ensures ScanList(arr, p).found <==> AnyHit(arr, p)
  {
    if arr != [] {
      ScanListMeaning(arr[1..], p);
      if AnyHit(arr[1..], p) {
        var i :| 0 <= i < |arr[1..]| && arr[1..][i].Str? && Hit(p, arr[1..][i].s);
        assert arr[i + 1].Str? && Hit(p, arr[i + 1].s);
      }
      if AnyHit(arr, p) && !(arr[0].Str? && Hit(p, arr[0].s)) {
        var i :| 0 <= i < |arr| && arr[i].Str? && Hit(p, arr[i].s);
        assert arr[1..][i - 1] == arr[i];
      }
    }
  }

  lemma NameKeyMeaning(m: map<string, Value>, key: string, subject: string, ci: bool)
    ensures ScanKey(m, key, Name(Fold(subject, ci), ci)).found <==> NamedBy(m, key, subject, ci)
  {
    var p := Name(Fold(subject, ci), ci);
    LowerIdempotent(subject);
    if HasArray(m, key) {
      ScanListMeaning(m[key].items, p);
      assert forall n :: Hit(p, n) <==> SameName(subject, n, ci);
    }
  }

  lemma SubstringKeyMeaning(m: map<string, Value>, key: string, subject: string, ci: bool)
    ensures ScanKey(m, key, Substring(Fold(subject, ci))).found <==> ContainedBy(m, key, subject, ci)
  {
    var p := Substring(Fold(subject, ci));
    if HasArray(m, key) {
      ScanListMeaning(m[key].items, p);
      assert forall n :: Hit(p, n) <==> n != "" && Contains(Fold(subject, ci), Lower(n));
    }
  }

  lemma ScanProcessMeaning(b: Batch, pm: map<string, Value>, p: ProcessObs)
    ensures ScanProcess(b, pm, p).found <==> ProcessSatisfies(pm, b, p)
  {
    var ci := CaseInsensitive(pm);
    var cs := ProcessChecks(b, pm, p);
    FirstCheck(pm, cs);
    FirstCheck(pm, cs[1..]);
    FirstCheck(pm, cs[2..]);
    FirstCheck(pm, cs[3..]);
    FirstCheck(pm, cs[4..]);
    NameKeyMeaning(pm, cs[0].key, p.name, ci);
    SubstringKeyMeaning(pm, cs[1].key, p.name, ci);
    SubstringKeyMeaning(pm, cs[2].key, p.commandLine, ci);
    NameKeyMeaning(pm, cs[3].key, ParentName(b, p), ci);
    SubstringKeyMeaning(pm, cs[4].key, p.path, ci);
  }

  lemma FirstCheck(m: map<string, Value>, checks: seq<Check>)
    requires checks != []
    ensures ScanChecks(m, checks).found <==>
            ScanKey(m, checks[0].key, checks[0].probe).found && ScanChecks(m, checks[1..]).found
  {
  }

  lemma ScanFlowMeaning(fm: map<string, Value>, fl: FlowObs)
    requires !HasAnyFlow(fm)
    ensures ScanFlow(fm, fl).found <==> FlowSatisfies(fm, fl)
  {
    SubstringKeyMeaning(fm, "remote_host_contains_any", fl.remoteHostname, true);
  }

  lemma ProcessScanAt(pm: map<string, Value>, b: Batch, order: seq<string>, i: nat)
    requires Visits(order, b) && i < |order|
    ensures ProcessScans(pm, b, order)[i].found <==> Passes(pm, b, order[i])
  {
    ScanAt(pm, b, order, i);
    ScanProcessMeaning(b, pm, b.processes[order[i]]);
  }

  lemma RunProcessSound(pm: map<string, Value>, b: Batch, order: seq<string>)
    requires Visits(order, b)
    ensures var r := RunProcess(pm, b, order);
            && r.hint.flowId.None?
            && (r.matched ==> r.hint.processGuid.Some? && Passes(pm, b, r.hint.processGuid.value))
  {
    var k := FirstFound(ProcessScans(pm, b, order));
    var r := RunProcess(pm, b, order);
    if k < |order| {
      ProcessScanAt(pm, b, order, k);
      assert r.hint.processGuid == Some(order[k]);
    } else {
      assert !r.matched;
    }
  }

  lemma RunProcessComplete(pm: map<string, Value>, b: Batch, order: seq<string>, i: nat)
    requires Visits(order, b) && i < |order| && Passes(pm, b, order[i])
    ensures RunProcess(pm, b, order).matched
  {
    ProcessScanAt(pm, b, order, i);
  }

  lemma RunProcessMeaning(pm: map<string, Value>, b: Batch, order: seq<string>)
    requires Enumerates(order, b)
    ensures RunProcess(pm, b, order).matched <==> exists g :: Passes(pm, b, g)
  {
    RunProcessSound(pm, b, order);
    forall g | Passes(pm, b, g) ensures RunProcess(pm, b, order).matched {
      assert g in multiset(order);
      var i :| 0 <= i < |order| && order[i] == g;
      RunProcessComplete(pm, b, order, i);
    }
  }

  lemma RunDnsMeaning(dm: map<string, Value>, dns: seq<DnsObs>)
    ensures var r := RunDns(dm, dns);
            && r.hint == NO_HINT
            && (r.matched <==> exists i :: 0 <= i < |dns| && DnsSatisfies(dm, dns[i]))
  {
    if HasArray(dm, "query_contains_any") {
      forall i | 0 <= i < |dns| ensures DnsScans(dm, dns)[i].found <==> DnsSatisfies(dm, dns[i]) {
        SubstringKeyMeaning(dm, "query_contains_any", dns[i].query, true);
      }
    }
  }

  lemma RunFlowMeaning(fm: map<string, Value>, flows: seq<FlowObs>)
    ensures var r := RunFlow(fm, flows);
            && (r.matched <==> exists i :: 0 <= i < |flows| && FlowSatisfies(fm, flows[i]))
            && (r.matched ==> exists i :: 0 <= i < |flows| && FlowSatisfies(fm, flows[i]) && r.hint == FlowHint(flows[i]))
  {
    if HasAnyFlow(fm) {
      assert forall i :: 0 <= i < |flows| ==> FlowSatisfies(fm, flows[i]);
    } else {
      forall i | 0 <= i < |flows| ensures FlowScans(fm, flows)[i].found <==> FlowSatisfies(fm, flows[i]) {
        ScanFlowMeaning(fm, flows[i]);
      }
    }
  }

  // ---- truth --------------------------------------------------------------------

  /** A run without a fault answers exactly the declarative truth, whatever the iteration order. */
  lemma {:induction false} RunDecidesHolds(c: Value, b: Batch, order: seq<string>)
    requires Enumerates(order, b)
    ensures RunClause(c, b, order).fault.None? ==> (RunClause(c, b, order).matched <==> Holds(c, b))
    decreases c, 1
  {
    match ShapeOf(c) {
      case AllOf(of) => RunAllDecides(of, b, order);
      case AnyOf(of, minMatch) =>
        RunAnyDecides(of, 0, b, order);
        assert of[0..] == of;
      case Process(pm) => RunProcessMeaning(pm, b, order);
      case Dns(dm) => RunDnsMeaning(dm, b.dns);
      case Flow(fm) => RunFlowMeaning(fm, b.flows);
      case _ =>
    }
  }

  lemma {:induction false} RunAllDecides(of: seq<Value>, b: Batch, order: seq<string>)
    requires Enumerates(order, b)
    ensures var r := RunAll(of, b, order);
            r.fault.None? ==> (r.matched <==> forall i :: 0 <= i < |of| ==> Holds(of[i], b))
    decreases of, 0
  {
    if of != [] {
      RunDecidesHolds(of[0], b, order);
      RunAllDecides(of[1..], b, order);
      assert forall i :: 1 <= i < |of| ==> of[i] == of[1..][i - 1];
      assert forall i :: 0 <= i < |of[1..]| ==> of[1..][i] == of[i + 1];
    }
  }

  lemma {:induction false} RunAnyDecides(of: seq<Value>, k: nat, b: Batch, order: seq<string>)
    requires Enumerates(order, b)
    requires k <= |of|
    ensures var (r, n) := RunAny(of[k..], b, order);
            r.fault.None? ==> n == |Holding(of, k, b)|
    decreases of, 0, |of| - k
  {
    if k == |of| {
      assert Holding(of, k, b) == {};
    } else {
      assert of[k..][0] == of[k] && of[k..][1..] == of[k + 1..];
      RunDecidesHolds(of[k], b, order);
      RunAnyDecides(of, k + 1, b, order);
      HoldingStep(of, k, b);
    }
  }

  lemma HoldingStep(of: seq<Value>, k: nat, b: Batch)
    requires k < |of|
    ensures |Holding(of, k, b)| == |Holding(of, k + 1, b)| + if Holds(of[k], b) then 1 else 0
  {
    SetGains(Holding(of, k + 1, b), Holding(of, k, b), k, Holds(of[k], b));
  }

  lemma SetGains(s: set<int>, larger: set<int>, k: int, gained: bool)
    requires k !in s && forall i :: i in larger <==> (i in s || (i == k && gained))
    ensures |larger| == |s| + if gained then 1 else 0
  {
    var extra: set<int> := if gained then {k} else {};
    assert forall i :: i in larger <==> i in s + extra;
    assert larger == s + extra;
  }

  /** A well-formed clause never faults. */
  lemma {:induction false} WellFormedRuns(c: Value, b: Batch, order: seq<string>)
    requires Visits(order, b)
    requires WellFormed(c)
    ensures RunClause(c, b, order).fault.None?
    decreases c, 1
  {
    match ShapeOf(c) {
      case AllOf(of) => WellFormedList(of, b, order);
      case AnyOf(of, _) => WellFormedList(of, b, order);
      case _ =>
    }
  }

  lemma {:induction false} WellFormedList(of: seq<Value>, b: Batch, order: seq<string>)
    requires Visits(order, b)
    requires forall i :: 0 <= i < |of| ==> WellFormed(of[i])
    ensures RunAll(of, b, order).fault.None? && RunAny(of, b, order).0.fault.None?
    decreases of, 0
  {
    if of != [] {
      WellFormedRuns(of[0], b, order);
      WellFormedList(of[1..], b, order);
    }
  }

  // ---- hints --------------------------------------------------------------------

  /** Some flow leaf below `c`, with every clause on the way satisfied, is satisfied by a flow with this id. */
  ghost predicate FlowSource(c: Value, b: Batch, id: string)
    decreases c
  {
    && Holds(c, b)
    && match ShapeOf(c)
       case AllOf(of) => exists i :: 0 <= i < |of| && FlowSource(of[i], b, id)
       case AnyOf(of, _) => exists i :: 0 <= i < |of| && FlowSource(of[i], b, id)
       case Flow(fm) => exists i :: 0 <= i < |b.flows| && FlowSatisfies(fm, b.flows[i]) && b.flows[i].flowId == id && id != ""
       case _ => false
  }

  /** Likewise for a process guid, which a process leaf or a flow leaf may supply. */
  ghost predicate ProcessSource(c: Value, b: Batch, guid: string)
    decreases c
  {
    && Holds(c, b)
    && match ShapeOf(c)
       case AllOf(of) => exists i :: 0 <= i < |of| && ProcessSource(of[i], b, guid)
       case AnyOf(of, _) => exists i :: 0 <= i < |of| && ProcessSource(of[i], b, guid)
       case Process(pm) => Passes(pm, b, guid)
       case Flow(fm) => exists i :: 0 <= i < |b.flows| && FlowSatisfies(fm, b.flows[i]) && b.flows[i].processGuid == guid && guid != ""
       case _ => false
  }

  ghost predicate HintSourced(h: MatchHint, c: Value, b: Batch) {
    && (h.flowId.Some? ==> FlowSource(c, b, h.flowId.value))
    && (h.processGuid.Some? ==> ProcessSource(c, b, h.processGuid.value))
  }

  ghost predicate HintSourcedInList(h: MatchHint, of: seq<Value>, b: Batch) {
    && (h.flowId.Some? ==> exists i :: 0 <= i < |of| && FlowSource(of[i], b, h.flowId.value))
    && (h.processGuid.Some? ==> exists i :: 0 <= i < |of| && ProcessSource(of[i], b, h.processGuid.value))
  }

  lemma HintListStep(first: MatchHint, rest: MatchHint, of: seq<Value>, b: Batch)
    requires of != []
    requires HintSourced(first, of[0], b) && HintSourcedInList(rest, of[1..], b)
    ensures HintSourcedInList(Merge(first, rest), of, b) && HintSourcedInList(rest, of, b)
  {
    assert forall i :: 0 <= i < |of[1..]| ==> of[1..][i] == of[i + 1];
  }

  /** Every hint of a matched clause comes from a satisfied leaf reached through satisfied clauses only. */
  lemma {:induction false} HintsAreSound(c: Value, b: Batch, order: seq<string>)
    requires Enumerates(order, b)
    requires RunClause(c, b, order).fault.None? && RunClause(c, b, order).matched
    ensures HintSourced(RunClause(c, b, order).hint, c, b)
    decreases c, 1
  {
    RunDecidesHolds(c, b, order);
    match ShapeOf(c) {
      case AllOf(of) => HintsOfAll(of, b, order);
      case AnyOf(of, _) => HintsOfAny(of, b, order);
      case Process(pm) => RunProcessSound(pm, b, order);
      case Dns(dm) => RunDnsMeaning(dm, b.dns);
      case Flow(fm) => RunFlowMeaning(fm, b.flows);
      case _ =>
    }
  }

  lemma {:induction false} HintsOfAll(of: seq<Value>, b: Batch, order: seq<string>)
    requires Enumerates(order, b)
    requires RunAll(of, b, order).fault.None? && RunAll(of, b, order).matched
    ensures HintSourcedInList(RunAll(of, b, order).hint, of, b)
    decreases of, 0
  {
    if of != [] {
      HintsAreSound(of[0], b, order);
      HintsOfAll(of[1..], b, order);
      HintListStep(RunClause(of[0], b, order).hint, RunAll(of[1..], b, order).hint, of, b);
    }
  }

  lemma {:induction false} HintsOfAny(of: seq<Value>, b: Batch, order: seq<string>)
    requires Enumerates(order, b)
    requires RunAny(of, b, order).0.fault.None?
    ensures HintSourcedInList(RunAny(of, b, order).0.hint, of, b)
    decreases of, 0
  {
    if of != [] {
      HintsOfAny(of[1..], b, order);
      var rest := RunAny(of[1..], b, order).0.hint;
      if RunClause(of[0], b, order).matched {
        HintsAreSound(of[0], b, order);
        HintListStep(RunClause(of[0], b, order).hint, rest, of, b);
      } else {
        HintListStep(NO_HINT, rest, of, b);
      }
    }
  }
}
