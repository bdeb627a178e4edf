/**
 What leaves and groups return and charge, told from the observations and from the children's own runs:
 which one answers, which hint wins, what adds up.
 */
module PackGroups {
  import opened Prelude
  import opened PackSemantics
  import opened PackRun
  import opened PackBounds
  import opened PackTheorems

  /** The children's own runs, each as if it stood alone. */
  function ChildRuns(of: seq<Value>, b: Batch, order: seq<string>): (runs: seq<Run>)
    requires Visits(order, b)
    ensures |runs| == |of|
  {
    if of == [] then [] else [RunClause(of[0], b, order)] + ChildRuns(of[1..], b, order)
  }

  lemma {:induction false} ChildRunAt(of: seq<Value>, b: Batch, order: seq<string>, i: nat)
    requires Visits(order, b) && i < |of|
    ensures ChildRuns(of, b, order)[i] == RunClause(of[i], b, order)
  {
    if i > 0 {
      ChildRunAt(of[1..], b, order, i - 1);
    }
  }

  predicate IsTrue(r: Run) {
    r.fault.None? && r.matched
  }

  // ---- hints -----------------------------------------------------------------------------------

  /** `guid` is that of the first true child that has one, and none when no true child has one. */
  ghost predicate FirstGuid(runs: seq<Run>, guid: Option<string>) {
    if guid.None? then forall i :: 0 <= i < |runs| && IsTrue(runs[i]) ==> runs[i].hint.processGuid.None?
    else exists k :: GuidFrom(runs, guid, k)
  }

  ghost predicate GuidFrom(runs: seq<Run>, guid: Option<string>, k: int) {
    && 0 <= k < |runs| && IsTrue(runs[k]) && runs[k].hint.processGuid == guid
    && forall i :: 0 <= i < k && IsTrue(runs[i]) ==> runs[i].hint.processGuid.None?
  }

  /** The same for flow ids. */
  ghost predicate FirstFlow(runs: seq<Run>, id: Option<string>) {
    if id.None? then forall i :: 0 <= i < |runs| && IsTrue(runs[i]) ==> runs[i].hint.flowId.None?
    else exists k :: FlowFrom(runs, id, k)
  }

  ghost predicate FlowFrom(runs: seq<Run>, id: Option<string>, k: int) {
    && 0 <= k < |runs| && IsTrue(runs[k]) && runs[k].hint.flowId == id
    && forall i :: 0 <= i < k && IsTrue(runs[i]) ==> runs[i].hint.flowId.None?
  }

  lemma FirstGuidStep(r: Run, rest: seq<Run>, guid: Option<string>)
    requires FirstGuid(rest, guid)
    ensures FirstGuid([r] + rest, if IsTrue(r) && r.hint.processGuid.Some? then r.hint.processGuid else guid)
  {
    var runs := [r] + rest;
    assert forall i :: 0 < i < |runs| ==> runs[i] == rest[i - 1];
    if IsTrue(r) && r.hint.processGuid.Some? {
      assert GuidFrom(runs, r.hint.processGuid, 0);
    } else if guid.Some? {
      var k :| GuidFrom(rest, guid, k);
      assert GuidFrom(runs, guid, k + 1);
    }
  }

  lemma FirstFlowStep(r: Run, rest: seq<Run>, id: Option<string>)
    requires FirstFlow(rest, id)
    ensures FirstFlow([r] + rest, if IsTrue(r) && r.hint.flowId.Some? then r.hint.flowId else id)
  {
    var runs := [r] + rest;
    assert forall i :: 0 < i < |runs| ==> runs[i] == rest[i - 1];
    if IsTrue(r) && r.hint.flowId.Some? {
      assert FlowFrom(runs, r.hint.flowId, 0);
    } else if id.Some? {
      var k :| FlowFrom(rest, id, k);
      assert FlowFrom(runs, id, k + 1);
    }
  }

  // ---- charges ---------------------------------------------------------------------------------

  function Strings(runs: seq<Run>): nat {
    if runs == [] then 0 else runs[0].strings + Strings(runs[1..])
  }

  function Clauses(runs: seq<Run>): nat {
    if runs == [] then 0 else runs[0].clauses + Clauses(runs[1..])
  }

  function TrueCount(runs: seq<Run>): nat {
    if runs == [] then 0 else (if runs[0].matched then 1 else 0) + TrueCount(runs[1..])
  }

  /** The runs' charges, added up, and the deepest nesting among them. */
  ghost predicate Charges(runs: seq<Run>, r: Run) {
    && r.strings == Strings(runs) && r.clauses == Clauses(runs)
    && (forall i :: 0 <= i < |runs| ==> runs[i].levels <= r.levels)
    && (r.levels == 0 || exists i :: 0 <= i < |runs| && runs[i].levels == r.levels)
  }

  lemma ChargesStep(first: Run, rest: seq<Run>, r: Run, whole: Run)
    requires Charges(rest, r)
    requires whole.strings == first.strings + r.strings && whole.clauses == first.clauses + r.clauses
    requires whole.levels == Max(first.levels, r.levels)
    ensures Charges([first] + rest, whole)
  {
    var runs := [first] + rest;
    assert runs[0] == first && runs[1..] == rest && forall i :: 0 < i < |runs| ==> runs[i] == rest[i - 1];
    if whole.levels == r.levels && r.levels != 0 {
      var i :| 0 <= i < |rest| && rest[i].levels == r.levels;
      assert runs[i + 1].levels == whole.levels;
    }
  }

  // ---- the two groups --------------------------------------------------------------------------

  /** How many children come before the first that is not true. */
  function Leading(runs: seq<Run>): (n: nat)
    ensures n <= |runs| && (forall i :: 0 <= i < n ==> IsTrue(runs[i])) && (n < |runs| ==> !IsTrue(runs[n]))
  {
    if runs == [] || !IsTrue(runs[0]) then 0 else 1 + Leading(runs[1..])
  }

  /**
   An `all_of` is charged for its children up to the first that is not true; it is true when there is
   none, with the process and the flow of the first children that have one, and else has no hint.
   */
  ghost predicate AllOfAnswers(runs: seq<Run>, r: Run) {
    var n := Leading(runs);
    && (IsTrue(r) <==> n == |runs|)
    && r.fault == (if n < |runs| then runs[n].fault else None)
    && Charges(runs[..Min(n + 1, |runs|)], r)
    && (if n == |runs| then FirstGuid(runs, r.hint.processGuid) && FirstFlow(runs, r.hint.flowId) else r.hint == NO_HINT)
  }

  lemma AllOfStep(first: Run, tail: seq<Run>, rest: Run)
    requires IsTrue(first) && AllOfAnswers(tail, rest)
    ensures AllOfAnswers([first] + tail, JoinAll(first, rest))
  {
    var runs, n, whole := [first] + tail, Leading(tail), JoinAll(first, rest);
    assert runs[0] == first && runs[1..] == tail;
    assert Leading(runs) == n + 1;
    assert runs[..Min(n + 2, |runs|)] == [first] + tail[..Min(n + 1, |tail|)];
    ChargesStep(first, tail[..Min(n + 1, |tail|)], rest, whole);
    if n == |tail| {
      FirstGuidStep(first, tail, rest.hint.processGuid);
      FirstFlowStep(first, tail, rest.hint.flowId);
    }
  }

  lemma AllOfStop(first: Run, tail: seq<Run>)
    requires !IsTrue(first)
    ensures AllOfAnswers([first] + tail, first.(hint := NO_HINT))
  {
    var runs := [first] + tail;
    assert runs[0] == first && runs[..1] == [first];
    OneCharge(first);
  }

  lemma OneCharge(r: Run)
    ensures Charges([r], r) && Charges([r], r.(hint := NO_HINT))
  {
    assert [r][1..] == [] && [r][0].levels == r.levels;
  }

  lemma {:induction false} AllOfReturns(of: seq<Value>, b: Batch, order: seq<string>)
    requires Visits(order, b)
    ensures AllOfAnswers(ChildRuns(of, b, order), RunAll(of, b, order))
  {
    if of != [] {
      var first, tail := RunClause(of[0], b, order), ChildRuns(of[1..], b, order);
      if IsTrue(first) {
        AllOfReturns(of[1..], b, order);
        AllOfStep(first, tail, RunAll(of[1..], b, order));
      } else {
        AllOfStop(first, tail);
      }
    }
  }

  /** How many children come before the first malformed one. */
  function Sound(runs: seq<Run>): (n: nat)
    ensures n <= |runs| && (forall i :: 0 <= i < n ==> runs[i].fault.None?) && (n < |runs| ==> runs[n].fault.Some?)
  {
    if runs == [] || runs[0].fault.Some? then 0 else 1 + Sound(runs[1..])
  }

  /**
   An `any_of` is charged for all its children, up to a malformed one; it counts the true ones and has
   the process and the flow of the first true children that have one.
   */
  ghost predicate AnyOfAnswers(runs: seq<Run>, r: Run, count: nat) {
    var n := Sound(runs);
    && r.fault == (if n < |runs| then runs[n].fault else None)
    && Charges(runs[..Min(n + 1, |runs|)], r)
    && (n == |runs| ==> count == TrueCount(runs) && FirstGuid(runs, r.hint.processGuid) && FirstFlow(runs, r.hint.flowId))
  }

  lemma AnyOfStep(first: Run, tail: seq<Run>, rest: Run, count: nat)
    requires first.fault.None? && AnyOfAnswers(tail, rest, count)
    ensures AnyOfAnswers([first] + tail, JoinAny(first, rest), if first.matched then count + 1 else count)
  {
    var runs, n, whole := [first] + tail, Sound(tail), JoinAny(first, rest);
    assert runs[0] == first && runs[1..] == tail;
    assert Sound(runs) == n + 1;
    assert runs[..Min(n + 2, |runs|)] == [first] + tail[..Min(n + 1, |tail|)];
    ChargesStep(first, tail[..Min(n + 1, |tail|)], rest, whole);
    if n == |tail| {
      FirstGuidStep(first, tail, rest.hint.processGuid);
      FirstFlowStep(first, tail, rest.hint.flowId);
    }
  }

  lemma AnyOfStop(first: Run, tail: seq<Run>)
    requires first.fault.Some?
    ensures AnyOfAnswers([first] + tail, first.(hint := NO_HINT), 0)
  {
    var runs := [first] + tail;
    assert runs[0] == first && runs[..1] == [first];
    OneCharge(first);
  }

  lemma {:induction false} AnyOfReturns(of: seq<Value>, b: Batch, order: seq<string>)
    requires Visits(order, b)
    ensures AnyOfAnswers(ChildRuns(of, b, order), RunAny(of, b, order).0, RunAny(of, b, order).1)
  {
    if of != [] {
      var first, tail := RunClause(of[0], b, order), ChildRuns(of[1..], b, order);
      if first.fault.None? {
        AnyOfReturns(of[1..], b, order);
        AnyOfStep(first, tail, RunAny(of[1..], b, order).0, RunAny(of[1..], b, order).1);
      } else {
        AnyOfStop(first, tail);
      }
    }
  }

  /** `r` is the answer of group run `g`, entered as one more clause and one more level of nesting. */
  predicate Around(g: Run, r: Run) {
    r.hint == g.hint && r.strings == g.strings && r.clauses == g.clauses + 1 && r.levels == g.levels + 1
  }

  lemma ClauseReturns(c: Value, b: Batch, order: seq<string>)
    requires Visits(order, b)
    ensures var r, s := RunClause(c, b, order), ShapeOf(c);
            && (s.AllOf? ==> Around(RunAll(s.of, b, order), r) && r.matched == RunAll(s.of, b, order).matched)
            && (s.AnyOf? ==> Around(RunAny(s.of, b, order).0, r) && (r.matched <==> RunAny(s.of, b, order).1 >= s.minMatch))
            && (!s.AllOf? && !s.AnyOf? ==> r.clauses == 1 && r.levels == 1)
  {
  }

  // ---- leaves ------------------------------------------------------------------------------------

  /** Process `k` in iteration order answers the leaf: it passes and none before it does. */
  ghost predicate AnsweredBy(pm: map<string, Value>, b: Batch, order: seq<string>, k: int) {
    0 <= k < |order| && Passes(pm, b, order[k]) && forall i :: 0 <= i < k ==> !Passes(pm, b, order[i])
  }

  lemma ProcessLeafReturns(pm: map<string, Value>, b: Batch, order: seq<string>)
    requires Visits(order, b)
    ensures var r := RunProcess(pm, b, order);
            if r.matched then exists k :: AnsweredBy(pm, b, order, k) && r.hint == MatchHint(Some(order[k]), None)
            else r.hint == NO_HINT && forall i :: 0 <= i < |order| ==> !Passes(pm, b, order[i])
  {
    forall i | 0 <= i < |order| ensures ProcessScans(pm, b, order)[i].found <==> Passes(pm, b, order[i]) {
      ProcessScanAt(pm, b, order, i);
    }
    var k := FirstFound(ProcessScans(pm, b, order));
    if k < |order| {
      assert AnsweredBy(pm, b, order, k);
    }
  }

  /** Flow `k` answers the leaf: it satisfies it and none before it does. */
  ghost predicate FlowAnswers(fm: map<string, Value>, flows: seq<FlowObs>, k: int) {
    0 <= k < |flows| && FlowSatisfies(fm, flows[k]) && forall i :: 0 <= i < k ==> !FlowSatisfies(fm, flows[i])
  }

  /** The hint names the flow and its process, where they are known. */
  predicate Names(h: MatchHint, fl: FlowObs) {
    && (if fl.processGuid == "" then h.processGuid == None else h.processGuid == Some(fl.processGuid))
    && (if fl.flowId == "" then h.flowId == None else h.flowId == Some(fl.flowId))
  }

  lemma FlowLeafReturns(fm: map<string, Value>, flows: seq<FlowObs>)
    ensures var r := RunFlow(fm, flows);
            if r.matched then exists k :: FlowAnswers(fm, flows, k) && Names(r.hint, flows[k])
            else r.hint == NO_HINT && forall i :: 0 <= i < |flows| ==> !FlowSatisfies(fm, flows[i])
  {
    if flows != [] {
      if HasAnyFlow(fm) {
        assert FlowAnswers(fm, flows, 0);
      } else {
        forall i | 0 <= i < |flows| ensures FlowScans(fm, flows)[i].found <==> FlowSatisfies(fm, flows[i]) {
          ScanFlowMeaning(fm, flows[i]);
        }
        var k := FirstFound(FlowScans(fm, flows));
        if k < |flows| {
          assert FlowAnswers(fm, flows, k);
        }
      }
    }
  }

  /** A list is charged one comparison for each string in it, up to and including the first hit. */
  lemma {:induction false} ListCharges(arr: seq<Value>, p: Probe) returns (n: nat)
    ensures n <= |arr| && ScanList(arr, p).strings == Needles(arr[..n])
    ensures if ScanList(arr, p).found then n > 0 && arr[n - 1].Str? && Hit(p, arr[n - 1].s) else n == |arr|
    ensures forall i :: 0 <= i < n - 1 && arr[i].Str? ==> !Hit(p, arr[i].s)
  {
    if arr == [] {
      n := 0;
    } else if arr[0].Str? && Hit(p, arr[0].s) {
      n := 1;
      assert arr[..1][1..] == [];
    } else {
      n := ListCharges(arr[1..], p);
      assert arr[..n + 1][0] == arr[0] && arr[..n + 1][1..] == arr[1..][..n];
      n := n + 1;
    }
  }

  function KeyScans(m: map<string, Value>, checks: seq<Check>): seq<Scan> {
    if checks == [] then [] else [ScanKey(m, checks[0].key, checks[0].probe)] + KeyScans(m, checks[1..])
  }

  function Passing(scans: seq<Scan>): (n: nat)
    ensures n <= |scans| && (forall i :: 0 <= i < n ==> scans[i].found) && (n < |scans| ==> !scans[n].found)
  {
    if scans == [] || !scans[0].found then 0 else 1 + Passing(scans[1..])
  }

  /** A conjunction passes when all its tests do, and is charged for those up to the first that fails. */
  predicate ChainAnswers(scans: seq<Scan>, s: Scan) {
    var n := Passing(scans);
    (s.found <==> n == |scans|) && s.strings == ScanStrings(scans[..Min(n + 1, |scans|)])
  }

  lemma ChainStep(first: Scan, tail: seq<Scan>, rest: Scan)
    requires ChainAnswers(tail, rest)
    ensures ChainAnswers([first] + tail, Then(first, rest))
  {
    var scans, n := [first] + tail, Passing(tail);
    assert scans[0] == first && scans[1..] == tail;
    if first.found {
      var ran := scans[..Min(n + 2, |scans|)];
      assert ran[0] == first && ran[1..] == tail[..Min(n + 1, |tail|)];
    } else {
      assert scans[..1][0] == first && scans[..1][1..] == [];
    }
  }

  lemma {:induction false} ChecksCharge(m: map<string, Value>, checks: seq<Check>)
    ensures ChainAnswers(KeyScans(m, checks), ScanChecks(m, checks))
  {
    if checks != [] {
      ChecksCharge(m, checks[1..]);
      ChainStep(ScanKey(m, checks[0].key, checks[0].probe), KeyScans(m, checks[1..]), ScanChecks(m, checks[1..]));
    }
  }

  /** A leaf is charged for its observations up to and including the first that answers. */
  lemma {:induction false} LeafCharges(scans: seq<Scan>)
    ensures Spent(scans) == ScanStrings(scans[..Min(FirstFound(scans) + 1, |scans|)])
  {
    if scans != [] {
      if scans[0].found {
        assert scans[..1][1..] == [];
      } else {
        LeafCharges(scans[1..]);
        var n := Min(FirstFound(scans[1..]) + 1, |scans[1..]|);
        assert scans[..n + 1][1..] == scans[1..][..n];
      }
    }
  }

  function ScanStrings(scans: seq<Scan>): nat {
    if scans == [] then 0 else scans[0].strings + ScanStrings(scans[1..])
  }
}
