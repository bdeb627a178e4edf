/**
 `evaluate_pack`: limits, stable priority order, and the loop over rules, succeeding
 exactly when every pass of it fits.
 */
module PackLoop {
  import opened Prelude
  import opened PackSemantics
  import opened PackRun
  import opened PackEval

  // ---- limits --------------------------------------------------------------------

  function Limit(lo: map<string, Value>, key: string): Result<U64, EvalError> {
    if key in lo && lo[key].UInt? then Ok(lo[key].n) else Err(BadLimits(key))
  }

  /** `LimitState::new`: five mandatory unsigned limits, reported in this order when missing. */
  function ParseLimits(limits: Value): Result<Limits, EvalError> {
    if !limits.Obj? then Err(BadLimits("evaluator_limits not object"))
    else
      var rules := Limit(limits.fields, "max_rules_evaluated_per_batch");
      var strings := Limit(limits.fields, "max_string_comparisons_per_rule");
      var depth := Limit(limits.fields, "max_clause_depth");
      var clauses := Limit(limits.fields, "max_clauses_per_rule");
      var wall := Limit(limits.fields, "max_wall_time_ms_per_batch");
      if rules.Err? then Err(rules.error)
      else if strings.Err? then Err(strings.error)
      else if depth.Err? then Err(depth.error)
      else if clauses.Err? then Err(clauses.error)
      else if wall.Err? then Err(wall.error)
      else Ok(Limits(rules.value, strings.value, depth.value, clauses.value, wall.value))
  }

  // ---- priority order ------------------------------------------------------------

  function Priority(rule: Value): U64 {
    var p := Get(rule, "priority");
    if p.Some? && p.value.UInt? then p.value.n else 1_000_000
  }

  /** Rule `i` is evaluated before rule `j`: lower priority number first, ties in pack order. */
  predicate Before(rules: seq<Value>, i: nat, j: nat)
    requires i < |rules| && j < |rules|
  {
    Priority(rules[i]) < Priority(rules[j]) || (Priority(rules[i]) == Priority(rules[j]) && i < j)
  }

  ghost predicate InOrder(rules: seq<Value>, idx: seq<nat>) {
    && (forall k :: 0 <= k < |idx| ==> idx[k] < |rules|)
    && (forall k, l :: 0 <= k < l < |idx| ==> Before(rules, idx[k], idx[l]))
  }

  /** Where the newest index goes: after every index of no larger priority. */
  function Position(rules: seq<Value>, idx: seq<nat>, n: nat): (k: nat)
    requires n < |rules| && forall j :: 0 <= j < |idx| ==> idx[j] < |rules|
    ensures k <= |idx|
    ensures forall j :: 0 <= j < k ==> Priority(rules[idx[j]]) <= Priority(rules[n])
    ensures k < |idx| ==> Priority(rules[n]) < Priority(rules[idx[k]])
  {
    if idx == [] || Priority(rules[n]) < Priority(rules[idx[0]]) then 0
    else 1 + Position(rules, idx[1..], n)
  }

  function Inserted(rules: seq<Value>, idx: seq<nat>, n: nat): (r: seq<nat>)
    requires n < |rules| && forall j :: 0 <= j < |idx| ==> idx[j] < n
    ensures |r| == |idx| + 1 && forall j :: 0 <= j < |r| ==> r[j] <= n
  {
    var k := Position(rules, idx, n);
    idx[..k] + [n] + idx[k..]
  }

  /** The stable sort of the first `n` rule indices by priority. */
  function SortIndices(rules: seq<Value>, n: nat): (r: seq<nat>)
    requires n <= |rules|
    ensures |r| == n
    ensures forall j :: 0 <= j < |r| ==> r[j] < n
  {
    if n == 0 then []
    else
      Inserted(rules, SortIndices(rules, n - 1), n - 1)
  }

  lemma LaterIsLarger(rules: seq<Value>, idx: seq<nat>, n: nat, j: nat)
    requires n < |rules| && InOrder(rules, idx)
    requires Position(rules, idx, n) <= j < |idx|
    ensures Priority(rules[n]) < Priority(rules[idx[j]])
  {
    var k := Position(rules, idx, n);
    if k < j {
      assert Before(rules, idx[k], idx[j]);
    }
  }

  lemma InsertKeepsOrder(rules: seq<Value>, idx: seq<nat>, n: nat)
    requires n < |rules| && InOrder(rules, idx) && forall j :: 0 <= j < |idx| ==> idx[j] < n
    ensures InOrder(rules, Inserted(rules, idx, n))
  {
    var k := Position(rules, idx, n);
    var r := Inserted(rules, idx, n);
    forall j, l | 0 <= j < l < |r| ensures Before(rules, r[j], r[l]) {
      if j == k {
        LaterIsLarger(rules, idx, n, l - 1);
      } else if l != k {
        assert Before(rules, idx[if j < k then j else j - 1], idx[if l < k then l else l - 1]);
      }
    }
  }

  lemma InsertedHas(rules: seq<Value>, idx: seq<nat>, n: nat, i: nat)
    requires n < |rules| && forall j :: 0 <= j < |idx| ==> idx[j] < n
    requires i in idx || i == n
    ensures i in Inserted(rules, idx, n)
  {
    var k, r := Position(rules, idx, n), Inserted(rules, idx, n);
    if i == n {
      assert r[k] == n;
    } else {
      var m :| 0 <= m < |idx| && idx[m] == i;
      assert r[if m < k then m else m + 1] == i;
    }
  }

  /** The order is the one `Before` prescribes, and it misses no rule. */
  lemma {:induction false} SortIsStable(rules: seq<Value>, n: nat)
    requires n <= |rules|
    ensures InOrder(rules, SortIndices(rules, n))
    ensures forall i :: 0 <= i < n ==> i in SortIndices(rules, n)
  {
    if n > 0 {
      SortIsStable(rules, n - 1);
      var idx := SortIndices(rules, n - 1);
      InsertKeepsOrder(rules, idx, n - 1);
      forall i | 0 <= i < n ensures i in SortIndices(rules, n) {
        InsertedHas(rules, idx, n - 1, i);
      }
    }
  }

  // ---- the loop ------------------------------------------------------------------

  datatype RuleMatch = RuleMatch(rule: Value, hint: MatchHint)

  /** What evaluating one rule amounts to without budgets; a rule without `match` is skipped. */
  function RunRule(rule: Value, b: Batch, order: seq<string>): Option<Run>
    requires Visits(order, b)
  {
    var clause := Get(rule, "match");
    if clause.Some? then Some(RunClause(clause.value, b, order)) else None
  }

  /** What one rule adds to the result: itself with its hint, or nothing. */
  function MatchOf(rule: Value, b: Batch, order: seq<string>): seq<RuleMatch>
    requires Visits(order, b)
  {
    var run := RunRule(rule, b, order);
    if run.Some? && run.value.matched then [RuleMatch(rule, run.value.hint)] else []
  }

  /** The matches among the rules `idx`, in that order. */
  function Matches(rules: seq<Value>, idx: seq<nat>, b: Batch, order: seq<string>): seq<RuleMatch>
    requires Visits(order, b) && forall j :: 0 <= j < |idx| ==> idx[j] < |rules|
  {
    if idx == [] then [] else MatchOf(rules[idx[0]], b, order) + Matches(rules, idx[1..], b, order)
  }

  /** Rule by rule: either a rule without a clause, or one that fits its own fresh budgets. */
  ghost predicate RuleFits(rule: Value, b: Batch, order: seq<string>, lim: Limits, clock: nat -> nat, readings: nat)
    requires Visits(order, b)
  {
    var run := RunRule(rule, b, order);
    run.Some? ==> run.value.fault.None? && Fits(run.value, lim, clock, Counters(0, 0, readings), 1)
  }

  /** Clock readings taken while evaluating one rule. */
  function RuleReadings(rule: Value, b: Batch, order: seq<string>): nat
    requires Visits(order, b)
  {
    var run := RunRule(rule, b, order);
    if run.Some? then run.value.clauses else 0
  }

  /** Clock readings taken before the `k`-th pass of the loop. */
  function ReadingAt(rules: seq<Value>, idx: seq<nat>, k: nat, b: Batch, order: seq<string>): nat
    requires Visits(order, b) && (forall j :: 0 <= j < |idx| ==> idx[j] < |rules|) && k <= |idx|
  {
    if k == 0 then 0 else ReadingAt(rules, idx, k - 1, b, order) + 1 + RuleReadings(rules[idx[k - 1]], b, order)
  }

  /** The `k`-th pass: the clock is in time and, unless the rule limit is reached, the rule fits. */
  ghost predicate PassFits(rules: seq<Value>, idx: seq<nat>, k: nat, b: Batch, order: seq<string>, lim: Limits, clock: nat -> nat)
    requires Visits(order, b) && (forall j :: 0 <= j < |idx| ==> idx[j] < |rules|) && k < |idx|
  {
    var reading := ReadingAt(rules, idx, k, b, order);
    && InTime(lim, clock, reading)
    && (k < lim.maxRules ==> RuleFits(rules[idx[k]], b, order, lim, clock, reading + 1))
  }

  /** The first `n` passes of the loop fit. */
  ghost predicate PassesFit(rules: seq<Value>, idx: seq<nat>, n: nat, b: Batch, order: seq<string>, lim: Limits, clock: nat -> nat)
    requires Visits(order, b) && (forall j :: 0 <= j < |idx| ==> idx[j] < |rules|) && n <= |idx|
  {
    n == 0 || (PassesFit(rules, idx, n - 1, b, order, lim, clock) && PassFits(rules, idx, n - 1, b, order, lim, clock))
  }

  /** Every pass the loop makes fits; it makes one more than `max_rules` when rules are left. */
  ghost predicate LoopFits(rules: seq<Value>, b: Batch, order: seq<string>, lim: Limits, clock: nat -> nat)
    requires Visits(order, b)
  {
    PassesFit(rules, SortIndices(rules, |rules|), Min(lim.maxRules + 1, |rules|), b, order, lim, clock)
  }

  lemma {:induction false} PassesFitAll(rules: seq<Value>, idx: seq<nat>, n: nat, k: nat,
                                        b: Batch, order: seq<string>, lim: Limits, clock: nat -> nat)
    requires Visits(order, b) && (forall j :: 0 <= j < |idx| ==> idx[j] < |rules|) && k < n <= |idx|
    requires PassesFit(rules, idx, n, b, order, lim, clock)
    ensures PassFits(rules, idx, k, b, order, lim, clock)
  {
    if k < n - 1 {
      PassesFitAll(rules, idx, n - 1, k, b, order, lim, clock);
    }
  }

  /** The rules the loop evaluates: the first `max_rules` in priority order. */
  function Selected(rules: seq<Value>, maxRules: nat): (idx: seq<nat>)
    ensures forall j :: 0 <= j < |idx| ==> idx[j] < |rules|
  {
    SortIndices(rules, |rules|)[..Min(maxRules, |rules|)]
  }

  lemma MatchesStep(out: seq<RuleMatch>, rules: seq<Value>, idx: seq<nat>, i: nat, b: Batch, order: seq<string>)
    requires Visits(order, b) && (forall j :: 0 <= j < |idx| ==> idx[j] < |rules|) && i < |idx|
    ensures out + Matches(rules, idx[i..], b, order) ==
            (out + MatchOf(rules[idx[i]], b, order)) + Matches(rules, idx[i + 1..], b, order)
  {
    assert idx[i..][0] == idx[i] && idx[i..][1..] == idx[i + 1..];
  }

  /** One pass of the loop body: fresh budgets, then the rule's clause if it has one. */
  method EvaluateRule(rule: Value, b: Batch, order: seq<string>, st: LimitState) returns (res: Result<seq<RuleMatch>, EvalError>)
    requires Visits(order, b)
    modifies st
    ensures st.rulesDone == old(st.rulesDone) + 1
    ensures if RuleFits(rule, b, order, st.limits, st.clock, old(st.readings))
            then res == Ok(MatchOf(rule, b, order)) && st.readings == old(st.readings) + RuleReadings(rule, b, order)
            else res.Err?
  {
    st.StartRule();
    var clause := Get(rule, "match");
    if clause.None? {
      return Ok([]);
    }
    var v := EvalClause(clause.value, b, order, st, 1);
    if v.Err? {
      return Err(v.error);
    }
    res := Ok(if v.value.matched then [RuleMatch(rule, v.value.hint)] else []);
  }

  lemma FailedPassFails(rules: seq<Value>, idx: seq<nat>, n: nat, i: nat,
                        b: Batch, order: seq<string>, lim: Limits, clock: nat -> nat)
    requires Visits(order, b) && (forall j :: 0 <= j < |idx| ==> idx[j] < |rules|) && i < n <= |idx|
    requires !PassFits(rules, idx, i, b, order, lim, clock)
    ensures !PassesFit(rules, idx, n, b, order, lim, clock)
  {
    if PassesFit(rules, idx, n, b, order, lim, clock) {
      PassesFitAll(rules, idx, n, i, b, order, lim, clock);
    }
  }

  /** One turn of the loop: clock, rule limit, rule. `None` leaves the loop. */
  method LoopTurn(rules: seq<Value>, idx: seq<nat>, i: nat, b: Batch, order: seq<string>, st: LimitState)
    returns (res: Result<Option<seq<RuleMatch>>, EvalError>)
    requires Visits(order, b) && (forall j :: 0 <= j < |idx| ==> idx[j] < |rules|) && i < |idx|
    requires st.rulesDone == i && st.readings == ReadingAt(rules, idx, i, b, order)
    modifies st
    ensures res.Ok? <==> PassFits(rules, idx, i, b, order, st.limits, st.clock)
    ensures res.Ok? ==> (res.value.Some? <==> i < st.limits.maxRules)
    ensures res.Ok? && res.value.Some? ==>
              && res.value.value == MatchOf(rules[idx[i]], b, order)
              && st.rulesDone == i + 1 && st.readings == ReadingAt(rules, idx, i + 1, b, order)
  {
    var ok := st.TickTime();
    if !ok {
      return Err(WallTime);
    }
    if st.rulesDone >= st.limits.maxRules {
      return Ok(None);
    }
    var v := EvaluateRule(rules[idx[i]], b, order, st);
    if v.Err? {
      return Err(v.error);
    }
    res := Ok(Some(v.value));
  }

  /** The loop over rules already in order. */
  method EvaluateInOrder(rules: seq<Value>, idx: seq<nat>, b: Batch, order: seq<string>, st: LimitState)
    returns (res: Result<seq<RuleMatch>, EvalError>)
    requires Visits(order, b) && (forall j :: 0 <= j < |idx| ==> idx[j] < |rules|) && st.rulesDone == 0 && st.readings == 0
    modifies st
    ensures res.Ok? <==> PassesFit(rules, idx, Min(st.limits.maxRules + 1, |idx|), b, order, st.limits, st.clock)
    ensures res.Ok? ==> res.value == Matches(rules, idx[..Min(st.limits.maxRules, |idx|)], b, order)
  {
    ghost var picked := idx[..Min(st.limits.maxRules, |idx|)];
    var out := [];
    assert picked[0..] == picked;
    for i := 0 to |idx|
      invariant i <= |picked| && st.rulesDone == i && st.readings == ReadingAt(rules, idx, i, b, order)
      invariant PassesFit(rules, idx, i, b, order, st.limits, st.clock)
      invariant Matches(rules, picked, b, order) == out + Matches(rules, picked[i..], b, order)
    {
      var v := LoopTurn(rules, idx, i, b, order, st);
      if v.Err? {
        FailedPassFails(rules, idx, Min(st.limits.maxRules + 1, |idx|), i, b, order, st.limits, st.clock);
        return Err(v.error);
      }
      if v.value.None? {
        assert picked[i..] == [];
        return Ok(out);
      }
      MatchesStep(out, rules, picked, i, b, order);
      out := out + v.value.value;
    }
    assert picked[|idx|..] == [];
    res := Ok(out);
  }

  method EvaluateRules(rules: seq<Value>, b: Batch, order: seq<string>, st: LimitState)
    returns (res: Result<seq<RuleMatch>, EvalError>)
    requires Visits(order, b) && st.rulesDone == 0 && st.readings == 0
    modifies st
    ensures res.Ok? <==> LoopFits(rules, b, order, st.limits, st.clock)
    ensures res.Ok? ==> res.value == Matches(rules, Selected(rules, st.limits.maxRules), b, order)
  {
    var idx := SortIndices(rules, |rules|);
    res := EvaluateInOrder(rules, idx, b, order, st);
  }

  /** The five limits and the rule list are present and of the right type. */
  predicate Readable(pack: Value) {
    && Get(pack, "evaluator_limits").Some? && ParseLimits(Get(pack, "evaluator_limits").value).Ok?
    && Get(pack, "rules").Some? && Get(pack, "rules").value.Arr?
  }

  function LimitsOf(pack: Value): Limits
    requires Readable(pack)
  {
    ParseLimits(Get(pack, "evaluator_limits").value).value
  }

  function RulesOf(pack: Value): seq<Value>
    requires Readable(pack)
  {
    Get(pack, "rules").value.items
  }

  method EvaluatePack(pack: Value, b: Batch, order: seq<string>, clock: nat -> nat)
    returns (res: Result<seq<RuleMatch>, EvalError>)
    requires Visits(order, b)
    ensures res.Ok? <==>
            Readable(pack) && LoopFits(RulesOf(pack), b, order, LimitsOf(pack), clock)
    ensures res.Ok? ==> res.value == Matches(RulesOf(pack), Selected(RulesOf(pack), LimitsOf(pack).maxRules), b, order)
    ensures !Readable(pack) ==>
              res == if Get(pack, "evaluator_limits").None? then Err(LimitsMissing)
                     else if ParseLimits(Get(pack, "evaluator_limits").value).Err? then Err(ParseLimits(Get(pack, "evaluator_limits").value).error)
                     else Err(RulesMissing)
  {
    var limits := Get(pack, "evaluator_limits");
    if limits.None? {
      return Err(LimitsMissing);
    }
    var parsed := ParseLimits(limits.value);
    if parsed.Err? {
      return Err(parsed.error);
    }
    var st := new LimitState(parsed.value, clock);
    var rules := Get(pack, "rules");
    if rules.None? || !rules.value.Arr? {
      return Err(RulesMissing);
    }
    res := EvaluateRules(rules.value.items, b, order, st);
  }
}
