/** What an Ok or an error of `evaluate_pack` tells its caller, for every pack, batch, order and clock. */
module PackGuarantees {
  import opened Prelude
  import opened PackSemantics
  import opened PackRun
  import opened PackEval
  import opened PackLoop
  import PackTheorems
  import PackBounds

  ghost predicate RuleHolds(rule: Value, b: Batch) {
    Get(rule, "match").Some? && Holds(Get(rule, "match").value, b)
  }

  /** The rules among `idx` whose clause is true of the batch, in that order. */
  ghost function TrueRules(rules: seq<Value>, idx: seq<nat>, b: Batch): seq<Value>
    requires forall j :: 0 <= j < |idx| ==> idx[j] < |rules|
  {
    if idx == [] then []
    else (if RuleHolds(rules[idx[0]], b) then [rules[idx[0]]] else []) + TrueRules(rules, idx[1..], b)
  }

  function RulesIn(matches: seq<RuleMatch>): seq<Value> {
    seq(|matches|, i requires 0 <= i < |matches| => matches[i].rule)
  }

  ghost predicate MatchSourced(m: RuleMatch, b: Batch) {
    Get(m.rule, "match").Some? && PackTheorems.HintSourced(m.hint, Get(m.rule, "match").value, b)
  }

  ghost predicate RunsClean(rule: Value, b: Batch, order: seq<string>)
    requires Visits(order, b)
  {
    var run := RunRule(rule, b, order);
    run.Some? ==> run.value.fault.None?
  }

  lemma OneRule(rule: Value, b: Batch, order: seq<string>)
    requires Enumerates(order, b) && RunsClean(rule, b, order)
    ensures RulesIn(MatchOf(rule, b, order)) == if RuleHolds(rule, b) then [rule] else []
    ensures forall m :: m in MatchOf(rule, b, order) ==> MatchSourced(m, b)
  {
    var clause := Get(rule, "match");
    if clause.Some? {
      PackTheorems.RunDecidesHolds(clause.value, b, order);
      if RunClause(clause.value, b, order).matched {
        PackTheorems.HintsAreSound(clause.value, b, order);
      }
    }
  }

  lemma {:induction false} MatchesAreTrueRules(rules: seq<Value>, idx: seq<nat>, b: Batch, order: seq<string>)
    requires Enumerates(order, b) && forall j :: 0 <= j < |idx| ==> idx[j] < |rules|
    requires forall j :: 0 <= j < |idx| ==> RunsClean(rules[idx[j]], b, order)
    ensures RulesIn(Matches(rules, idx, b, order)) == TrueRules(rules, idx, b)
    ensures forall m :: m in Matches(rules, idx, b, order) ==> MatchSourced(m, b)
  {
    if idx != [] {
      OneRule(rules[idx[0]], b, order);
      MatchesAreTrueRules(rules, idx[1..], b, order);
      var first, rest := MatchOf(rules[idx[0]], b, order), Matches(rules, idx[1..], b, order);
      RulesInConcat(first, rest);
    }
  }

  lemma RulesInConcat(a: seq<RuleMatch>, b: seq<RuleMatch>)
    ensures RulesIn(a + b) == RulesIn(a) + RulesIn(b)
  {
  }

  /**
   Refinement: when the loop completes, the result is exactly the true rules
   among the first `max_rules` in stable priority order, each with hints that
   come from satisfied observations.
   */
  lemma EvaluatorRefinesMeaning(rules: seq<Value>, b: Batch, order: seq<string>, lim: Limits, clock: nat -> nat)
    requires Enumerates(order, b) && LoopFits(rules, b, order, lim, clock)
    ensures var idx := Selected(rules, lim.maxRules);
            && InOrder(rules, idx)
            && (forall i :: 0 <= i < |rules| && i !in idx ==> |idx| == lim.maxRules && forall k :: 0 <= k < |idx| ==> Before(rules, idx[k], i))
            && RulesIn(Matches(rules, idx, b, order)) == TrueRules(rules, idx, b)
            && (forall m :: m in Matches(rules, idx, b, order) ==> MatchSourced(m, b))
  {
    var all, idx := SortIndices(rules, |rules|), Selected(rules, lim.maxRules);
    SelectedAreFirst(rules, lim.maxRules);
    forall j | 0 <= j < |idx| ensures RunsClean(rules[idx[j]], b, order) {
      PassesFitAll(rules, all, Min(lim.maxRules + 1, |rules|), j, b, order, lim, clock);
      assert RuleFits(rules[idx[j]], b, order, lim, clock, ReadingAt(rules, all, j, b, order) + 1);
    }
    MatchesAreTrueRules(rules, idx, b, order);
  }

  /** The selected rules are in order, and every rule left out comes after all of them. */
  lemma SelectedAreFirst(rules: seq<Value>, maxRules: nat)
    ensures var idx := Selected(rules, maxRules);
            && InOrder(rules, idx)
            && forall i :: 0 <= i < |rules| && i !in idx ==> |idx| == maxRules && forall k :: 0 <= k < |idx| ==> Before(rules, idx[k], i)
  {
    SortIsStable(rules, |rules|);
    var all, idx := SortIndices(rules, |rules|), Selected(rules, maxRules);
    forall i | 0 <= i < |rules| && i !in idx
      ensures |idx| == maxRules && forall k :: 0 <= k < |idx| ==> Before(rules, idx[k], i)
    {
      assert i in all;
      var m :| 0 <= m < |all| && all[m] == i;
      assert forall j :: 0 <= j < |idx| ==> idx[j] == all[j] && idx[j] != i;
      forall k | 0 <= k < |idx| ensures Before(rules, idx[k], i) {
        assert Before(rules, all[k], all[m]);
      }
    }
  }

  /** Two iteration orders that both complete match the same rules. */
  lemma OrderDoesNotMatter(rules: seq<Value>, b: Batch, order1: seq<string>, order2: seq<string>,
                           lim: Limits, clock1: nat -> nat, clock2: nat -> nat)
    requires Enumerates(order1, b) && Enumerates(order2, b)
    requires LoopFits(rules, b, order1, lim, clock1) && LoopFits(rules, b, order2, lim, clock2)
    ensures var idx := Selected(rules, lim.maxRules);
            RulesIn(Matches(rules, idx, b, order1)) == RulesIn(Matches(rules, idx, b, order2))
  {
    EvaluatorRefinesMeaning(rules, b, order1, lim, clock1);
    EvaluatorRefinesMeaning(rules, b, order2, lim, clock2);
  }

  // ---- enough budget -------------------------------------------------------------

  /** The clause is well-formed and no larger than the per-rule limits, measured statically. */
  ghost predicate Affordable(rule: Value, b: Batch, lim: Limits) {
    var clause := Get(rule, "match");
    clause.Some? ==>
      && WellFormed(clause.value)
      && PackBounds.Height(clause.value) <= lim.maxDepth
      && PackBounds.Nodes(clause.value) <= lim.maxClauses
      && PackBounds.StaticCost(clause.value, b) <= lim.maxStringCmp
  }

  /** The most clock readings that evaluating one rule can take. */
  ghost function RuleNodes(rule: Value): nat {
    var clause := Get(rule, "match");
    if clause.Some? then PackBounds.Nodes(clause.value) else 0
  }

  /** The most clock readings that the first `k` passes can take. */
  ghost function MostReadings(rules: seq<Value>, idx: seq<nat>, k: nat): nat
    requires (forall j :: 0 <= j < |idx| ==> idx[j] < |rules|) && k <= |idx|
  {
    if k == 0 then 0 else MostReadings(rules, idx, k - 1) + 1 + RuleNodes(rules[idx[k - 1]])
  }

  /** The most clock readings the whole evaluation can take: a bound known before it starts. */
  ghost function ReadingBound(rules: seq<Value>, idx: seq<nat>, maxRules: nat): nat
    requires forall j :: 0 <= j < |idx| ==> idx[j] < |rules|
  {
    MostReadings(rules, idx, Min(maxRules, |idx|)) + if maxRules < |idx| then 1 else 0
  }

  lemma {:induction false} MostReadingsGrow(rules: seq<Value>, idx: seq<nat>, j: nat, k: nat)
    requires (forall i :: 0 <= i < |idx| ==> idx[i] < |rules|) && j <= k <= |idx|
    ensures MostReadings(rules, idx, j) <= MostReadings(rules, idx, k)
  {
    if j < k {
      MostReadingsGrow(rules, idx, j, k - 1);
    }
  }

  lemma RuleReadingsBounded(rule: Value, b: Batch, order: seq<string>)
    requires Enumerates(order, b)
    ensures RuleReadings(rule, b, order) <= RuleNodes(rule)
  {
    var clause := Get(rule, "match");
    if clause.Some? {
      PackBounds.RunBounded(clause.value, b, order);
    }
  }

  lemma {:induction false} ReadingsBounded(rules: seq<Value>, idx: seq<nat>, k: nat, b: Batch, order: seq<string>)
    requires Enumerates(order, b) && (forall j :: 0 <= j < |idx| ==> idx[j] < |rules|) && k <= |idx|
    ensures ReadingAt(rules, idx, k, b, order) <= MostReadings(rules, idx, k)
  {
    if k > 0 {
      ReadingsBounded(rules, idx, k - 1, b, order);
      RuleReadingsBounded(rules[idx[k - 1]], b, order);
    }
  }

  lemma AffordableFits(rule: Value, b: Batch, order: seq<string>, lim: Limits, clock: nat -> nat, readings: nat)
    requires Enumerates(order, b) && Affordable(rule, b, lim)
    requires forall k :: readings <= k < readings + RuleNodes(rule) ==> InTime(lim, clock, k)
    ensures RuleFits(rule, b, order, lim, clock, readings)
  {
    var clause := Get(rule, "match");
    if clause.Some? {
      PackTheorems.WellFormedRuns(clause.value, b, order);
      PackBounds.RunBounded(clause.value, b, order);
    }
  }

  /** Enough budget means no error: static bounds within the limits, and a clock in time for as long as they allow. */
  lemma EnoughBudgetNeverFails(rules: seq<Value>, b: Batch, order: seq<string>, lim: Limits, clock: nat -> nat)
    requires Enumerates(order, b)
    requires var idx := Selected(rules, lim.maxRules); forall j :: 0 <= j < |idx| ==> Affordable(rules[idx[j]], b, lim)
    requires forall k :: 0 <= k < ReadingBound(rules, SortIndices(rules, |rules|), lim.maxRules) ==> InTime(lim, clock, k)
    ensures LoopFits(rules, b, order, lim, clock)
  {
    var all, idx := SortIndices(rules, |rules|), Selected(rules, lim.maxRules);
    assert forall j :: 0 <= j < |idx| ==> idx[j] == all[j];
    EnoughForPasses(rules, SortIndices(rules, |rules|), Min(lim.maxRules + 1, |rules|), b, order, lim, clock);
  }

  lemma {:induction false} EnoughForPasses(rules: seq<Value>, idx: seq<nat>, n: nat,
                                           b: Batch, order: seq<string>, lim: Limits, clock: nat -> nat)
    requires Enumerates(order, b) && (forall j :: 0 <= j < |idx| ==> idx[j] < |rules|) && n <= Min(lim.maxRules + 1, |idx|)
    requires forall j :: 0 <= j < Min(lim.maxRules, |idx|) ==> Affordable(rules[idx[j]], b, lim)
    requires forall k :: 0 <= k < ReadingBound(rules, idx, lim.maxRules) ==> InTime(lim, clock, k)
    ensures PassesFit(rules, idx, n, b, order, lim, clock)
  {
    if n > 0 {
      EnoughForPasses(rules, idx, n - 1, b, order, lim, clock);
      EnoughForPass(rules, idx, n - 1, b, order, lim, clock);
    }
  }

  lemma EnoughForPass(rules: seq<Value>, idx: seq<nat>, k: nat, b: Batch, order: seq<string>, lim: Limits, clock: nat -> nat)
    requires Enumerates(order, b) && (forall j :: 0 <= j < |idx| ==> idx[j] < |rules|) && k < |idx| && k <= lim.maxRules
    requires k < lim.maxRules ==> Affordable(rules[idx[k]], b, lim)
    requires forall i :: 0 <= i < ReadingBound(rules, idx, lim.maxRules) ==> InTime(lim, clock, i)
    ensures PassFits(rules, idx, k, b, order, lim, clock)
  {
    var reading := ReadingAt(rules, idx, k, b, order);
    ReadingsBounded(rules, idx, k, b, order);
    if k < lim.maxRules {
      MostReadingsGrow(rules, idx, k + 1, Min(lim.maxRules, |idx|));
      AffordableFits(rules[idx[k]], b, order, lim, clock, reading + 1);
    }
  }

  // ---- raising limits ------------------------------------------------------------

  /** Same rule limit; every per-rule limit and the wall time at least as large. */
  predicate Raised(lim: Limits, lim': Limits) {
    && lim'.maxRules == lim.maxRules
    && lim.maxStringCmp <= lim'.maxStringCmp
    && lim.maxDepth <= lim'.maxDepth
    && lim.maxClauses <= lim'.maxClauses
    && lim.maxWallMs <= lim'.maxWallMs
  }

  lemma RaisedFits(r: Run, lim: Limits, lim': Limits, clock: nat -> nat, c: Counters, depth: nat)
    requires Raised(lim, lim') && Fits(r, lim, clock, c, depth)
    ensures Fits(r, lim', clock, c, depth)
  {
    forall k | c.readings <= k < c.readings + r.clauses ensures InTime(lim', clock, k) {
      assert InTime(lim, clock, k);
    }
  }

  /** Raising limits never changes an Ok answer or its hints: the loop still completes, with the same matches. */
  lemma RaisingLimitsKeepsAnswers(rules: seq<Value>, b: Batch, order: seq<string>, lim: Limits, lim': Limits, clock: nat -> nat)
    requires Visits(order, b) && Raised(lim, lim') && LoopFits(rules, b, order, lim, clock)
    ensures LoopFits(rules, b, order, lim', clock)
    ensures Matches(rules, Selected(rules, lim'.maxRules), b, order) == Matches(rules, Selected(rules, lim.maxRules), b, order)
  {
    RaisedPasses(rules, Min(lim.maxRules + 1, |rules|), b, order, lim, lim', clock);
  }

  lemma {:induction false} RaisedPasses(rules: seq<Value>, n: nat, b: Batch, order: seq<string>,
                                        lim: Limits, lim': Limits, clock: nat -> nat)
    requires Visits(order, b) && Raised(lim, lim') && n <= |rules|
    requires PassesFit(rules, SortIndices(rules, |rules|), n, b, order, lim, clock)
    ensures PassesFit(rules, SortIndices(rules, |rules|), n, b, order, lim', clock)
  {
    if n > 0 {
      RaisedPasses(rules, n - 1, b, order, lim, lim', clock);
      var all := SortIndices(rules, |rules|);
      var reading := ReadingAt(rules, all, n - 1, b, order);
      assert InTime(lim, clock, reading);
      var run := RunRule(rules[all[n - 1]], b, order);
      if n - 1 < lim.maxRules && run.Some? {
        RaisedFits(run.value, lim, lim', clock, Counters(0, 0, reading + 1), 1);
      }
    }
  }
}
