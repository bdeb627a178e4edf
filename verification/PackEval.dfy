/**
 The budgeted evaluator of detection_pack.v1 clauses: `LimitState` counters changed
 in place and clause evaluation by structural recursion. Every
 method is proved to return exactly the answer of the unbudgeted run when that
 run fits the budgets, and otherwise to blame a budget that the run exceeds.
 */
module PackEval {
  import opened Prelude
  import opened PackSemantics
  import opened PackRun

  datatype Limits = Limits(maxRules: U64, maxStringCmp: U64, maxDepth: U64, maxClauses: U64, maxWallMs: U64)

  datatype EvalError =
    | LimitsMissing
    | BadLimits(what: string)
    | RulesMissing
    | StringBudget
    | ClauseBudget
    | DepthBudget
    | WallTime
    | BadClause(shape: Shape)

  datatype Verdict = Verdict(matched: bool, hint: MatchHint)

  /** What has been charged so far: two saturating counters and the clock readings taken. */
  datatype Counters = Counters(strings: U64, clauses: U64, readings: nat)

  // ---- the budget algebra --------------------------------------------------------

  /** A saturating counter that reaches `total` passes its limit check. */
  predicate Affords(total: nat, max: U64) {
    total <= max || max == U64_MAX
  }

  /** The wall-clock check passes at the given reading (nanoseconds since the start). */
  predicate InTime(lim: Limits, clock: nat -> nat, reading: nat) {
    clock(reading) <= lim.maxWallMs * 1_000_000
  }

  ghost predicate Fits(r: Run, lim: Limits, clock: nat -> nat, c: Counters, depth: nat) {
    && Affords(c.strings + r.strings, lim.maxStringCmp)
    && Affords(c.clauses + r.clauses, lim.maxClauses)
    && (r.levels == 0 || Affords(depth + r.levels - 1, lim.maxDepth))
    && (forall k :: c.readings <= k < c.readings + r.clauses ==> InTime(lim, clock, k))
  }

  /** `e` names a budget that the run really exceeds. */
  ghost predicate Blames(e: EvalError, r: Run, lim: Limits, clock: nat -> nat, c: Counters, depth: nat) {
    match e
    case StringBudget => !Affords(c.strings + r.strings, lim.maxStringCmp)
    case ClauseBudget => !Affords(c.clauses + r.clauses, lim.maxClauses)
    case DepthBudget => r.levels > 0 && !Affords(depth + r.levels - 1, lim.maxDepth)
    case WallTime => exists k :: c.readings <= k < c.readings + r.clauses && !InTime(lim, clock, k)
    case _ => false
  }

  function Advance(c: Counters, r: Run): Counters {
    Counters(SatAdd(c.strings, r.strings), SatAdd(c.clauses, r.clauses), c.readings + r.clauses)
  }

  lemma NothingCharged(c: Counters, r: Run, lim: Limits, clock: nat -> nat, depth: nat)
    requires r.strings == 0 && r.clauses == 0 && r.levels == 0
    requires c.strings <= lim.maxStringCmp && c.clauses <= lim.maxClauses
    ensures Advance(c, r) == c && Fits(r, lim, clock, c, depth)
  {
  }

  /** The budgeted result `res` of a run `r` started from counters `c` and left at `c'`. */
  ghost predicate Conforms(res: Result<Verdict, EvalError>, r: Run, lim: Limits, clock: nat -> nat,
                           c: Counters, c': Counters, depth: nat) {
    if Fits(r, lim, clock, c, depth) then
      if r.fault.Some? then res == Err(BadClause(r.fault.value))
      else res == Ok(Verdict(r.matched, r.hint)) && c' == Advance(c, r)
    else res.Err? && Blames(res.error, r, lim, clock, c, depth)
  }

  ghost predicate ScanConforms(res: Result<bool, EvalError>, s: Scan, lim: Limits, c: Counters, c': Counters) {
    if Affords(c.strings + s.strings, lim.maxStringCmp) then
      res == Ok(s.found) && c' == c.(strings := SatAdd(c.strings, s.strings))
    else res == Err(StringBudget)
  }

  /** Whatever would follow a chain of checks, a failed or aborted chain ends there. */
  lemma ChainStops(res: Result<bool, EvalError>, a: Scan, b: Scan, lim: Limits, c: Counters, c': Counters)
    requires ScanConforms(res, a, lim, c, c') && (res.Err? || !res.value)
    ensures ScanConforms(res, Then(a, b), lim, c, c')
  {
  }

  lemma ChainGoesOn(res: Result<bool, EvalError>, a: Scan, b: Scan, lim: Limits, c: Counters, c': Counters, c'': Counters)
    requires ScanConforms(Ok(true), a, lim, c, c') && ScanConforms(res, b, lim, c', c'')
    ensures ScanConforms(res, Then(a, b), lim, c, c'')
  {
  }

  lemma ThenAssociates(a: Scan, b: Scan, c: Scan)
    ensures Then(a, Then(b, c)) == Then(Then(a, b), c)
  {
  }

  /** Costs of `r` are a part of the costs of `r'`. */
  predicate Cheaper(r: Run, r': Run) {
    r.strings <= r'.strings && r.clauses <= r'.clauses && r.levels <= r'.levels
  }

  lemma BlamesMore(e: EvalError, r: Run, r': Run, lim: Limits, clock: nat -> nat, c: Counters, depth: nat)
    requires Cheaper(r, r') && Blames(e, r, lim, clock, c, depth)
    ensures Blames(e, r', lim, clock, c, depth)
  {
    if e.WallTime? {
      var k :| c.readings <= k < c.readings + r.clauses && !InTime(lim, clock, k);
      assert c.readings <= k < c.readings + r'.clauses;
    }
  }

  lemma BlamedDoesNotFit(e: EvalError, r: Run, lim: Limits, clock: nat -> nat, c: Counters, depth: nat)
    requires Blames(e, r, lim, clock, c, depth)
    ensures !Fits(r, lim, clock, c, depth)
  {
  }

  /** Charging one run and then another is charging both. */
  lemma FitsInSequence(a: Run, b: Run, lim: Limits, clock: nat -> nat, c: Counters, depth: nat)
    requires Fits(a, lim, clock, c, depth)
    ensures Fits(After(a, b), lim, clock, c, depth) <==> Fits(b, lim, clock, Advance(c, a), depth)
    ensures Advance(c, After(a, b)) == Advance(Advance(c, a), b)
  {
  }

  lemma BlamesInSequence(e: EvalError, a: Run, b: Run, lim: Limits, clock: nat -> nat, c: Counters, depth: nat)
    requires Fits(a, lim, clock, c, depth) && Blames(e, b, lim, clock, Advance(c, a), depth)
    ensures Blames(e, After(a, b), lim, clock, c, depth)
  {
    if e.WallTime? {
      var k :| c.readings + a.clauses <= k < c.readings + a.clauses + b.clauses && !InTime(lim, clock, k);
      assert c.readings <= k < c.readings + After(a, b).clauses;
    }
  }

  /** A child `r` that ends in an error ends the whole group, whose run goes `done`, then `rest`, with `r` first. */
  lemma ChildFails(v: Result<Verdict, EvalError>, done: Run, r: Run, rest: Run, whole: Run, lim: Limits, clock: nat -> nat,
                   c: Counters, c': Counters, c'': Counters, depth: nat)
    requires Fits(done, lim, clock, c, depth) && c' == Advance(c, done)
    requires v.Err? && Conforms(v, r, lim, clock, c', c'', depth)
    requires Cheaper(r, rest) && (r.fault.Some? ==> Cheaper(rest, r) && rest.fault == r.fault)
    requires Cheaper(whole, After(done, rest)) && Cheaper(After(done, rest), whole) && whole.fault == rest.fault
    ensures Conforms(v, whole, lim, clock, c, c'', depth)
  {
    var e := v.error;
    if Fits(r, lim, clock, c', depth) {
      FitsInSequence(done, rest, lim, clock, c, depth);
    } else {
      BlamesMore(e, r, rest, lim, clock, c', depth);
      BlamesInSequence(e, done, rest, lim, clock, c, depth);
      BlamesMore(e, After(done, rest), whole, lim, clock, c, depth);
      BlamedDoesNotFit(e, whole, lim, clock, c, depth);
    }
  }

  /** The group's run so far, extended by a child that answered. */
  function Extend(done: Run, r: Run, hint: MatchHint): Run {
    After(done, r).(matched := true, hint := hint)
  }

  lemma ChildSucceeds(v: Result<Verdict, EvalError>, done: Run, r: Run, hint: MatchHint, lim: Limits, clock: nat -> nat,
                      c: Counters, c': Counters, c'': Counters, depth: nat)
    requires Fits(done, lim, clock, c, depth) && c' == Advance(c, done)
    requires v.Ok? && Conforms(v, r, lim, clock, c', c'', depth)
    ensures r.fault.None? && v.value == Verdict(r.matched, r.hint)
    ensures Fits(Extend(done, r, hint), lim, clock, c, depth) && c'' == Advance(c, Extend(done, r, hint))
    ensures Conforms(Ok(Verdict(false, NO_HINT)), After(done, r).(matched := false, hint := NO_HINT), lim, clock, c, c'', depth)
  {
    FitsInSequence(done, r, lim, clock, c, depth);
  }

  lemma GroupAnswers(done: Run, matched: bool, lim: Limits, clock: nat -> nat, c: Counters, c': Counters, depth: nat)
    requires done.fault.None? && Fits(done, lim, clock, c, depth) && c' == Advance(c, done)
    ensures Conforms(Ok(Verdict(matched, done.hint)), done.(matched := matched), lim, clock, c, c', depth)
  {
  }

  function EnterOnce(c: Counters): Counters {
    Counters(c.strings, SatAdd(c.clauses, 1), c.readings + 1)
  }

  /** The checks made on entering a clause, then its contents one level down. */
  lemma EnteredConforms(res: Result<Verdict, EvalError>, inner: Run, lim: Limits, clock: nat -> nat,
                        c: Counters, c': Counters, depth: U64)
    requires Affords(c.clauses + 1, lim.maxClauses) && InTime(lim, clock, c.readings) && depth <= lim.maxDepth
    requires Conforms(res, inner, lim, clock, EnterOnce(c), c', SatAdd(depth, 1))
    ensures Conforms(res, Enter(inner), lim, clock, c, c', depth)
  {
    assert Fits(Enter(inner), lim, clock, c, depth) <==> Fits(inner, lim, clock, EnterOnce(c), SatAdd(depth, 1));
    assert Advance(c, Enter(inner)) == Advance(EnterOnce(c), inner);
    if res.Err? && Blames(res.error, inner, lim, clock, EnterOnce(c), SatAdd(depth, 1)) && res.error.WallTime? {
      var k :| c.readings + 1 <= k < c.readings + 1 + inner.clauses && !InTime(lim, clock, k);
      assert c.readings <= k < c.readings + Enter(inner).clauses;
    }
  }

  lemma EntryBlamed(e: EvalError, inner: Run, lim: Limits, clock: nat -> nat, c: Counters, c': Counters, depth: U64)
    requires match e
             case ClauseBudget => !Affords(c.clauses + 1, lim.maxClauses)
             case WallTime => !InTime(lim, clock, c.readings)
             case DepthBudget => depth > lim.maxDepth
             case _ => false
    ensures Conforms(Err(e), Enter(inner), lim, clock, c, c', depth)
  {
    if e.WallTime? {
      assert c.readings <= c.readings < c.readings + Enter(inner).clauses;
    }
    assert Blames(e, Enter(inner), lim, clock, c, depth);
  }

  // ---- LimitState ----------------------------------------------------------------

  class LimitState {
    const limits: Limits
    const clock: nat -> nat
    var stringCmp: U64
    var clauses: U64
    var rulesDone: nat
    var readings: nat

    ghost predicate Valid()
      reads this
    {
      stringCmp <= limits.maxStringCmp && clauses <= limits.maxClauses
    }

    function Snapshot(): Counters
      reads this
    {
      Counters(stringCmp, clauses, readings)
    }

    constructor (limits: Limits, clock: nat -> nat)
      ensures this.limits == limits && this.clock == clock
      ensures Valid() && Snapshot() == Counters(0, 0, 0) && rulesDone == 0
    {
      this.limits := limits;
      this.clock := clock;
      stringCmp, clauses, rulesDone, readings := 0, 0, 0, 0;
    }

    method BumpStr(n: U64) returns (ok: bool)
      modifies this`stringCmp
      ensures stringCmp == SatAdd(old(stringCmp), n)
      ensures ok <==> Affords(old(stringCmp) + n, limits.maxStringCmp)
    {
      stringCmp := SatAdd(stringCmp, n);
      ok := stringCmp <= limits.maxStringCmp;
    }

    method BumpClause() returns (ok: bool)
      modifies this`clauses
      ensures clauses == SatAdd(old(clauses), 1)
      ensures ok <==> Affords(old(clauses) + 1, limits.maxClauses)
    {
      clauses := SatAdd(clauses, 1);
      ok := clauses <= limits.maxClauses;
    }

    method TickTime() returns (ok: bool)
      modifies this`readings
      ensures readings == old(readings) + 1
      ensures ok <==> InTime(limits, clock, old(readings))
    {
      ok := clock(readings) <= limits.maxWallMs * 1_000_000;
      readings := readings + 1;
    }

    /** Per-rule counters start over; the clock does not. */
    method StartRule()
      modifies this
      ensures Snapshot() == Counters(0, 0, old(readings)) && rulesDone == old(rulesDone) + 1
    {
      rulesDone := rulesDone + 1;
      stringCmp, clauses := 0, 0;
    }
  }

  // ---- string lists --------------------------------------------------------------

  method SubstringAny(s: string, needles: seq<Value>, st: LimitState) returns (res: Result<bool, EvalError>)
    requires st.Valid()
    modifies st
    ensures ScanConforms(res, ScanList(needles, Substring(s)), st.limits, old(st.Snapshot()), st.Snapshot())
    ensures res.Ok? ==> st.Valid()
    ensures st.rulesDone == old(st.rulesDone)
  {
    ghost var p := Substring(s);
    ghost var c := st.Snapshot();
    ghost var spent: nat := 0;
    for i := 0 to |needles|
      invariant ScanList(needles, p).found == ScanList(needles[i..], p).found
      invariant ScanList(needles, p).strings == spent + ScanList(needles[i..], p).strings
      invariant Affords(c.strings + spent, st.limits.maxStringCmp)
      invariant st.Snapshot() == c.(strings := SatAdd(c.strings, spent))
      invariant st.Valid() && st.rulesDone == old(st.rulesDone)
    {
      assert needles[i..][0] == needles[i] && needles[i..][1..] == needles[i + 1..];
      if needles[i].Str? {
        var ok := st.BumpStr(1);
        spent := spent + 1;
        if !ok {
          return Err(StringBudget);
        }
        var needle := Lower(needles[i].s);
        if needle != "" && Contains(s, needle) {
          return Ok(true);
        }
      }
    }
    res := Ok(false);
  }

  method ContainsStringAny(s: string, names: seq<Value>, ci: bool, st: LimitState) returns (res: Result<bool, EvalError>)
    requires st.Valid()
    modifies st
    ensures ScanConforms(res, ScanList(names, Name(s, ci)), st.limits, old(st.Snapshot()), st.Snapshot())
    ensures res.Ok? ==> st.Valid()
    ensures st.rulesDone == old(st.rulesDone)
  {
    ghost var p := Name(s, ci);
    ghost var c := st.Snapshot();
    ghost var spent: nat := 0;
    for i := 0 to |names|
      invariant ScanList(names, p).found == ScanList(names[i..], p).found
      invariant ScanList(names, p).strings == spent + ScanList(names[i..], p).strings
      invariant Affords(c.strings + spent, st.limits.maxStringCmp)
      invariant st.Snapshot() == c.(strings := SatAdd(c.strings, spent))
      invariant st.Valid() && st.rulesDone == old(st.rulesDone)
    {
      assert names[i..][0] == names[i] && names[i..][1..] == names[i + 1..];
      if names[i].Str? {
        var ok := st.BumpStr(1);
        spent := spent + 1;
        if !ok {
          return Err(StringBudget);
        }
        var a, b := if ci then Lower(s) else s, if ci then Lower(names[i].s) else names[i].s;
        if a == b {
          return Ok(true);
        }
      }
    }
    res := Ok(false);
  }

  /** One `if let Some(Value::Array(arr)) = m.get(key)` test of a leaf. */
  method CheckKey(m: map<string, Value>, check: Check, st: LimitState) returns (res: Result<bool, EvalError>)
    requires st.Valid()
    modifies st
    ensures ScanConforms(res, ScanKey(m, check.key, check.probe), st.limits, old(st.Snapshot()), st.Snapshot())
    ensures res.Ok? ==> st.Valid()
    ensures st.rulesDone == old(st.rulesDone)
  {
    if !HasArray(m, check.key) {
      return Ok(true);
    }
    match check.probe {
      case Name(s, ci) => res := ContainsStringAny(s, m[check.key].items, ci, st);
      case Substring(s) => res := SubstringAny(s, m[check.key].items, st);
    }
  }

  /** The tests of `match_process`, each ending the match when it fails. */
  method MatchProcess(b: Batch, pm: map<string, Value>, p: ProcessObs, st: LimitState) returns (res: Result<bool, EvalError>)
    requires st.Valid()
    modifies st
    ensures ScanConforms(res, ScanProcess(b, pm, p), st.limits, old(st.Snapshot()), st.Snapshot())
    ensures res.Ok? ==> st.Valid()
    ensures st.rulesDone == old(st.rulesDone)
  {
    var checks := ProcessChecks(b, pm, p);
    res := MatchAll(pm, checks, st);
  }

  method MatchAll(m: map<string, Value>, checks: seq<Check>, st: LimitState) returns (res: Result<bool, EvalError>)
    requires st.Valid()
    modifies st
    ensures ScanConforms(res, ScanChecks(m, checks), st.limits, old(st.Snapshot()), st.Snapshot())
    ensures res.Ok? ==> st.Valid()
    ensures st.rulesDone == old(st.rulesDone)
  {
    ghost var c := st.Snapshot();
    ghost var acc := Scan(true, 0);
    res := Ok(true);
    assert checks[0..] == checks;
    for i := 0 to |checks|
      invariant ScanChecks(m, checks) == Then(acc, ScanChecks(m, checks[i..]))
      invariant res == Ok(true) && ScanConforms(res, acc, st.limits, c, st.Snapshot())
      invariant st.Valid() && st.rulesDone == old(st.rulesDone)
    {
      assert checks[i..][0] == checks[i] && checks[i..][1..] == checks[i + 1..];
      ghost var s, c', rest := ScanKey(m, checks[i].key, checks[i].probe), st.Snapshot(), ScanChecks(m, checks[i + 1..]);
      res := CheckKey(m, checks[i], st);
      ThenAssociates(acc, s, rest);
      ChainGoesOn(res, acc, s, st.limits, c, c', st.Snapshot());
      acc := Then(acc, s);
      if res.Err? || !res.value {
        ChainStops(res, acc, rest, st.limits, c, st.Snapshot());
        return;
      }
    }
  }

  /** The port part of `match_flow_map`. */
  method MatchPorts(fm: map<string, Value>, fl: FlowObs) returns (found: bool)
    ensures found <==> PortListed(fm, fl)
  {
    if !HasArray(fm, "remote_ports_any") || fm["remote_ports_any"].items == [] {
      return true;
    }
    if fl.remotePort.None? {
      return false;
    }
    var arr := fm["remote_ports_any"].items;
    for i := 0 to |arr|
      invariant forall k :: 0 <= k < i ==> !(arr[k].UInt? && arr[k].n % 0x1_0000 == fl.remotePort.value)
    {
      if arr[i].UInt? && arr[i].n % 0x1_0000 == fl.remotePort.value {
        return true;
      }
    }
    found := false;
  }

  method MatchFlow(fm: map<string, Value>, fl: FlowObs, st: LimitState) returns (res: Result<bool, EvalError>)
    requires st.Valid()
    modifies st
    ensures ScanConforms(res, ScanFlow(fm, fl), st.limits, old(st.Snapshot()), st.Snapshot())
    ensures res.Ok? ==> st.Valid()
    ensures st.rulesDone == old(st.rulesDone)
  {
    var listed := MatchPorts(fm, fl);
    if !listed {
      return Ok(false);
    }
    res := CheckKey(fm, Check("remote_host_contains_any", Substring(Lower(fl.remoteHostname))), st);
  }

  // ---- leaves --------------------------------------------------------------------

  /** Progress of a leaf loop after `i` observations, none of which passed. */
  ghost predicate LeafLoop(scans: seq<Scan>, i: nat, spent: nat, lim: Limits, c: Counters, c': Counters) {
    && i <= |scans|
    && FirstFound(scans) == i + FirstFound(scans[i..])
    && Spent(scans) == spent + Spent(scans[i..])
    && Affords(c.strings + spent, lim.maxStringCmp)
    && c' == c.(strings := SatAdd(c.strings, spent))
  }

  lemma LoopUnroll(scans: seq<Scan>, i: nat)
    requires i < |scans|
    ensures scans[i].found ==> FirstFound(scans[i..]) == 0 && Spent(scans[i..]) == scans[i].strings
    ensures !scans[i].found ==> && FirstFound(scans[i..]) == 1 + FirstFound(scans[i + 1..])
                                && Spent(scans[i..]) == scans[i].strings + Spent(scans[i + 1..])
  {
    assert scans[i..][0] == scans[i] && scans[i..][1..] == scans[i + 1..];
  }

  lemma LeafFails(scans: seq<Scan>, i: nat, spent: nat, lim: Limits, c: Counters, c': Counters,
                  res: Result<bool, EvalError>, c'': Counters)
    requires LeafLoop(scans, i, spent, lim, c, c') && i < |scans| && ScanConforms(res, scans[i], lim, c', c'') && res.Err?
    ensures res == Err(StringBudget) && !Affords(c.strings + Spent(scans), lim.maxStringCmp)
  {
    LoopUnroll(scans, i);
    var later := if scans[i].found then 0 else Spent(scans[i + 1..]);
    ChargeMore(c.strings, spent, scans[i].strings, later, lim.maxStringCmp);
    assert Spent(scans) == spent + scans[i].strings + later;
  }

  lemma LeafPasses(scans: seq<Scan>, i: nat, spent: nat, lim: Limits, c: Counters, c': Counters,
                   res: Result<bool, EvalError>, c'': Counters)
    requires LeafLoop(scans, i, spent, lim, c, c') && i < |scans| && ScanConforms(res, scans[i], lim, c', c'') && res.Ok?
    ensures res.value ==>
              && FirstFound(scans) == i && Affords(c.strings + Spent(scans), lim.maxStringCmp)
              && c'' == c.(strings := SatAdd(c.strings, Spent(scans)))
    ensures !res.value ==> LeafLoop(scans, i + 1, spent + scans[i].strings, lim, c, c'')
  {
    LoopUnroll(scans, i);
    ChargeMore(c.strings, spent, scans[i].strings, 0, lim.maxStringCmp);
    assert res.value == scans[i].found;
  }

  /** One observation of a leaf loop: the budget ends it, the observation passes, or the loop goes on. */
  lemma LeafStep(scans: seq<Scan>, i: nat, spent: nat, lim: Limits, c: Counters, c': Counters,
                 res: Result<bool, EvalError>, c'': Counters)
    requires LeafLoop(scans, i, spent, lim, c, c') && i < |scans| && ScanConforms(res, scans[i], lim, c', c'')
    ensures res.Err? ==> res == Err(StringBudget) && !Affords(c.strings + Spent(scans), lim.maxStringCmp)
    ensures res.Ok? && res.value ==>
              && FirstFound(scans) == i && Affords(c.strings + Spent(scans), lim.maxStringCmp)
              && c'' == c.(strings := SatAdd(c.strings, Spent(scans)))
    ensures res.Ok? && !res.value ==> LeafLoop(scans, i + 1, spent + scans[i].strings, lim, c, c'')
  {
    if res.Err? {
      LeafFails(scans, i, spent, lim, c, c', res, c'');
    } else {
      LeafPasses(scans, i, spent, lim, c, c', res, c'');
    }
  }

  /** Charging in two steps is charging the sum, as long as the first step was affordable. */
  lemma ChargeMore(start: U64, first: nat, more: nat, later: nat, max: U64)
    ensures SatAdd(SatAdd(start, first), more) == SatAdd(start, first + more)
    ensures Affords(start + first, max) ==> (Affords(SatAdd(start, first) + more, max) <==> Affords(start + (first + more), max))
    ensures Affords(start + (first + more + later), max) ==> Affords(start + (first + more), max)
  {
  }

  /** A leaf charges strings only. */
  ghost predicate LeafConforms(res: Result<Verdict, EvalError>, r: Run, lim: Limits, c: Counters, c': Counters) {
    if Affords(c.strings + r.strings, lim.maxStringCmp) then
      res == Ok(Verdict(r.matched, r.hint)) && c' == c.(strings := SatAdd(c.strings, r.strings))
    else res == Err(StringBudget)
  }

  lemma LeafRunConforms(res: Result<Verdict, EvalError>, r: Run, lim: Limits, clock: nat -> nat,
                        c: Counters, c': Counters, depth: nat)
    requires LeafConforms(res, r, lim, c, c') && c.clauses <= lim.maxClauses
    requires r.fault.None? && r.clauses == 0 && r.levels == 0
    ensures Conforms(res, r, lim, clock, c, c', depth)
  {
  }

  method MatchNth(pm: map<string, Value>, b: Batch, order: seq<string>, i: nat, st: LimitState)
    returns (res: Result<bool, EvalError>)
    requires st.Valid() && Visits(order, b) && i < |order|
    modifies st
    ensures ScanConforms(res, ProcessScans(pm, b, order)[i], st.limits, old(st.Snapshot()), st.Snapshot())
    ensures res.Ok? ==> st.Valid()
    ensures st.rulesDone == old(st.rulesDone)
  {
    ScanAt(pm, b, order, i);
    res := MatchProcess(b, pm, b.processes[order[i]], st);
  }

  lemma ProcessFound(pm: map<string, Value>, b: Batch, order: seq<string>, i: nat)
    requires Visits(order, b) && i < |order| && FirstFound(ProcessScans(pm, b, order)) == i
    ensures RunProcess(pm, b, order) == Answer(true, MatchHint(Some(order[i]), None), Spent(ProcessScans(pm, b, order)))
  {
  }

  method EvalProcessLeaf(pm: map<string, Value>, b: Batch, order: seq<string>, st: LimitState)
    returns (res: Result<Verdict, EvalError>)
    requires st.Valid() && Visits(order, b)
    modifies st
    ensures LeafConforms(res, RunProcess(pm, b, order), st.limits, old(st.Snapshot()), st.Snapshot())
    ensures res.Ok? ==> st.Valid()
    ensures st.rulesDone == old(st.rulesDone)
  {
    ghost var scans := ProcessScans(pm, b, order);
    ghost var c := st.Snapshot();
    ghost var spent: nat := 0;
    assert scans[0..] == scans;
    for i := 0 to |order|
      invariant LeafLoop(scans, i, spent, st.limits, c, st.Snapshot())
      invariant st.Valid() && st.rulesDone == old(st.rulesDone)
    {
      ghost var c' := st.Snapshot();
      var ok := MatchNth(pm, b, order, i, st);
      LeafStep(scans, i, spent, st.limits, c, c', ok, st.Snapshot());
      if ok.Err? {
        return Err(ok.error);
      }
      if ok.value {
        ProcessFound(pm, b, order, i);
        return Ok(Verdict(true, MatchHint(Some(order[i]), None)));
      }
      spent := spent + scans[i].strings;
    }
    res := Ok(Verdict(false, NO_HINT));
  }

  method EvalDnsLeaf(dm: map<string, Value>, dns: seq<DnsObs>, st: LimitState) returns (res: Result<Verdict, EvalError>)
    requires st.Valid()
    modifies st
    ensures LeafConforms(res, RunDns(dm, dns), st.limits, old(st.Snapshot()), st.Snapshot())
    ensures res.Ok? ==> st.Valid()
    ensures st.rulesDone == old(st.rulesDone)
  {
    if !HasArray(dm, "query_contains_any") {
      return Ok(Verdict(false, NO_HINT));
    }
    ghost var scans := DnsScans(dm, dns);
    ghost var c := st.Snapshot();
    ghost var spent: nat := 0;
    assert scans[0..] == scans;
    for i := 0 to |dns|
      invariant LeafLoop(scans, i, spent, st.limits, c, st.Snapshot())
      invariant st.Valid() && st.rulesDone == old(st.rulesDone)
    {
      ghost var c' := st.Snapshot();
      var ok := SubstringAny(Lower(dns[i].query), dm["query_contains_any"].items, st);
      LeafStep(scans, i, spent, st.limits, c, c', ok, st.Snapshot());
      if ok.Err? {
        return Err(ok.error);
      }
      if ok.value {
        return Ok(Verdict(true, NO_HINT));
      }
      spent := spent + scans[i].strings;
    }
    res := Ok(Verdict(false, NO_HINT));
  }

  method EvalFlowLeaf(fm: map<string, Value>, flows: seq<FlowObs>, st: LimitState) returns (res: Result<Verdict, EvalError>)
    requires st.Valid()
    modifies st
    ensures LeafConforms(res, RunFlow(fm, flows), st.limits, old(st.Snapshot()), st.Snapshot())
    ensures res.Ok? ==> st.Valid()
    ensures st.rulesDone == old(st.rulesDone)
  {
    if HasAnyFlow(fm) {
      if flows != [] {
        return Ok(Verdict(true, FlowHint(flows[0])));
      }
      return Ok(Verdict(false, NO_HINT));
    }
    res := EvalFlows(fm, flows, st);
  }

  /** The flow loop of a leaf that asks for ports or hosts. */
  method EvalFlows(fm: map<string, Value>, flows: seq<FlowObs>, st: LimitState) returns (res: Result<Verdict, EvalError>)
    requires st.Valid() && !HasAnyFlow(fm)
    modifies st
    ensures LeafConforms(res, RunFlow(fm, flows), st.limits, old(st.Snapshot()), st.Snapshot())
    ensures res.Ok? ==> st.Valid()
    ensures st.rulesDone == old(st.rulesDone)
  {
    ghost var scans := FlowScans(fm, flows);
    ghost var c := st.Snapshot();
    ghost var spent: nat := 0;
    assert scans[0..] == scans;
    for i := 0 to |flows|
      invariant LeafLoop(scans, i, spent, st.limits, c, st.Snapshot())
      invariant st.Valid() && st.rulesDone == old(st.rulesDone)
    {
      ghost var c' := st.Snapshot();
      var ok := MatchFlow(fm, flows[i], st);
      LeafStep(scans, i, spent, st.limits, c, c', ok, st.Snapshot());
      if ok.Err? {
        return Err(ok.error);
      }
      if ok.value {
        return Ok(Verdict(true, FlowHint(flows[i])));
      }
      spent := spent + scans[i].strings;
    }
    res := Ok(Verdict(false, NO_HINT));
  }

  // ---- clauses -------------------------------------------------------------------

  method EvalClause(clause: Value, b: Batch, order: seq<string>, st: LimitState, depth: U64)
    returns (res: Result<Verdict, EvalError>)
    requires st.Valid() && Visits(order, b)
    modifies st
    ensures Conforms(res, RunClause(clause, b, order), st.limits, st.clock, old(st.Snapshot()), st.Snapshot(), depth)
    ensures res.Ok? ==> st.Valid()
    ensures st.rulesDone == old(st.rulesDone)
    decreases clause, 2
  {
    ghost var c := st.Snapshot();
    ghost var inner := RunInside(clause, b, order);
    var ok := st.BumpClause();
    if !ok {
      EntryBlamed(ClauseBudget, inner, st.limits, st.clock, c, st.Snapshot(), depth);
      return Err(ClauseBudget);
    }
    ok := st.TickTime();
    if !ok {
      EntryBlamed(WallTime, inner, st.limits, st.clock, c, st.Snapshot(), depth);
      return Err(WallTime);
    }
    if depth > st.limits.maxDepth {
      EntryBlamed(DepthBudget, inner, st.limits, st.clock, c, st.Snapshot(), depth);
      return Err(DepthBudget);
    }
    res := EvalInside(clause, b, order, st, depth);
    EnteredConforms(res, inner, st.limits, st.clock, c, st.Snapshot(), depth);
  }

  /** The dispatch on the clause's keys, after the entry checks. */
  method EvalInside(clause: Value, b: Batch, order: seq<string>, st: LimitState, depth: U64)
    returns (res: Result<Verdict, EvalError>)
    requires st.Valid() && Visits(order, b)
    modifies st
    ensures Conforms(res, RunInside(clause, b, order), st.limits, st.clock,
                     old(st.Snapshot()), st.Snapshot(), SatAdd(depth, 1))
    ensures res.Ok? ==> st.Valid()
    ensures st.rulesDone == old(st.rulesDone)
    decreases clause, 1
  {
    var shape := ShapeOf(clause);
    match shape {
      case AllOf(of) =>
        res := EvalAllOf(of, b, order, st, SatAdd(depth, 1));
      case AnyOf(of, minMatch) =>
        res := EvalAnyOf(of, minMatch, b, order, st, SatAdd(depth, 1));
      case _ =>
        res := EvalLeaf(clause, b, order, st, SatAdd(depth, 1));
    }
  }

  /** A clause that is not a group. */
  method EvalLeaf(clause: Value, b: Batch, order: seq<string>, st: LimitState, ghost depth: U64)
    returns (res: Result<Verdict, EvalError>)
    requires st.Valid() && Visits(order, b) && !ShapeOf(clause).AllOf? && !ShapeOf(clause).AnyOf?
    modifies st
    ensures Conforms(res, RunInside(clause, b, order), st.limits, st.clock, old(st.Snapshot()), st.Snapshot(), depth)
    ensures res.Ok? ==> st.Valid()
    ensures st.rulesDone == old(st.rulesDone)
  {
    ghost var c := st.Snapshot();
    var shape := ShapeOf(clause);
    match shape {
      case Process(pm) =>
        res := EvalProcessLeaf(pm, b, order, st);
        LeafRunConforms(res, RunProcess(pm, b, order), st.limits, st.clock, c, st.Snapshot(), depth);
      case Dns(dm) =>
        res := EvalDnsLeaf(dm, b.dns, st);
        LeafRunConforms(res, RunDns(dm, b.dns), st.limits, st.clock, c, st.Snapshot(), depth);
      case Flow(fm) =>
        res := EvalFlowLeaf(fm, b.flows, st);
        LeafRunConforms(res, RunFlow(fm, b.flows), st.limits, st.clock, c, st.Snapshot(), depth);
      case NeverMatches =>
        res := Ok(Verdict(false, NO_HINT));
      case _ =>
        res := Err(BadClause(shape));
    }
  }

  /** After some true children, the next child `r` of an `all_of`. */
  lemma AllStep(done: Run, r: Run, next: Run)
    requires done.fault.None? && done.matched && r.fault.None? && r.matched
    ensures JoinAll(done, JoinAll(r, next)) == JoinAll(Extend(done, r, Merge(done.hint, r.hint)), next)
  {
  }

  /** A false child of an `all_of` ends it without a hint. */
  lemma AllStops(done: Run, r: Run)
    requires r.fault.None? && !r.matched
    ensures JoinAll(done, r.(hint := NO_HINT)) == After(done, r).(matched := false, hint := NO_HINT)
  {
  }

  lemma JoinUnit(done: Run)
    requires done.fault.None? && done.matched
    ensures JoinAll(done, Answer(true, NO_HINT, 0)) == done == JoinAny(done, Answer(true, NO_HINT, 0))
  {
  }

  method EvalAllOf(of: seq<Value>, b: Batch, order: seq<string>, st: LimitState, depth: U64)
    returns (res: Result<Verdict, EvalError>)
    requires st.Valid() && Visits(order, b)
    modifies st
    ensures Conforms(res, RunAll(of, b, order), st.limits, st.clock, old(st.Snapshot()), st.Snapshot(), depth)
    ensures res.Ok? ==> st.Valid()
    ensures st.rulesDone == old(st.rulesDone)
    decreases of, 0
  {
    ghost var c := st.Snapshot();
    ghost var done := Answer(true, NO_HINT, 0);
    NothingCharged(c, done, st.limits, st.clock, depth);
    ghost var whole := RunAll(of, b, order);
    var hint := NO_HINT;
    assert of[0..] == of;
    for i := 0 to |of|
      invariant done.fault.None? && done.matched && done.hint == hint
      invariant whole == JoinAll(done, RunAll(of[i..], b, order))
      invariant Fits(done, st.limits, st.clock, c, depth) && st.Snapshot() == Advance(c, done)
      invariant st.Valid() && st.rulesDone == old(st.rulesDone)
    {
      assert of[i..][0] == of[i] && of[i..][1..] == of[i + 1..];
      ghost var r, rest := RunClause(of[i], b, order), RunAll(of[i..], b, order);
      ghost var next := RunAll(of[i + 1..], b, order);
      assert rest == if r.fault.Some? || !r.matched then r.(hint := NO_HINT) else JoinAll(r, next);
      ghost var c' := st.Snapshot();
      var v := EvalClause(of[i], b, order, st, depth);
      if v.Err? {
        ChildFails(v, done, r, rest, whole, st.limits, st.clock, c, c', st.Snapshot(), depth);
        return v;
      }
      ChildSucceeds(v, done, r, Merge(hint, v.value.hint), st.limits, st.clock, c, c', st.Snapshot(), depth);
      if !v.value.matched {
        AllStops(done, r);
        return Ok(Verdict(false, NO_HINT));
      }
      AllStep(done, r, next);
      hint := Merge(hint, v.value.hint);
      done := Extend(done, r, hint);
    }
    JoinUnit(done);
    assert whole == done;
    res := Ok(Verdict(true, hint));
  }

  lemma AnyStep(done: Run, r: Run, next: Run)
    requires done.fault.None? && done.matched && r.fault.None?
    ensures var hint := if r.matched then Merge(done.hint, r.hint) else done.hint;
            JoinAny(done, JoinAny(r, next)) == JoinAny(Extend(done, r, hint), next)
  {
  }

  method EvalAnyOf(of: seq<Value>, minMatch: nat, b: Batch, order: seq<string>, st: LimitState, depth: U64)
    returns (res: Result<Verdict, EvalError>)
    requires st.Valid() && Visits(order, b)
    modifies st
    ensures Conforms(res, AtLeast(minMatch, RunAny(of, b, order)), st.limits, st.clock,
                     old(st.Snapshot()), st.Snapshot(), depth)
    ensures res.Ok? ==> st.Valid()
    ensures st.rulesDone == old(st.rulesDone)
    decreases of, 0
  {
    ghost var c := st.Snapshot();
    ghost var done := Answer(true, NO_HINT, 0);
    NothingCharged(c, done, st.limits, st.clock, depth);
    ghost var whole := RunAny(of, b, order);
    var hint := NO_HINT;
    var n := 0;
    assert of[0..] == of;
    for i := 0 to |of|
      invariant done.fault.None? && done.matched && done.hint == hint
      invariant whole.0 == JoinAny(done, RunAny(of[i..], b, order).0)
      invariant whole.0.fault.None? ==> whole.1 == n + RunAny(of[i..], b, order).1
      invariant Fits(done, st.limits, st.clock, c, depth) && st.Snapshot() == Advance(c, done)
      invariant st.Valid() && st.rulesDone == old(st.rulesDone)
    {
      assert of[i..][0] == of[i] && of[i..][1..] == of[i + 1..];
      ghost var r, rest := RunClause(of[i], b, order), RunAny(of[i..], b, order).0;
      ghost var next := RunAny(of[i + 1..], b, order).0;
      assert rest == if r.fault.Some? then r.(hint := NO_HINT) else JoinAny(r, next);
      ghost var c' := st.Snapshot();
      var v := EvalClause(of[i], b, order, st, depth);
      if v.Err? {
        ChildFails(v, done, r, rest, AtLeast(minMatch, whole), st.limits, st.clock, c, c', st.Snapshot(), depth);
        return v;
      }
      if v.value.matched {
        n := n + 1;
        hint := Merge(hint, v.value.hint);
      }
      ChildSucceeds(v, done, r, hint, st.limits, st.clock, c, c', st.Snapshot(), depth);
      AnyStep(done, r, next);
      done := Extend(done, r, hint);
    }
    JoinUnit(done);
    assert of[|of|..] == [];
    assert RunAny([], b, order) == (Answer(true, NO_HINT, 0), 0);
    assert whole.0 == done && whole.1 == n;
    GroupAnswers(done, n >= minMatch, st.limits, st.clock, c, st.Snapshot(), depth);
    res := Ok(Verdict(n >= minMatch, hint));
  }
}
