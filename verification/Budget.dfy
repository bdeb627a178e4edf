/**
 The hourly cost budget and per-minute rate limit: a manager changed in place,
 the pure ledger it implements, and what holds over whole runs of requests, price
 changes and cleanups.
 */
module Budget {
  import opened Prelude
  import opened ColonKeys
  import opened Decimal
  import opened Timestamp
  import opened Windows

  datatype TokenCost = TokenCost(inputTokens: real, outputTokens: real)

  datatype Config = Config(maxCostPerHour: real, rateLimitRPM: int)

  datatype Decision = Accepted | BudgetExceeded | RateLimitExceeded

  /** Prices, cost per hour label, requests per minute label. */
  datatype Ledger = Ledger(prices: map<string, TokenCost>, hourly: map<string, real>, counts: map<string, int>)

  /** The labels a locked method reads off the clock: current windows and cleanup cut-offs. */
  datatype Stamp = Stamp(hour: string, minute: string, cutoffHour: string, cutoffMinute: string)

  datatype Op =
    | Request(provider: string, model: string, input: int, output: int)
    | SetPrice(provider: string, model: string, cost: TokenCost)
    | Cleanup

  datatype Call = Call(now: Stamp, op: Op)

  // ---- the ledger --------------------------------------------------------------------

  function Key(provider: string, model: string): string {
    Joined(provider, model)
  }

  /** Price per thousand tokens, with a fixed default for unknown models. */
  function EstimateCost(prices: map<string, TokenCost>, provider: string, model: string, input: int, output: int): real {
    var key := Key(provider, model);
    var cost := if key in prices then prices[key] else TokenCost(0.01, 0.02);
    (input as real / 1000.0) * cost.inputTokens + (output as real / 1000.0) * cost.outputTokens
  }

  function HourCost(l: Ledger, hour: string): real {
    if hour in l.hourly then l.hourly[hour] else 0.0
  }

  function MinuteCount(l: Ledger, minute: string): int {
    if minute in l.counts then l.counts[minute] else 0
  }

  /** The verdict on a request of the given cost: rate first, then budget; a free request passes the budget. */
  function Decide(cfg: Config, l: Ledger, now: Stamp, cost: real): Decision {
    if MinuteCount(l, now.minute) >= cfg.rateLimitRPM then RateLimitExceeded
    else if cost != 0.0 && HourCost(l, now.hour) + cost > cfg.maxCostPerHour then BudgetExceeded
    else Accepted
  }

  /** Only positive costs are added to the hour. */
  function Record(l: Ledger, now: Stamp, cost: real): Ledger {
    l.(counts := l.counts[now.minute := MinuteCount(l, now.minute) + 1],
       hourly := if cost > 0.0 then l.hourly[now.hour := HourCost(l, now.hour) + cost] else l.hourly)
  }

  function Prune<T>(m: map<string, T>, cutoff: string): map<string, T> {
    map k | k in m && !Less(k, cutoff) :: m[k]
  }

  function CallCost(l: Ledger, op: Op): real
    requires op.Request?
  {
    EstimateCost(l.prices, op.provider, op.model, op.input, op.output)
  }

  function Step(cfg: Config, l: Ledger, call: Call): Ledger {
    match call.op
    case Request(_, _, _, _) =>
      var cost := CallCost(l, call.op);
      if Decide(cfg, l, call.now, cost) == Accepted then Record(l, call.now, cost) else l
    case SetPrice(provider, model, cost) => l.(prices := l.prices[Key(provider, model) := cost])
    case Cleanup => l.(hourly := Prune(l.hourly, call.now.cutoffHour), counts := Prune(l.counts, call.now.cutoffMinute))
  }

  // ---- the manager -------------------------------------------------------------------

  class BudgetManager {
    const maxCostPerHour: real
    const rateLimitRPM: int
    var tokenCosts: map<string, TokenCost>
    var hourlyCosts: map<string, real>
    var requestCounts: map<string, int>
    var currentHour: string
    var currentMinute: string

    function Settings(): Config {
      Config(maxCostPerHour, rateLimitRPM)
    }

    function Contents(): Ledger
      reads this
    {
      Ledger(tokenCosts, hourlyCosts, requestCounts)
    }

    constructor (maxCost: real, rpm: int, prices: map<string, TokenCost>, now: Stamp)
      ensures Settings() == Config(maxCost, rpm) && Contents() == Ledger(prices, map[], map[])
    {
      maxCostPerHour, rateLimitRPM := maxCost, rpm;
      tokenCosts, hourlyCosts, requestCounts := prices, map[], map[];
      currentHour, currentMinute := now.hour, now.minute;
    }

    method UpdateTimeWindows(now: Stamp)
      modifies this`currentHour, this`currentMinute
      ensures currentHour == now.hour && currentMinute == now.minute
    {
      currentHour := now.hour;
      currentMinute := now.minute;
    }

    method CheckRateLimit() returns (ok: bool)
      ensures ok <==> MinuteCount(Contents(), currentMinute) < rateLimitRPM
    {
      var requests := if currentMinute in requestCounts then requestCounts[currentMinute] else 0;
      ok := !(requests >= rateLimitRPM);
    }

    method CheckCostBudget(provider: string, model: string, input: int, output: int) returns (ok: bool)
      ensures var cost := EstimateCost(tokenCosts, provider, model, input, output);
              ok <==> cost == 0.0 || HourCost(Contents(), currentHour) + cost <= maxCostPerHour
    {
      var cost := EstimateCost(tokenCosts, provider, model, input, output);
      if cost == 0.0 {
        return true;
      }
      var current := if currentHour in hourlyCosts then hourlyCosts[currentHour] else 0.0;
      ok := !(current + cost > maxCostPerHour);
    }

    method RecordRequest(provider: string, model: string, input: int, output: int)
      modifies this`requestCounts, this`hourlyCosts
      ensures Contents() == Record(old(Contents()), Stamp(currentHour, currentMinute, "", ""),
                                   EstimateCost(tokenCosts, provider, model, input, output))
    {
      requestCounts := requestCounts[currentMinute := (if currentMinute in requestCounts then requestCounts[currentMinute] else 0) + 1];
      var cost := EstimateCost(tokenCosts, provider, model, input, output);
      if cost > 0.0 {
        hourlyCosts := hourlyCosts[currentHour := (if currentHour in hourlyCosts then hourlyCosts[currentHour] else 0.0) + cost];
      }
    }

    method CheckBudget(provider: string, model: string, input: int, output: int, now: Stamp) returns (d: Decision)
      modifies this
      ensures var op := Request(provider, model, input, output);
              && d == Decide(Settings(), old(Contents()), now, CallCost(old(Contents()), op))
              && Contents() == Step(Settings(), old(Contents()), Call(now, op))
      ensures d != Accepted ==> Contents() == old(Contents())
    {
      UpdateTimeWindows(now);
      var ok := CheckRateLimit();
      if !ok {
        return RateLimitExceeded;
      }
      ok := CheckCostBudget(provider, model, input, output);
      if !ok {
        return BudgetExceeded;
      }
      RecordRequest(provider, model, input, output);
      d := Accepted;
    }

    /** Removes every window label before its cut-off, one key at a time. */
    method RunCleanup(now: Stamp)
      modifies this`hourlyCosts, this`requestCounts
      ensures Contents() == Step(Settings(), old(Contents()), Call(now, Cleanup))
    {
      var hours := hourlyCosts.Keys;
      while hours != {}
        invariant hours <= old(hourlyCosts).Keys
        invariant forall k :: k in hourlyCosts <==> k in old(hourlyCosts) && (k in hours || !Less(k, now.cutoffHour))
        invariant forall k :: k in hourlyCosts ==> hourlyCosts[k] == old(hourlyCosts)[k]
        invariant requestCounts == old(requestCounts)
        decreases hours
      {
        var hour :| hour in hours;
        if Less(hour, now.cutoffHour) {
          hourlyCosts := hourlyCosts - {hour};
        }
        hours := hours - {hour};
      }
      assert hourlyCosts == Prune(old(hourlyCosts), now.cutoffHour);
      var minutes := requestCounts.Keys;
      while minutes != {}
        invariant minutes <= old(requestCounts).Keys
        invariant forall k :: k in requestCounts <==> k in old(requestCounts) && (k in minutes || !Less(k, now.cutoffMinute))
        invariant forall k :: k in requestCounts ==> requestCounts[k] == old(requestCounts)[k]
        invariant hourlyCosts == Prune(old(hourlyCosts), now.cutoffHour)
        decreases minutes
      {
        var minute :| minute in minutes;
        if Less(minute, now.cutoffMinute) {
          requestCounts := requestCounts - {minute};
        }
        minutes := minutes - {minute};
      }
      assert requestCounts == Prune(old(requestCounts), now.cutoffMinute);
    }

    method SetTokenCost(provider: string, model: string, cost: TokenCost, ghost now: Stamp)
      modifies this`tokenCosts
      ensures Contents() == Step(Settings(), old(Contents()), Call(now, SetPrice(provider, model, cost)))
    {
      tokenCosts := tokenCosts[Key(provider, model) := cost];
    }
  }

  // ---- runs --------------------------------------------------------------------------

  /** Window labels never go back, and a cut-off never lies after the current window. */
  ghost predicate WellTimed(calls: seq<Call>, hour: string, minute: string) {
    calls == [] ||
    (var now := calls[0].now;
     && !Less(now.hour, hour) && !Less(now.minute, minute)
     && !Less(now.hour, now.cutoffHour) && !Less(now.minute, now.cutoffMinute)
     && WellTimed(calls[1..], now.hour, now.minute))
  }

  function Run(cfg: Config, l: Ledger, calls: seq<Call>): Ledger
    decreases |calls|
  {
    if calls == [] then l else Run(cfg, Step(cfg, l, calls[0]), calls[1..])
  }

  /** The verdicts on the requests of a run, in order. */
  function Decisions(cfg: Config, l: Ledger, calls: seq<Call>): seq<Decision>
    decreases |calls|
  {
    if calls == [] then []
    else
      (if calls[0].op.Request? then [Decide(cfg, l, calls[0].now, CallCost(l, calls[0].op))] else [])
      + Decisions(cfg, Step(cfg, l, calls[0]), calls[1..])
  }

  function WithoutCleanups(calls: seq<Call>): seq<Call> {
    if calls == [] then []
    else (if calls[0].op.Cleanup? then [] else [calls[0]]) + WithoutCleanups(calls[1..])
  }

  /** Two ledgers that differ at most in windows that have passed. */
  ghost predicate SameAhead(l: Ledger, l': Ledger, hour: string, minute: string) {
    && l.prices == l'.prices
    && (forall h :: !Less(h, hour) ==> HourCost(l, h) == HourCost(l', h))
    && (forall m :: !Less(m, minute) ==> MinuteCount(l, m) == MinuteCount(l', m))
  }

  /** Time moving on keeps ledgers the same ahead. */
  lemma SameFurtherAhead(l: Ledger, l': Ledger, hour: string, minute: string, hour': string, minute': string)
    requires SameAhead(l, l', hour, minute) && !Less(hour', hour) && !Less(minute', minute)
    ensures SameAhead(l, l', hour', minute')
  {
    forall h | !Less(h, hour') ensures HourCost(l, h) == HourCost(l', h) {
      NotLessThanEarlier(h, hour', hour);
    }
    forall m | !Less(m, minute') ensures MinuteCount(l, m) == MinuteCount(l', m) {
      NotLessThanEarlier(m, minute', minute);
    }
  }

  /** Cleaning up changes nothing ahead of the current windows. */
  lemma CleanupLeavesAhead(cfg: Config, l: Ledger, now: Stamp)
    requires !Less(now.hour, now.cutoffHour) && !Less(now.minute, now.cutoffMinute)
    ensures SameAhead(Step(cfg, l, Call(now, Cleanup)), l, now.hour, now.minute)
  {
    forall h | !Less(h, now.hour) ensures !Less(h, now.cutoffHour) {
      NotLessThanEarlier(h, now.hour, now.cutoffHour);
    }
    forall m | !Less(m, now.minute) ensures !Less(m, now.cutoffMinute) {
      NotLessThanEarlier(m, now.minute, now.cutoffMinute);
    }
  }

  lemma StepKeepsSame(cfg: Config, l: Ledger, l': Ledger, call: Call)
    requires SameAhead(l, l', call.now.hour, call.now.minute) && !call.op.Cleanup?
    ensures SameAhead(Step(cfg, l, call), Step(cfg, l', call), call.now.hour, call.now.minute)
    ensures call.op.Request? ==>
              Decide(cfg, l, call.now, CallCost(l, call.op)) == Decide(cfg, l', call.now, CallCost(l', call.op))
  {
    NotLessItself(call.now.hour);
    NotLessItself(call.now.minute);
  }

  /**
   Cleanup is invisible: a manager cleaned up at any points of a well-timed run
   gives exactly the verdicts of one that is never cleaned up.
   */
  lemma {:induction false} CleanupIsInvisible(cfg: Config, l: Ledger, l': Ledger, calls: seq<Call>, hour: string, minute: string)
    requires WellTimed(calls, hour, minute) && SameAhead(l, l', hour, minute)
    ensures Decisions(cfg, l, calls) == Decisions(cfg, l', WithoutCleanups(calls))
    decreases |calls|
  {
    if calls != [] {
      var call := calls[0];
      var now := call.now;
      SameFurtherAhead(l, l', hour, minute, now.hour, now.minute);
      if call.op.Cleanup? {
        CleanupLeavesAhead(cfg, l, now);
        CleanupIsInvisible(cfg, Step(cfg, l, call), l', calls[1..], now.hour, now.minute);
        assert WithoutCleanups(calls) == WithoutCleanups(calls[1..]);
      } else {
        StepKeepsSame(cfg, l, l', call);
        CleanupIsInvisible(cfg, Step(cfg, l, call), Step(cfg, l', call), calls[1..], now.hour, now.minute);
        assert WithoutCleanups(calls)[0] == call && WithoutCleanups(calls)[1..] == WithoutCleanups(calls[1..]);
      }
    }
  }

  // ---- safety ------------------------------------------------------------------------

  datatype Charge = Charge(hour: string, minute: string, cost: real)

  /** The accepted requests of a run, with the windows and the cost they were charged under. */
  function Charges(cfg: Config, l: Ledger, calls: seq<Call>): seq<Charge>
    decreases |calls|
  {
    if calls == [] then [] else ChargeOf(cfg, l, calls[0]) + Charges(cfg, Step(cfg, l, calls[0]), calls[1..])
  }

  function ChargeOf(cfg: Config, l: Ledger, call: Call): seq<Charge> {
    if call.op.Request? && Decide(cfg, l, call.now, CallCost(l, call.op)) == Accepted
    then [Charge(call.now.hour, call.now.minute, CallCost(l, call.op))]
    else []
  }

  /** Total of the positive costs charged under an hour label. */
  function SpentIn(charges: seq<Charge>, hour: string): real {
    if charges == [] then 0.0
    else
      var last := charges[|charges| - 1];
      SpentIn(charges[..|charges| - 1], hour) + if last.hour == hour && last.cost > 0.0 then last.cost else 0.0
  }

  /** Number of requests charged under a minute label. */
  function CountIn(charges: seq<Charge>, minute: string): nat {
    if charges == [] then 0
    else CountIn(charges[..|charges| - 1], minute) + if charges[|charges| - 1].minute == minute then 1 else 0
  }

  /** What the ledger knows of the charges so far: nothing it retains or still needs is wrong. */
  ghost predicate Accounts(cfg: Config, l: Ledger, past: seq<Charge>, hour: string, minute: string) {
    && Safe(cfg, l, past)
    && (forall h :: !Less(h, hour) ==> HourCost(l, h) == SpentIn(past, h))
    && (forall m :: !Less(m, minute) ==> MinuteCount(l, m) == CountIn(past, m))
  }

  /** Both limits hold under every label, and every retained counter equals its history. */
  ghost predicate Safe(cfg: Config, l: Ledger, past: seq<Charge>) {
    && (forall h :: SpentIn(past, h) <= cfg.maxCostPerHour)
    && (forall h :: h in l.hourly ==> l.hourly[h] == SpentIn(past, h))
    && (forall m :: CountIn(past, m) <= 0 || CountIn(past, m) <= cfg.rateLimitRPM)
    && (forall m :: m in l.counts ==> l.counts[m] == CountIn(past, m))
  }

  lemma AccountsLater(cfg: Config, l: Ledger, past: seq<Charge>, hour: string, minute: string, hour': string, minute': string)
    requires Accounts(cfg, l, past, hour, minute) && !Less(hour', hour) && !Less(minute', minute)
    ensures Accounts(cfg, l, past, hour', minute')
  {
    forall h | !Less(h, hour') ensures HourCost(l, h) == SpentIn(past, h) {
      NotLessThanEarlier(h, hour', hour);
    }
    forall m | !Less(m, minute') ensures MinuteCount(l, m) == CountIn(past, m) {
      NotLessThanEarlier(m, minute', minute);
    }
  }

  lemma AcceptKeepsHours(cfg: Config, l: Ledger, past: seq<Charge>, now: Stamp, cost: real)
    requires Accounts(cfg, l, past, now.hour, now.minute) && Decide(cfg, l, now, cost) == Accepted
    ensures var all, l' := past + [Charge(now.hour, now.minute, cost)], Record(l, now, cost);
            forall h :: && SpentIn(all, h) <= cfg.maxCostPerHour
                        && (h in l'.hourly ==> l'.hourly[h] == SpentIn(all, h))
                        && (!Less(h, now.hour) ==> HourCost(l', h) == SpentIn(all, h))
  {
    var all := past + [Charge(now.hour, now.minute, cost)];
    assert all[..|past|] == past;
    NotLessItself(now.hour);
    assert HourCost(l, now.hour) == SpentIn(past, now.hour);
  }

  lemma AcceptKeepsMinutes(cfg: Config, l: Ledger, past: seq<Charge>, now: Stamp, cost: real)
    requires Accounts(cfg, l, past, now.hour, now.minute) && Decide(cfg, l, now, cost) == Accepted
    ensures var all, l' := past + [Charge(now.hour, now.minute, cost)], Record(l, now, cost);
            forall m :: && (CountIn(all, m) <= 0 || CountIn(all, m) <= cfg.rateLimitRPM)
                        && (m in l'.counts ==> l'.counts[m] == CountIn(all, m))
                        && (!Less(m, now.minute) ==> MinuteCount(l', m) == CountIn(all, m))
  {
    var all := past + [Charge(now.hour, now.minute, cost)];
    assert all[..|past|] == past;
    NotLessItself(now.minute);
    assert MinuteCount(l, now.minute) == CountIn(past, now.minute);
  }

  lemma AcceptKeepsAccounts(cfg: Config, l: Ledger, past: seq<Charge>, now: Stamp, cost: real)
    requires Accounts(cfg, l, past, now.hour, now.minute) && Decide(cfg, l, now, cost) == Accepted
    ensures Accounts(cfg, Record(l, now, cost), past + [Charge(now.hour, now.minute, cost)], now.hour, now.minute)
  {
    AcceptKeepsHours(cfg, l, past, now, cost);
    AcceptKeepsMinutes(cfg, l, past, now, cost);
  }

  lemma StepKeepsAccounts(cfg: Config, l: Ledger, past: seq<Charge>, call: Call)
    requires Accounts(cfg, l, past, call.now.hour, call.now.minute)
    requires !Less(call.now.hour, call.now.cutoffHour) && !Less(call.now.minute, call.now.cutoffMinute)
    ensures Accounts(cfg, Step(cfg, l, call), past + ChargeOf(cfg, l, call), call.now.hour, call.now.minute)
  {
    if ChargeOf(cfg, l, call) != [] {
      AcceptKeepsAccounts(cfg, l, past, call.now, CallCost(l, call.op));
    } else {
      assert past + [] == past;
      if call.op.Cleanup? {
        CleanupLeavesAhead(cfg, l, call.now);
      }
    }
  }

  /**
   Safety over whole runs: under every hour label the positive costs accepted add
   up to at most the maximum, under every minute label at most the RPM limit is
   accepted, and every counter still retained equals its history.
   */
  lemma {:induction false} BudgetIsSafe(cfg: Config, l: Ledger, past: seq<Charge>, calls: seq<Call>, hour: string, minute: string)
    requires Accounts(cfg, l, past, hour, minute) && WellTimed(calls, hour, minute)
    ensures Safe(cfg, Run(cfg, l, calls), past + Charges(cfg, l, calls))
    decreases |calls|
  {
    if calls == [] {
      assert past + [] == past;
    } else {
      var call := calls[0];
      var now := call.now;
      AccountsLater(cfg, l, past, hour, minute, now.hour, now.minute);
      StepKeepsAccounts(cfg, l, past, call);
      var next, charge := Step(cfg, l, call), ChargeOf(cfg, l, call);
      BudgetIsSafe(cfg, next, past + charge, calls[1..], now.hour, now.minute);
      ConcatAssociates(past, charge, Charges(cfg, next, calls[1..]));
      assert Run(cfg, l, calls) == Run(cfg, next, calls[1..]);
    }
  }

  /** A new manager with a nonnegative maximum starts out accounted for. */
  lemma FreshManagerAccounts(cfg: Config, prices: map<string, TokenCost>, hour: string, minute: string)
    requires cfg.maxCostPerHour >= 0.0
    ensures Accounts(cfg, Ledger(prices, map[], map[]), [], hour, minute)
  {
  }

  // ---- the clock ---------------------------------------------------------------------

  /** Times for which the current labels and both cut-offs print in four-digit years. */
  predicate Printable(t: int) {
    FourDigitYear(t) && FourDigitYear(t - 86_400) && FourDigitYear(t - 3_600)
  }

  /** What a locked method reads when local time is the second `t`. */
  function StampAt(t: int): Stamp
    requires Printable(t)
  {
    Stamp(HourLabel(t), MinuteLabel(t), HourLabel(t - 86_400), MinuteLabel(t - 3_600))
  }

  /** A clock reading that never goes back from `start`, in printable years throughout. */
  predicate ClockRun(start: int, times: seq<int>)
    decreases |times|
  {
    Printable(start) && (times == [] || (start <= times[0] && ClockRun(times[0], times[1..])))
  }

  function CallsAt(start: int, times: seq<int>, ops: seq<Op>): seq<Call>
    requires |times| == |ops| && ClockRun(start, times)
    decreases |times|
  {
    if times == [] then []
    else
      assert ClockRun(times[0], times[1..]);
      [Call(StampAt(times[0]), ops[0])] + CallsAt(times[0], times[1..], ops[1..])
  }

  lemma LabelsNeverGoBack(a: int, b: int)
    requires Printable(a) && Printable(b) && a <= b
    ensures !Less(StampAt(b).hour, StampAt(a).hour) && !Less(StampAt(b).minute, StampAt(a).minute)
    ensures !Less(StampAt(b).hour, StampAt(b).cutoffHour) && !Less(StampAt(b).minute, StampAt(b).cutoffMinute)
  {
    HourLabelsSort(b, a);
    MinuteLabelsSort(b, a);
    HourLabelsSort(b, b - 86_400);
    MinuteLabelsSort(b, b - 3_600);
  }

  /** A clock that never goes back gives a well-timed run. */
  lemma {:induction false} ClockGivesWellTimed(start: int, times: seq<int>, ops: seq<Op>)
    requires |times| == |ops| && ClockRun(start, times)
    ensures WellTimed(CallsAt(start, times, ops), StampAt(start).hour, StampAt(start).minute)
    decreases |times|
  {
    if times != [] {
      LabelsNeverGoBack(start, times[0]);
      ClockGivesWellTimed(times[0], times[1..], ops[1..]);
      var calls := CallsAt(start, times, ops);
      assert calls[0].now == StampAt(times[0]) && calls[1..] == CallsAt(times[0], times[1..], ops[1..]);
    }
  }
}
