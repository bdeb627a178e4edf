/** What a request costs and how it is judged, told from the calls made before it. */
module BudgetHistory {
  import opened Prelude
  import opened ColonKeys
  import opened Decimal
  import opened Budget
  import opened Calendar
  import opened Timestamp
  import opened Windows

  // ---- prices ------------------------------------------------------------------------------------

  /** Two provider and model pairs share a price exactly when they share a key. */
  ghost predicate SharesPrice(p: string, m: string, p': string, m': string) {
    (p == p' && m == m') || Shifted(p, m, p', m') || Shifted(p', m', p, m)
  }

  ghost predicate Sets(op: Op, p: string, m: string) {
    op.SetPrice? && SharesPrice(op.provider, op.model, p, m)
  }

  /** Call `i` is the last that sets the pair's price. */
  ghost predicate LastSetting(calls: seq<Call>, p: string, m: string, i: int) {
    0 <= i < |calls| && Sets(calls[i].op, p, m) && forall k :: i < k < |calls| ==> !Sets(calls[k].op, p, m)
  }

  ghost predicate NeverSet(calls: seq<Call>, p: string, m: string) {
    forall k :: 0 <= k < |calls| ==> !Sets(calls[k].op, p, m)
  }

  lemma StepPrice(cfg: Config, l: Ledger, call: Call, p: string, m: string)
    ensures var prices := Step(cfg, l, call).prices;
            if Sets(call.op, p, m) then Key(p, m) in prices && prices[Key(p, m)] == call.op.cost
            else (Key(p, m) in prices <==> Key(p, m) in l.prices) && (Key(p, m) in prices ==> prices[Key(p, m)] == l.prices[Key(p, m)])
  {
    if call.op.SetPrice? {
      SharedKeyIff(call.op.provider, call.op.model, p, m);
    }
  }

  lemma {:induction false} PriceUntouched(cfg: Config, l: Ledger, calls: seq<Call>, p: string, m: string)
    requires NeverSet(calls, p, m)
    ensures var prices := Run(cfg, l, calls).prices;
            (Key(p, m) in prices <==> Key(p, m) in l.prices) && (Key(p, m) in prices ==> prices[Key(p, m)] == l.prices[Key(p, m)])
    decreases |calls|
  {
    if calls != [] {
      StepPrice(cfg, l, calls[0], p, m);
      assert !Sets(calls[0].op, p, m);
      assert forall k :: 0 <= k < |calls[1..]| ==> calls[1..][k] == calls[k + 1];
      PriceUntouched(cfg, Step(cfg, l, calls[0]), calls[1..], p, m);
    }
  }

  lemma {:induction false} PriceLastSet(cfg: Config, l: Ledger, calls: seq<Call>, p: string, m: string, i: int)
    requires LastSetting(calls, p, m, i)
    ensures var prices := Run(cfg, l, calls).prices; Key(p, m) in prices && prices[Key(p, m)] == calls[i].op.cost
    decreases |calls|
  {
    assert forall k :: 0 <= k < |calls[1..]| ==> calls[1..][k] == calls[k + 1];
    StepPrice(cfg, l, calls[0], p, m);
    if i == 0 {
      PriceUntouched(cfg, Step(cfg, l, calls[0]), calls[1..], p, m);
    } else {
      PriceLastSet(cfg, Step(cfg, l, calls[0]), calls[1..], p, m, i - 1);
    }
  }

  /** Tokens are charged separately, and each kind in proportion. */
  lemma CostAdds(prices: map<string, TokenCost>, p: string, m: string, a: int, b: int, c: int, d: int)
    ensures EstimateCost(prices, p, m, a + c, b + d) == EstimateCost(prices, p, m, a, b) + EstimateCost(prices, p, m, c, d)
  {
    var cost := if Key(p, m) in prices then prices[Key(p, m)] else TokenCost(0.01, 0.02);
    var x, y, u, v := a as real / 1000.0, c as real / 1000.0, b as real / 1000.0, d as real / 1000.0;
    assert (a + c) as real / 1000.0 == x + y && (b + d) as real / 1000.0 == u + v;
    Distribute(x, y, cost.inputTokens);
    Distribute(u, v, cost.outputTokens);
  }

  lemma Distribute(x: real, y: real, z: real)
    ensures (x + y) * z == x * z + y * z
  {
  }

  lemma UnitCosts(prices: map<string, TokenCost>, p: string, m: string)
    ensures var price := if Key(p, m) in prices then prices[Key(p, m)] else TokenCost(0.01, 0.02);
            EstimateCost(prices, p, m, 1000, 0) == price.inputTokens && EstimateCost(prices, p, m, 0, 1000) == price.outputTokens
  {
  }

  /** A thousand input tokens cost the input price last set for the pair, a thousand output tokens the output price. */
  lemma CostIsLastSet(cfg: Config, l: Ledger, calls: seq<Call>, p: string, m: string, i: int)
    requires LastSetting(calls, p, m, i)
    ensures var prices := Run(cfg, l, calls).prices;
            && EstimateCost(prices, p, m, 1000, 0) == calls[i].op.cost.inputTokens
            && EstimateCost(prices, p, m, 0, 1000) == calls[i].op.cost.outputTokens
  {
    PriceLastSet(cfg, l, calls, p, m, i);
    UnitCosts(Run(cfg, l, calls).prices, p, m);
  }

  /** A pair that never had a price costs 0.01 and 0.02 per thousand tokens. */
  lemma UnknownCostsDefault(cfg: Config, l: Ledger, calls: seq<Call>, p: string, m: string)
    requires NeverSet(calls, p, m) && Key(p, m) !in l.prices
    ensures var prices := Run(cfg, l, calls).prices;
            EstimateCost(prices, p, m, 1000, 0) == 0.01 && EstimateCost(prices, p, m, 0, 1000) == 0.02
  {
    PriceUntouched(cfg, l, calls, p, m);
    UnitCosts(Run(cfg, l, calls).prices, p, m);
  }

  function Priced(prices: map<string, TokenCost>, p: string, m: string, c: TokenCost): map<string, TokenCost> {
    prices[Key(p, m) := c]
  }

  ghost predicate SameCosts(a: map<string, TokenCost>, b: map<string, TokenCost>, p: string, m: string) {
    forall input, output :: EstimateCost(a, p, m, input, output) == EstimateCost(b, p, m, input, output)
  }

  /** Setting a price leaves what another pair pays alone, whatever the price, exactly when they share none. */
  lemma SettingTouchesIff(prices: map<string, TokenCost>, p: string, m: string, p': string, m': string)
    ensures (forall c :: SameCosts(Priced(prices, p, m, c), prices, p', m')) <==> !SharesPrice(p, m, p', m')
  {
    SharedKeyIff(p, m, p', m');
    if SharesPrice(p, m, p', m') {
      var c := TokenCost(EstimateCost(prices, p', m', 1000, 0) + 1.0, 0.0);
      UnitCosts(Priced(prices, p, m, c), p', m');
      assert EstimateCost(Priced(prices, p, m, c), p', m', 1000, 0) != EstimateCost(prices, p', m', 1000, 0);
      assert !SameCosts(Priced(prices, p, m, c), prices, p', m');
    }
  }

  /** What a request costs, and what an accepted one is charged, by the price last set for its pair. */
  lemma ChargeIsLastSet(cfg: Config, l: Ledger, calls: seq<Call>, i: int, call: Call)
    requires call.op.Request? && LastSetting(calls, call.op.provider, call.op.model, i)
    ensures var cost, price := CallCost(Run(cfg, l, calls), call.op), calls[i].op.cost;
            1000.0 * cost == call.op.input as real * price.inputTokens + call.op.output as real * price.outputTokens
    ensures var charges := ChargeOf(cfg, Run(cfg, l, calls), call);
            charges == [] || charges == [Charge(call.now.hour, call.now.minute, CallCost(Run(cfg, l, calls), call.op))]
  {
    PriceLastSet(cfg, l, calls, call.op.provider, call.op.model, i);
    var price := calls[i].op.cost;
    Thousandth(call.op.input as real, price.inputTokens);
    Thousandth(call.op.output as real, price.outputTokens);
  }

  lemma Thousandth(n: real, price: real)
    ensures 1000.0 * ((n / 1000.0) * price) == n * price
  {
    var x := n / 1000.0;
    assert 1000.0 * x == n;
    assert 1000.0 * (x * price) == (1000.0 * x) * price;
  }

  // ---- verdicts ------------------------------------------------------------------------------------

  /** The verdict on a request, from the charges accepted before it. */
  function Judge(cfg: Config, past: seq<Charge>, hour: string, minute: string, cost: real): Decision {
    if CountIn(past, minute) >= cfg.rateLimitRPM then RateLimitExceeded
    else if cost == 0.0 || SpentIn(past, hour) + cost <= cfg.maxCostPerHour then Accepted
    else BudgetExceeded
  }

  lemma {:induction false} RunKeepsAccounts(cfg: Config, l: Ledger, past: seq<Charge>, calls: seq<Call>, next: Call, hour: string, minute: string)
    requires Accounts(cfg, l, past, hour, minute) && WellTimed(calls + [next], hour, minute)
    ensures Accounts(cfg, Run(cfg, l, calls), past + Charges(cfg, l, calls), next.now.hour, next.now.minute)
    decreases |calls|
  {
    if calls == [] {
      assert calls + [next] == [next] && past + [] == past;
      AccountsLater(cfg, l, past, hour, minute, next.now.hour, next.now.minute);
    } else {
      var call := calls[0];
      var after, charge := Step(cfg, l, call), ChargeOf(cfg, l, call);
      assert (calls + [next])[0] == call && (calls + [next])[1..] == calls[1..] + [next];
      AccountsLater(cfg, l, past, hour, minute, call.now.hour, call.now.minute);
      StepKeepsAccounts(cfg, l, past, call);
      RunKeepsAccounts(cfg, after, past + charge, calls[1..], next, call.now.hour, call.now.minute);
      ConcatAssociates(past, charge, Charges(cfg, after, calls[1..]));
    }
  }

  /**
   Over every well-timed run, a request is judged exactly by history: rejected for rate when the accepted
   requests of its minute reach the limit, and else for budget when its cost is nonzero and, on top of the
   positive costs accepted in its hour, exceeds the maximum.
   */
  lemma VerdictByHistory(cfg: Config, l: Ledger, past: seq<Charge>, calls: seq<Call>, next: Call, hour: string, minute: string)
    requires Accounts(cfg, l, past, hour, minute) && WellTimed(calls + [next], hour, minute) && next.op.Request?
    ensures var before, cost := Run(cfg, l, calls), CallCost(Run(cfg, l, calls), next.op);
            Decide(cfg, before, next.now, cost) == Judge(cfg, past + Charges(cfg, l, calls), next.now.hour, next.now.minute, cost)
  {
    RunKeepsAccounts(cfg, l, past, calls, next, hour, minute);
    NotLessItself(next.now.hour);
    NotLessItself(next.now.minute);
  }

  // ---- cleanup -------------------------------------------------------------------------------------

  /** A cleanup at time `t` forgets exactly the hours over 24 hours back and the minutes over 60 minutes back. */
  lemma CleanupKeepsRecent(cfg: Config, l: Ledger, t: int, u: int)
    requires Printable(t) && FourDigitYear(u)
    ensures var after, hour := Step(cfg, l, Call(StampAt(t), Cleanup)), HourLabel(u);
            && (hour in after.hourly <==> hour in l.hourly && u / 3_600 >= t / 3_600 - 24)
            && (hour in after.hourly ==> after.hourly[hour] == l.hourly[hour])
    ensures var after, minute := Step(cfg, l, Call(StampAt(t), Cleanup)), MinuteLabel(u);
            && (minute in after.counts <==> minute in l.counts && u / 60 >= t / 60 - 60)
            && (minute in after.counts ==> after.counts[minute] == l.counts[minute])
    ensures Step(cfg, l, Call(StampAt(t), Cleanup)).prices == l.prices
  {
    HourLabelsSort(u, t - 86_400);
    MinuteLabelsSort(u, t - 3_600);
    DivisionIs(t - 86_400, 3_600, t / 3_600 - 24, t % 3_600);
    DivisionIs(t - 3_600, 60, t / 60 - 60, t % 60);
  }
}
