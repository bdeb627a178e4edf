/**
 The two kernel maps behind both cgroup programs: rule id to configuration and
 cgroup to rule id, kept by the user-space manager and by expiry in the hooks.
 */
module RuleTables {
  import opened Prelude

  const CAPACITY: nat := 1024

  datatype Config<P> = Config(cgroup: U64, ttl: U32, created: U64, payload: P)

  datatype Tables<P> = Tables(configs: map<U32, Config<P>>, cgroups: map<U64, U32>)

  // ---- expiry ------------------------------------------------------------------------------

  /** `is_rule_expired`: unsigned 64-bit difference against the TTL in nanoseconds. */
  predicate Expired<P>(cfg: Config<P>, now: U64) {
    (now - cfg.created) % TWO_64 > cfg.ttl * 1_000_000_000
  }

  /** The wrapping test is exact whenever the rule was created no later than now. */
  lemma ExpiryIsExact<P>(cfg: Config<P>, now: U64)
    ensures cfg.ttl * 1_000_000_000 < TWO_64
    ensures cfg.created <= now ==> (Expired(cfg, now) <==> now > cfg.created + cfg.ttl * 1_000_000_000)
    ensures cfg.created > now ==> (Expired(cfg, now) <==> cfg.created - now < TWO_64 - cfg.ttl * 1_000_000_000)
  {
    if cfg.created > now {
      assert (now - cfg.created) % TWO_64 == now - cfg.created + TWO_64;
    }
  }

  // ---- operations --------------------------------------------------------------------------

  /** A hash map refuses a new key when full. */
  predicate Accepts<K, V>(m: map<K, V>, k: K) {
    k in m || |m| < CAPACITY
  }

  /** Both maps are written; when the second write is refused the first is taken back. */
  function Add<P>(t: Tables<P>, rule: U32, cfg: Config<P>): (Tables<P>, bool) {
    if !Accepts(t.configs, rule) then (t, false)
    else if !Accepts(t.cgroups, cfg.cgroup) then (t.(configs := t.configs - {rule}), false)
    else (Tables(t.configs[rule := cfg], t.cgroups[cfg.cgroup := rule]), true)
  }

  function Remove<P>(t: Tables<P>, rule: U32): (Tables<P>, bool) {
    if rule !in t.configs then (t, false)
    else (Tables(t.configs - {rule}, t.cgroups - {t.configs[rule].cgroup}), true)
  }

  /** The active check removes a rule it finds expired. */
  function CheckActive<P>(t: Tables<P>, rule: U32, now: U64): (Tables<P>, bool) {
    if rule !in t.configs then (t, false)
    else if Expired(t.configs[rule], now) then (Remove(t, rule).0, false)
    else (t, true)
  }

  /** The rule a hook finds for a cgroup, if both maps have it. */
  function RuleFor<P>(t: Tables<P>, cgroup: U64): Option<U32> {
    if cgroup in t.cgroups && t.cgroups[cgroup] in t.configs then Some(t.cgroups[cgroup]) else None
  }

  /** What a hook does to the maps: an expired rule it finds is deleted. */
  function HookExpiry<P>(t: Tables<P>, cgroup: U64, now: U64): Tables<P> {
    var rule := RuleFor(t, cgroup);
    if rule.Some? && Expired(t.configs[rule.value], now)
    then Tables(t.configs - {rule.value}, t.cgroups - {cgroup})
    else t
  }

  /** The unexpired configuration a hook acts on. */
  function InForce<P>(t: Tables<P>, cgroup: U64, now: U64): Option<Config<P>> {
    var rule := RuleFor(t, cgroup);
    if rule.Some? && !Expired(t.configs[rule.value], now) then Some(t.configs[rule.value]) else None
  }

  // ---- the maps are mutually inverse -------------------------------------------------------

  ghost predicate Inverse<P>(t: Tables<P>) {
    && (forall c :: c in t.cgroups ==> t.cgroups[c] in t.configs && t.configs[t.cgroups[c]].cgroup == c)
    && (forall r :: r in t.configs ==> t.configs[r].cgroup in t.cgroups && t.cgroups[t.configs[r].cgroup] == r)
  }

  lemma RemoveKeepsInverse<P>(t: Tables<P>, rule: U32)
    requires Inverse(t)
    ensures Inverse(Remove(t, rule).0)
  {
  }

  lemma HookKeepsInverse<P>(t: Tables<P>, cgroup: U64, now: U64)
    requires Inverse(t)
    ensures Inverse(HookExpiry(t, cgroup, now))
  {
  }

  /** Adding is harmless exactly when neither key belongs to another rule, or the first map refuses the rule. */
  lemma AddKeepsInverseIff<P>(t: Tables<P>, rule: U32, cfg: Config<P>)
    requires Inverse(t)
    ensures Inverse(Add(t, rule, cfg).0) <==>
            (!Accepts(t.configs, rule) ||
             ((rule in t.configs ==> t.configs[rule].cgroup == cfg.cgroup) && (cfg.cgroup in t.cgroups ==> t.cgroups[cfg.cgroup] == rule)))
  {
    var t' := Add(t, rule, cfg).0;
    if Accepts(t.configs, rule) {
      if rule in t.configs && t.configs[rule].cgroup != cfg.cgroup {
        var stale := t.configs[rule].cgroup;
        assert stale in t'.cgroups && t'.cgroups[stale] == rule;
        assert !(rule in t'.configs && t'.configs[rule].cgroup == stale);
      } else if cfg.cgroup in t.cgroups && t.cgroups[cfg.cgroup] != rule {
        var other := t.cgroups[cfg.cgroup];
        assert other in t'.configs && t'.configs[other].cgroup == cfg.cgroup;
      } else {
        SameSize(t);
      }
    }
  }

  /** Mutually inverse maps have the same number of entries. */
  lemma SameSize<P>(t: Tables<P>)
    requires Inverse(t)
    ensures |t.configs| == |t.cgroups|
  {
    InjectedSize(t, t.configs.Keys, t.cgroups.Keys);
  }

  lemma {:induction false} InjectedSize<P>(t: Tables<P>, rules: set<U32>, cgroups: set<U64>)
    requires Inverse(t) && rules <= t.configs.Keys && cgroups <= t.cgroups.Keys
    requires forall r :: r in t.configs ==> (r in rules <==> t.configs[r].cgroup in cgroups)
    ensures |rules| == |cgroups|
    decreases cgroups
  {
    if cgroups == {} {
      assert rules == {};
    } else {
      var c :| c in cgroups;
      InjectedSize(t, rules - {t.cgroups[c]}, cgroups - {c});
    }
  }

  /** With a fresh rule id and a cgroup without a rule, the roll-back is never reached. */
  lemma FreshAddIsAllOrNothing<P>(t: Tables<P>, rule: U32, cfg: Config<P>)
    requires Inverse(t) && rule !in t.configs && cfg.cgroup !in t.cgroups
    ensures var (t', ok) := Add(t, rule, cfg);
            && (ok <==> |t.configs| < 1024)
            && t' == (if ok then Tables(t.configs[rule := cfg], t.cgroups[cfg.cgroup := rule]) else t)
  {
    SameSize(t);
  }

  // ---- runs --------------------------------------------------------------------------------

  datatype Op<P> =
    | AddRule(rule: U32, cfg: Config<P>)
    | RemoveRule(rule: U32)
    | Check(rule: U32, now: U64)
    | Hook(cgroup: U64, now: U64)

  function Do<P>(t: Tables<P>, op: Op<P>): Tables<P> {
    match op
    case AddRule(rule, cfg) => Add(t, rule, cfg).0
    case RemoveRule(rule) => Remove(t, rule).0
    case Check(rule, now) => CheckActive(t, rule, now).0
    case Hook(cgroup, now) => HookExpiry(t, cgroup, now)
  }

  function DoAll<P>(t: Tables<P>, ops: seq<Op<P>>): Tables<P>
    decreases |ops|
  {
    if ops == [] then t else DoAll(Do(t, ops[0]), ops[1..])
  }

  /** Rule ids are unique and a cgroup has one rule at a time, as the manager's header asks. */
  predicate FreshAdds<P>(t: Tables<P>, ops: seq<Op<P>>)
    decreases |ops|
  {
    ops == [] ||
    (&& (ops[0].AddRule? ==> ops[0].rule !in t.configs && ops[0].cfg.cgroup !in t.cgroups)
     && FreshAdds(Do(t, ops[0]), ops[1..]))
  }

  ghost predicate Sane<P>(t: Tables<P>) {
    Inverse(t) && |t.configs| <= CAPACITY
  }

  lemma AddKeepsSane<P>(t: Tables<P>, rule: U32, cfg: Config<P>)
    requires Sane(t) && rule !in t.configs && cfg.cgroup !in t.cgroups
    ensures Sane(Add(t, rule, cfg).0)
  {
    AddKeepsInverseIff(t, rule, cfg);
    FreshAddIsAllOrNothing(t, rule, cfg);
  }

  lemma RemoveKeepsSane<P>(t: Tables<P>, rule: U32)
    requires Sane(t)
    ensures Sane(Remove(t, rule).0)
  {
    RemoveKeepsInverse(t, rule);
    Shrinks(t.configs, rule);
  }

  lemma HookKeepsSane<P>(t: Tables<P>, cgroup: U64, now: U64)
    requires Sane(t)
    ensures Sane(HookExpiry(t, cgroup, now))
  {
    HookKeepsInverse(t, cgroup, now);
    if RuleFor(t, cgroup).Some? {
      Shrinks(t.configs, RuleFor(t, cgroup).value);
    }
  }

  lemma StepKeepsSane<P>(t: Tables<P>, op: Op<P>)
    requires Sane(t) && (op.AddRule? ==> op.rule !in t.configs && op.cfg.cgroup !in t.cgroups)
    ensures Sane(Do(t, op))
  {
    match op {
      case AddRule(rule, cfg) => AddKeepsSane(t, rule, cfg);
      case RemoveRule(rule) => RemoveKeepsSane(t, rule);
      case Check(rule, now) => RemoveKeepsSane(t, rule);
      case Hook(cgroup, now) => HookKeepsSane(t, cgroup, now);
    }
  }

  /** Every run with fresh adds keeps the maps mutually inverse and within capacity. */
  lemma {:induction false} RunsKeepInverse<P>(t: Tables<P>, ops: seq<Op<P>>)
    requires Sane(t) && FreshAdds(t, ops)
    ensures Sane(DoAll(t, ops))
    decreases |ops|
  {
    if ops != [] {
      StepKeepsSane(t, ops[0]);
      RunsKeepInverse(Do(t, ops[0]), ops[1..]);
    }
  }

  lemma Shrinks<K, V>(m: map<K, V>, k: K)
    ensures |m - {k}| <= |m|
  {
    assert (m - {k}).Keys == m.Keys - {k};
    assert |m.Keys - {k}| <= |m.Keys| by {
      assert m.Keys == (m.Keys - {k}) + (m.Keys * {k});
    }
  }

  /** On inverse maps a hook acts on exactly the unexpired rule written for its cgroup. */
  lemma InForceIsTheRule<P>(t: Tables<P>, cgroup: U64, now: U64, cfg: Config<P>)
    requires Inverse(t)
    ensures InForce(t, cgroup, now) == Some(cfg) <==>
            exists r :: r in t.configs && t.configs[r] == cfg && cfg.cgroup == cgroup && !Expired(cfg, now)
  {
  }

  // ---- lazy expiry is invisible ----------------------------------------------------------------

  /** The time of an operation; adding stamps the rule, and removing does not look at the clock. */
  function TimeOf<P>(op: Op<P>, at: nat): nat {
    match op
    case AddRule(_, cfg) => cfg.created
    case Check(_, now) => now
    case Hook(_, now) => now
    case RemoveRule(_) => at
  }

  /** A clock that does not go back. */
  predicate Timed<P>(ops: seq<Op<P>>, at: nat)
    decreases |ops|
  {
    ops == [] || (at <= TimeOf(ops[0], at) && Timed(ops[1..], TimeOf(ops[0], at)))
  }

  function LastTime<P>(ops: seq<Op<P>>, at: nat): nat
    decreases |ops|
  {
    if ops == [] then at else LastTime(ops[1..], TimeOf(ops[0], at))
  }

  /** What the history alone says: the rules successfully added and not removed since. */
  function Kept<P>(t: Tables<P>, kept: map<U32, Config<P>>, op: Op<P>): map<U32, Config<P>> {
    match op
    case AddRule(rule, cfg) => if Add(t, rule, cfg).1 then kept[rule := cfg] else kept
    case RemoveRule(rule) => kept - {rule}
    case _ => kept
  }

  function KeptAll<P>(t: Tables<P>, kept: map<U32, Config<P>>, ops: seq<Op<P>>): map<U32, Config<P>>
    decreases |ops|
  {
    if ops == [] then kept else KeptAll(Do(t, ops[0]), Kept(t, kept, ops[0]), ops[1..])
  }

  /** The time to live has run out, in unbounded arithmetic. */
  predicate Over<P>(cfg: Config<P>, now: nat) {
    now > cfg.created + cfg.ttl * 1_000_000_000
  }

  /** The tables hold exactly the kept rules, but for some whose time to live has run out. */
  ghost predicate Reflects<P>(t: Tables<P>, kept: map<U32, Config<P>>, at: nat) {
    && (forall r :: r in t.configs ==> r in kept && kept[r] == t.configs[r])
    && (forall r :: r in kept ==> kept[r].created <= at && (r in t.configs || Over(kept[r], at)))
  }

  lemma ExpiredIsOver<P>(cfg: Config<P>, now: U64)
    requires cfg.created <= now
    ensures Expired(cfg, now) <==> Over(cfg, now)
  {
    ExpiryIsExact(cfg, now);
  }

  lemma StepReflects<P>(t: Tables<P>, kept: map<U32, Config<P>>, op: Op<P>, at: nat)
    requires Sane(t) && Reflects(t, kept, at) && at <= TimeOf(op, at)
    requires op.AddRule? ==> op.rule !in t.configs && op.cfg.cgroup !in t.cgroups
    ensures Reflects(Do(t, op), Kept(t, kept, op), TimeOf(op, at))
  {
    match op {
      case AddRule(rule, cfg) => FreshAddIsAllOrNothing(t, rule, cfg);
      case RemoveRule(rule) =>
      case Check(rule, now) =>
        if rule in t.configs {
          ExpiredIsOver(t.configs[rule], now);
        }
      case Hook(cgroup, now) =>
        if RuleFor(t, cgroup).Some? {
          ExpiredIsOver(t.configs[RuleFor(t, cgroup).value], now);
        }
    }
  }

  lemma {:induction false} RunReflects<P>(t: Tables<P>, kept: map<U32, Config<P>>, ops: seq<Op<P>>, at: nat)
    requires Sane(t) && FreshAdds(t, ops) && Timed(ops, at) && Reflects(t, kept, at)
    ensures Reflects(DoAll(t, ops), KeptAll(t, kept, ops), LastTime(ops, at))
    decreases |ops|
  {
    if ops != [] {
      StepReflects(t, kept, ops[0], at);
      StepKeepsSane(t, ops[0]);
      RunReflects(Do(t, ops[0]), Kept(t, kept, ops[0]), ops[1..], TimeOf(ops[0], at));
    }
  }

  /** Rule `r` stands for the cgroup: kept, and within its time to live. */
  predicate Stands<P>(kept: map<U32, Config<P>>, r: U32, cgroup: U64, now: nat) {
    r in kept && kept[r].cgroup == cgroup && !Over(kept[r], now)
  }

  /** `found` is the one rule of the cgroup that stands, or nothing when none does. */
  ghost predicate IsStanding<P>(found: Option<Config<P>>, kept: map<U32, Config<P>>, cgroup: U64, now: nat) {
    && (forall r :: Stands(kept, r, cgroup, now) ==> found == Some(kept[r]))
    && (found.Some? ==> exists r :: Stands(kept, r, cgroup, now))
  }

  lemma InForceStands<P>(t: Tables<P>, kept: map<U32, Config<P>>, at: nat, cgroup: U64, now: U64)
    requires Inverse(t) && Reflects(t, kept, at) && at <= now
    ensures IsStanding(InForce(t, cgroup, now), kept, cgroup, now)
  {
    forall r | Stands(kept, r, cgroup, now) ensures InForce(t, cgroup, now) == Some(kept[r]) {
      assert r in t.configs;
      ExpiredIsOver(kept[r], now);
    }
    if InForce(t, cgroup, now).Some? {
      var r := RuleFor(t, cgroup).value;
      ExpiredIsOver(kept[r], now);
      assert Stands(kept, r, cgroup, now);
    }
  }

  /**
   On every run with fresh adds and a clock that does not go back, a hook acts on exactly the rule
   that was added for its cgroup, has not been removed since, and is within its time to live, if
   there is one: whether and when expired rules were deleted makes no difference.
   */
  lemma LazyExpiryIsInvisible<P>(ops: seq<Op<P>>, cgroup: U64, now: U64)
    requires FreshAdds(Tables(map[], map[]), ops) && Timed(ops, 0) && LastTime(ops, 0) <= now
    ensures var empty := Tables<P>.Tables(map[], map[]);
            var found, kept := InForce(DoAll(empty, ops), cgroup, now), KeptAll(empty, map[], ops);
            IsStanding(found, kept, cgroup, now)
  {
    var empty := Tables<P>.Tables(map[], map[]);
    RunReflects(empty, map[], ops, 0);
    RunsKeepInverse(empty, ops);
    var t, kept := DoAll(empty, ops), KeptAll(empty, map[], ops);
    InForceStands(t, kept, LastTime(ops, 0), cgroup, now);
  }

  /** On the same runs, the active check tells exactly whether the rule was added, not removed since, and is in time. */
  lemma ActiveByHistory<P>(ops: seq<Op<P>>, rule: U32, now: U64)
    requires FreshAdds(Tables(map[], map[]), ops) && Timed(ops, 0) && LastTime(ops, 0) <= now
    ensures var empty := Tables<P>.Tables(map[], map[]);
            var kept := KeptAll(empty, map[], ops);
            CheckActive(DoAll(empty, ops), rule, now).1 <==>
            rule in kept && now <= kept[rule].created + kept[rule].ttl * 1_000_000_000
  {
    var empty := Tables<P>.Tables(map[], map[]);
    var t, kept := DoAll(empty, ops), KeptAll(empty, map[], ops);
    RunReflects(empty, map[], ops, 0);
    if rule in t.configs {
      ExpiredIsOver(t.configs[rule], now);
    }
  }

  /** `t'` lacks the rule and its cgroup and has every other entry as before. */
  ghost predicate Forgets<P>(t: Tables<P>, rule: U32, cgroup: U64, t': Tables<P>) {
    && rule !in t'.configs && cgroup !in t'.cgroups
    && (forall r :: r != rule ==> (r in t'.configs <==> r in t.configs) && (r in t'.configs ==> t'.configs[r] == t.configs[r]))
    && (forall c :: c != cgroup ==> (c in t'.cgroups <==> c in t.cgroups) && (c in t'.cgroups ==> t'.cgroups[c] == t.cgroups[c]))
  }

  /** A hook call and an active check delete the rule they find exactly when its time to live has run out. */
  lemma ExpiredIsForgotten<P>(t: Tables<P>, rule: U32, cgroup: U64, now: U64)
    requires rule in t.configs && cgroup in t.cgroups && t.cgroups[cgroup] == rule && t.configs[rule].cgroup == cgroup
    requires t.configs[rule].created <= now
    ensures if now > t.configs[rule].created + t.configs[rule].ttl * 1_000_000_000
            then Forgets(t, rule, cgroup, HookExpiry(t, cgroup, now)) && Forgets(t, rule, cgroup, CheckActive(t, rule, now).0)
            else HookExpiry(t, cgroup, now) == t && CheckActive(t, rule, now) == (t, true)
  {
    ExpiredIsOver(t.configs[rule], now);
  }
}
