/** The deny-syscall program and its manager: rule tables and statistics changed in place by three hooks. */
module DenySyscall {
  import opened Prelude
  import opened RuleTables

  const NR_EXECVE: U32 := 59
  const NR_EXECVEAT: U32 := 322
  const NR_PTRACE: U32 := 101

  /** The payload of a rule is the syscall number it denies. */
  type DenyTables = Tables<U32>

  datatype HookKind = LsmExec | KprobePtrace | KprobeExec

  /** Which denied syscalls make a hook block. */
  predicate Covers(hook: HookKind, syscall: U32) {
    match hook
    case LsmExec => syscall == NR_EXECVE || syscall == NR_EXECVEAT
    case KprobePtrace => syscall == NR_PTRACE
    case KprobeExec => syscall == NR_EXECVE
  }

  datatype Stats = Stats(blocked: U64, processed: U64, execveBlocked: U64, ptraceBlocked: U64)

  /** 64-bit increment with wrap-around. */
  function Inc(n: U64): U64 {
    WrapAdd(n, 1)
  }

  /** A task is stopped exactly when its cgroup is known and an unexpired rule for it names a syscall the hook covers. */
  predicate Blocks(t: DenyTables, hook: HookKind, cgroup: U64, now: U64) {
    cgroup != 0 && InForce(t, cgroup, now).Some? && Covers(hook, InForce(t, cgroup, now).value.payload)
  }

  function Counted(s: Stats, hook: HookKind, cgroup: U64, blocked: bool): Stats {
    if cgroup == 0 then s
    else if !blocked then s.(processed := Inc(s.processed))
    else if hook.KprobePtrace? then
      s.(processed := Inc(s.processed), blocked := Inc(s.blocked), ptraceBlocked := Inc(s.ptraceBlocked))
    else
      s.(processed := Inc(s.processed), blocked := Inc(s.blocked), execveBlocked := Inc(s.execveBlocked))
  }

  datatype ManagerResult = Success | MapError | RuleNotFound

  class DenyProgram {
    var denyConfigs: map<U32, Config<U32>>
    var cgroupRules: map<U64, U32>
    var stats: Stats

    function Contents(): DenyTables
      reads this
    {
      Tables(denyConfigs, cgroupRules)
    }

    constructor ()
      ensures Contents() == Tables(map[], map[]) && stats == Stats(0, 0, 0, 0)
    {
      denyConfigs, cgroupRules, stats := map[], map[], Stats(0, 0, 0, 0);
    }

    /** `bpf_map_update_elem` with BPF_ANY on each map. */
    method UpdateConfigs(rule: U32, cfg: Config<U32>) returns (ok: bool)
      modifies this`denyConfigs
      ensures ok == Accepts(old(denyConfigs), rule) && denyConfigs == if ok then old(denyConfigs)[rule := cfg] else old(denyConfigs)
    {
      ok := rule in denyConfigs || |denyConfigs| < CAPACITY;
      if ok {
        denyConfigs := denyConfigs[rule := cfg];
      }
    }

    method UpdateCgroups(cgroup: U64, rule: U32) returns (ok: bool)
      modifies this`cgroupRules
      ensures ok == Accepts(old(cgroupRules), cgroup) && cgroupRules == if ok then old(cgroupRules)[cgroup := rule] else old(cgroupRules)
    {
      ok := cgroup in cgroupRules || |cgroupRules| < CAPACITY;
      if ok {
        cgroupRules := cgroupRules[cgroup := rule];
      }
    }

    method AddDenyRule(rule: U32, cgroup: U64, syscall: U32, ttl: U32, now: U64) returns (r: ManagerResult)
      modifies this`denyConfigs, this`cgroupRules
      ensures var (t, ok) := Add(old(Contents()), rule, Config(cgroup, ttl, now, syscall));
              Contents() == t && r == if ok then Success else MapError
    {
      var cfg := Config(cgroup, ttl, now, syscall);
      var ok := UpdateConfigs(rule, cfg);
      if !ok {
        return MapError;
      }
      ok := UpdateCgroups(cgroup, rule);
      if !ok {
        denyConfigs := denyConfigs - {rule};
        assert denyConfigs == old(denyConfigs) - {rule};
        return MapError;
      }
      r := Success;
    }

    method RemoveDenyRule(rule: U32) returns (r: ManagerResult)
      modifies this`denyConfigs, this`cgroupRules
      ensures var (t, ok) := Remove(old(Contents()), rule);
              Contents() == t && r == if ok then Success else RuleNotFound
    {
      if rule !in denyConfigs {
        return RuleNotFound;
      }
      cgroupRules := cgroupRules - {denyConfigs[rule].cgroup};
      denyConfigs := denyConfigs - {rule};
      r := Success;
    }

    method IsRuleActive(rule: U32, now: U64) returns (active: bool)
      modifies this`denyConfigs, this`cgroupRules
      ensures (Contents(), active) == CheckActive(old(Contents()), rule, now)
    {
      if rule !in denyConfigs {
        return false;
      }
      if Expired(denyConfigs[rule], now) {
        var _ := RemoveDenyRule(rule);
        return false;
      }
      active := true;
    }

    /** The body shared by the three hooks; `cgroup` is 0 when it cannot be determined. */
    method OnSyscall(hook: HookKind, cgroup: U64, now: U64) returns (blocked: bool)
      modifies this
      ensures blocked == Blocks(old(Contents()), hook, cgroup, now)
      ensures Contents() == if cgroup == 0 then old(Contents()) else HookExpiry(old(Contents()), cgroup, now)
      ensures stats == Counted(old(stats), hook, cgroup, blocked)
    {
      blocked := false;
      if cgroup == 0 {
        return;
      }
      stats := stats.(processed := Inc(stats.processed));
      if cgroup !in cgroupRules {
        return;
      }
      var rule := cgroupRules[cgroup];
      if rule !in denyConfigs {
        return;
      }
      var cfg := denyConfigs[rule];
      if Expired(cfg, now) {
        denyConfigs := denyConfigs - {rule};
        cgroupRules := cgroupRules - {cgroup};
        return;
      }
      if Covers(hook, cfg.payload) {
        stats := stats.(blocked := Inc(stats.blocked));
        if hook.KprobePtrace? {
          stats := stats.(ptraceBlocked := Inc(stats.ptraceBlocked));
        } else {
          stats := stats.(execveBlocked := Inc(stats.execveBlocked));
        }
        blocked := true;
      }
    }
  }

  /** On every state reachable with fresh adds, a hook blocks exactly for a live rule of that cgroup. */
  lemma BlocksExactlyLiveRules(ops: seq<Op<U32>>, hook: HookKind, cgroup: U64, now: U64)
    requires FreshAdds(Tables(map[], map[]), ops)
    ensures var t := DoAll(Tables(map[], map[]), ops);
            Blocks(t, hook, cgroup, now) <==>
            cgroup != 0 && exists r :: r in t.configs && t.configs[r].cgroup == cgroup && !Expired(t.configs[r], now)
                                       && Covers(hook, t.configs[r].payload)
  {
    RunsKeepInverse(Tables<U32>.Tables(map[], map[]), ops);
  }

  /**
   The same over the history: a hook blocks exactly when some rule was added for the cgroup, not
   removed since, is within its time to live, and names a syscall the hook covers.
   */
  lemma BlocksByHistory(ops: seq<Op<U32>>, hook: HookKind, cgroup: U64, now: U64)
    requires FreshAdds(Tables(map[], map[]), ops) && Timed(ops, 0) && LastTime(ops, 0) <= now
    ensures var empty := Tables<U32>.Tables(map[], map[]);
            var kept := KeptAll(empty, map[], ops);
            Blocks(DoAll(empty, ops), hook, cgroup, now) <==>
            cgroup != 0 && exists r ::
              && Stands(kept, r, cgroup, now)
              && (hook.LsmExec? ==> kept[r].payload == 59 || kept[r].payload == 322)
              && (hook.KprobePtrace? ==> kept[r].payload == 101)
              && (hook.KprobeExec? ==> kept[r].payload == 59)
  {
    LazyExpiryIsInvisible(ops, cgroup, now);
  }

  // ---- statistics over runs ----------------------------------------------------------------

  datatype Call = Call(hook: HookKind, cgroup: U64, now: U64)

  /** Counters and tables after a sequence of hook calls. */
  function AfterCalls(t: DenyTables, s: Stats, calls: seq<Call>): (DenyTables, Stats)
    decreases |calls|
  {
    if calls == [] then (t, s)
    else
      var c := calls[0];
      var t' := if c.cgroup == 0 then t else HookExpiry(t, c.cgroup, c.now);
      AfterCalls(t', Counted(s, c.hook, c.cgroup, Blocks(t, c.hook, c.cgroup, c.now)), calls[1..])
  }

  /** How many of the calls came from a known cgroup. */
  function Known(calls: seq<Call>): nat {
    if calls == [] then 0 else (if calls[0].cgroup != 0 then 1 else 0) + Known(calls[1..])
  }

  /** How many of the calls were blocked, by the ptrace hook or by the others. */
  function Stopped(t: DenyTables, calls: seq<Call>, ptrace: bool): nat
    decreases |calls|
  {
    if calls == [] then 0
    else
      var c := calls[0];
      (if Blocks(t, c.hook, c.cgroup, c.now) && c.hook.KprobePtrace? == ptrace then 1 else 0)
      + Stopped(if c.cgroup == 0 then t else HookExpiry(t, c.cgroup, c.now), calls[1..], ptrace)
  }

  /**
   Over every sequence of hook calls the four counters are exactly the calls from known cgroups, the
   blocked ones, and of these the exec and the ptrace calls, modulo 2^64.
   */
  lemma {:induction false} CountersAreExact(t: DenyTables, s: Stats, calls: seq<Call>)
    ensures var r, execs, ptraces := AfterCalls(t, s, calls).1, Stopped(t, calls, false), Stopped(t, calls, true);
            && r.processed == WrapAdd(s.processed, Known(calls)) && r.blocked == WrapAdd(s.blocked, execs + ptraces)
            && r.execveBlocked == WrapAdd(s.execveBlocked, execs) && r.ptraceBlocked == WrapAdd(s.ptraceBlocked, ptraces)
    decreases |calls|
  {
    if calls == [] {
      WrapAddNone(s.processed);
      WrapAddNone(s.blocked);
      WrapAddNone(s.execveBlocked);
      WrapAddNone(s.ptraceBlocked);
    } else {
      var c := calls[0];
      var t' := if c.cgroup == 0 then t else HookExpiry(t, c.cgroup, c.now);
      var execs, ptraces := Stopped(t', calls[1..], false), Stopped(t', calls[1..], true);
      CountersAreExact(t', Counted(s, c.hook, c.cgroup, Blocks(t, c.hook, c.cgroup, c.now)), calls[1..]);
      WrapAddTwice(s.processed, 1, Known(calls[1..]));
      WrapAddTwice(s.blocked, 1, execs + ptraces);
      WrapAddTwice(s.execveBlocked, 1, execs);
      WrapAddTwice(s.ptraceBlocked, 1, ptraces);
    }
  }
}
