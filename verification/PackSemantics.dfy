/**
 What a detection pack means, stated without budgets, iteration order or
 short-circuiting: JSON values, one batch of observations, and the truth of a
 match clause over that batch.
 */
module PackSemantics {
  import opened Prelude

  /** A parsed JSON value; every number that is not a u64 is `OtherNumber`. */
  datatype Value =
    | Null
    | Bool(b: bool)
    | UInt(n: U64)
    | OtherNumber
    | Str(s: string)
    | Arr(items: seq<Value>)
    | Obj(fields: map<string, Value>)

  datatype ProcessObs = ProcessObs(name: string, commandLine: string, path: string, parentGuid: string)

  datatype DnsObs = DnsObs(query: string)

  datatype FlowObs = FlowObs(flowId: string, processGuid: string, remotePort: Option<U16>, remoteHostname: string)

  datatype Batch = Batch(processes: map<string, ProcessObs>, dns: seq<DnsObs>, flows: seq<FlowObs>)

  datatype MatchHint = MatchHint(processGuid: Option<string>, flowId: Option<string>)

  const NO_HINT := MatchHint(None, None)

  /** `Value::get`: only objects have keys. */
  function Get(v: Value, key: string): Option<Value> {
    if v.Obj? && key in v.fields then Some(v.fields[key]) else None
  }

  /** The `if let Some(Value::Array(arr)) = map.get(key)` pattern. */
  predicate HasArray(m: map<string, Value>, key: string) {
    key in m && m[key].Arr?
  }

  function LowerChar(c: char): char {
    if 'A' <= c <= 'Z' then (c as int + 32) as char else c
  }

  /** `to_ascii_lowercase` */
  function Lower(s: string): (r: string)
    ensures |r| == |s|
  {
    seq(|s|, i requires 0 <= i < |s| => LowerChar(s[i]))
  }

  function Fold(s: string, ci: bool): string {
    if ci then Lower(s) else s
  }

  predicate Contains(s: string, needle: string) {
    exists i :: 0 <= i <= |s| && needle <= s[i..]
  }

  // ---- leaves -----------------------------------------------------------------

  predicate SameName(a: string, b: string, ci: bool) {
    if ci then Lower(a) == Lower(b) else a == b
  }

  /** A `*_names_any` list, when present, must name the subject. */
  ghost predicate NamedBy(m: map<string, Value>, key: string, subject: string, ci: bool) {
    HasArray(m, key) ==>
      exists i :: 0 <= i < |m[key].items| && m[key].items[i].Str? && SameName(subject, m[key].items[i].s, ci)
  }

  /**
   A `*_contains_any` list, when present, must hold a nonempty needle of the
   subject. Needles are lower-cased whatever the leaf's `case_insensitive` says;
   the subject is lower-cased only when `ci`.
   */
  ghost predicate ContainedBy(m: map<string, Value>, key: string, subject: string, ci: bool) {
    HasArray(m, key) ==>
      exists i :: 0 <= i < |m[key].items| && m[key].items[i].Str? && m[key].items[i].s != "" &&
                  Contains(Fold(subject, ci), Lower(m[key].items[i].s))
  }

  predicate CaseInsensitive(pm: map<string, Value>) {
    "case_insensitive" in pm && pm["case_insensitive"].Bool? ==> pm["case_insensitive"].b
  }

  /** The parent's image name, or "" when the batch does not hold the parent. */
  function ParentName(b: Batch, p: ProcessObs): string {
    if p.parentGuid != "" && p.parentGuid in b.processes then b.processes[p.parentGuid].name else ""
  }

  ghost predicate ProcessSatisfies(pm: map<string, Value>, b: Batch, p: ProcessObs) {
    var ci := CaseInsensitive(pm);
    && NamedBy(pm, "executable_names_any", p.name, ci)
    && ContainedBy(pm, "executable_name_contains_any", p.name, ci)
    && ContainedBy(pm, "command_line_contains_any", p.commandLine, ci)
    && NamedBy(pm, "parent_executable_names_any", ParentName(b, p), ci)
    && ContainedBy(pm, "process_path_contains_any", p.path, ci)
  }

  /** The batch process `g` satisfies the leaf. */
  ghost predicate Passes(pm: map<string, Value>, b: Batch, g: string) {
    g in b.processes && ProcessSatisfies(pm, b, b.processes[g])
  }

  ghost predicate DnsSatisfies(dm: map<string, Value>, d: DnsObs) {
    HasArray(dm, "query_contains_any") && ContainedBy(dm, "query_contains_any", d.query, true)
  }

  predicate HasAnyFlow(fm: map<string, Value>) {
    "has_any_flow" in fm && fm["has_any_flow"] == Bool(true)
  }

  /** A nonempty port list must hold the flow's port; list entries are narrowed to 16 bits. */
  predicate PortListed(fm: map<string, Value>, fl: FlowObs) {
    HasArray(fm, "remote_ports_any") && fm["remote_ports_any"].items != [] ==>
      && fl.remotePort.Some?
      && exists i :: 0 <= i < |fm["remote_ports_any"].items| &&
           fm["remote_ports_any"].items[i].UInt? && fm["remote_ports_any"].items[i].n % 0x1_0000 == fl.remotePort.value
  }

  ghost predicate FlowSatisfies(fm: map<string, Value>, fl: FlowObs) {
    HasAnyFlow(fm) || (PortListed(fm, fl) && ContainedBy(fm, "remote_host_contains_any", fl.remoteHostname, true))
  }

  // ---- clauses ----------------------------------------------------------------

  datatype Shape =
    | NotObject
    | AllOf(of: seq<Value>)
    | AnyOf(of: seq<Value>, minMatch: nat)
    | GroupMissingOf
    | UnknownOp
    | Process(pm: map<string, Value>)
    | BadProcess
    | Dns(dm: map<string, Value>)
    | BadDns
    | Flow(fm: map<string, Value>)
    | BadFlow
    | NeverMatches
    | UnknownShape

  function MinMatch(c: Value): nat
    requires c.Obj?
  {
    if "min_match" in c.fields && c.fields["min_match"].UInt? then Max(1, c.fields["min_match"].n) else 1
  }

  /** Which kind of clause a JSON value is; keys are tried in the evaluator's order. */
  function ShapeOf(c: Value): (s: Shape)
    ensures s.AllOf? || s.AnyOf? ==> forall ch :: ch in s.of ==> ch < c
    ensures s.AnyOf? ==> s.minMatch >= 1
  {
    if !c.Obj? then NotObject
    else if "op" in c.fields then
      if !HasArray(c.fields, "of") then GroupMissingOf
      else if c.fields["op"] == Str("all_of") then AllOf(c.fields["of"].items)
      else if c.fields["op"] == Str("any_of") then AnyOf(c.fields["of"].items, MinMatch(c))
      else UnknownOp
    else if "process" in c.fields then
      if c.fields["process"].Obj? then Process(c.fields["process"].fields) else BadProcess
    else if "dns" in c.fields then
      if c.fields["dns"].Obj? then Dns(c.fields["dns"].fields) else BadDns
    else if "flow" in c.fields then
      if c.fields["flow"].Obj? then Flow(c.fields["flow"].fields) else BadFlow
    else if "sase_component" in c.fields || "browser_extension" in c.fields then NeverMatches
    else UnknownShape
  }

  predicate Malformed(s: Shape) {
    s.NotObject? || s.GroupMissingOf? || s.UnknownOp? || s.BadProcess? || s.BadDns? || s.BadFlow? || s.UnknownShape?
  }

  /** The declarative truth of a clause over a batch; malformed clauses are false. */
  ghost predicate Holds(c: Value, b: Batch)
    decreases c, 1
  {
    match ShapeOf(c)
    case AllOf(of) => forall i :: 0 <= i < |of| ==> Holds(of[i], b)
    case AnyOf(of, minMatch) => |Holding(of, 0, b)| >= minMatch
    case Process(pm) => exists g :: Passes(pm, b, g)
    case Dns(dm) => exists i :: 0 <= i < |b.dns| && DnsSatisfies(dm, b.dns[i])
    case Flow(fm) => exists i :: 0 <= i < |b.flows| && FlowSatisfies(fm, b.flows[i])
    case _ => false
  }

  /** Which children, from index `k` on, are true. */
  ghost function Holding(of: seq<Value>, k: nat, b: Batch): set<int>
    decreases of, 0
  {
    set i | k <= i < |of| && Holds(of[i], b)
  }

  /** No part of the clause is malformed. */
  ghost predicate WellFormed(c: Value)
    decreases c
  {
    match ShapeOf(c)
    case AllOf(of) => forall i :: 0 <= i < |of| ==> WellFormed(of[i])
    case AnyOf(of, _) => forall i :: 0 <= i < |of| ==> WellFormed(of[i])
    case s => !Malformed(s)
  }
}
