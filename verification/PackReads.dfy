/**
 What the keys of a pack document do: limits, priorities, groups and leaves written out as documents,
 and what a completed evaluation says about the clock.
 */
module PackReads {
  import opened Prelude
  import opened PackSemantics
  import opened PackRun
  import opened PackEval
  import opened PackLoop

  // ---- limits ------------------------------------------------------------------------------------

  const LIMIT_KEYS := ["max_rules_evaluated_per_batch", "max_string_comparisons_per_rule", "max_clause_depth",
                       "max_clauses_per_rule", "max_wall_time_ms_per_batch"]

  predicate IsNumber(v: Value, key: string) {
    v.Obj? && key in v.fields && v.fields[key].UInt?
  }

  /** Limits are read exactly when all five are unsigned numbers; otherwise the first that is not is named. */
  lemma LimitsReadIff(v: Value)
    ensures ParseLimits(v).Ok? <==> forall i :: 0 <= i < 5 ==> IsNumber(v, LIMIT_KEYS[i])
    ensures v.Obj? && ParseLimits(v).Err? ==>
              exists i :: 0 <= i < 5 && ParseLimits(v).error == BadLimits(LIMIT_KEYS[i]) && !IsNumber(v, LIMIT_KEYS[i])
                          && forall j :: 0 <= j < i ==> IsNumber(v, LIMIT_KEYS[j])
  {
    assert LIMIT_KEYS[0] == "max_rules_evaluated_per_batch" && LIMIT_KEYS[1] == "max_string_comparisons_per_rule";
    assert LIMIT_KEYS[2] == "max_clause_depth" && LIMIT_KEYS[3] == "max_clauses_per_rule";
    assert LIMIT_KEYS[4] == "max_wall_time_ms_per_batch";
  }

  /** Each key sets its own limit, whatever else the object holds. */
  lemma LimitsReadBack(fields: map<string, Value>, rules: U64, strings: U64, depth: U64, clauses: U64, wall: U64)
    requires "max_rules_evaluated_per_batch" in fields && fields["max_rules_evaluated_per_batch"] == UInt(rules)
    requires "max_string_comparisons_per_rule" in fields && fields["max_string_comparisons_per_rule"] == UInt(strings)
    requires "max_clause_depth" in fields && fields["max_clause_depth"] == UInt(depth)
    requires "max_clauses_per_rule" in fields && fields["max_clauses_per_rule"] == UInt(clauses)
    requires "max_wall_time_ms_per_batch" in fields && fields["max_wall_time_ms_per_batch"] == UInt(wall)
    ensures ParseLimits(Obj(fields)).Ok?
    ensures var lim := ParseLimits(Obj(fields)).value;
            && lim.maxRules == rules && lim.maxStringCmp == strings && lim.maxDepth == depth
            && lim.maxClauses == clauses && lim.maxWallMs == wall
  {
  }

  /** A written priority counts, and a rule without one stands among the rules as if it had 1,000,000. */
  lemma PriorityReads(fields: map<string, Value>, n: U64)
    ensures Priority(Obj(fields["priority" := UInt(n)])) == n
    ensures Priority(Obj(fields - {"priority"})) == Priority(Obj(fields["priority" := UInt(1_000_000)]))
  {
  }

  /** A completed evaluation read no clock later than its wall-time limit, in nanoseconds. */
  lemma {:induction false} CompletedInTime(rules: seq<Value>, idx: seq<nat>, n: nat, b: Batch, order: seq<string>,
                                           lim: Limits, clock: nat -> nat)
    requires Visits(order, b) && (forall j :: 0 <= j < |idx| ==> idx[j] < |rules|)
    requires n <= |idx| && n <= lim.maxRules && PassesFit(rules, idx, n, b, order, lim, clock)
    ensures forall r :: 0 <= r < ReadingAt(rules, idx, n, b, order) ==> clock(r) <= lim.maxWallMs * 1_000_000
  {
    if n > 0 {
      CompletedInTime(rules, idx, n - 1, b, order, lim, clock);
      var before := ReadingAt(rules, idx, n - 1, b, order);
      assert PassFits(rules, idx, n - 1, b, order, lim, clock);
      assert RuleFits(rules[idx[n - 1]], b, order, lim, clock, before + 1);
      forall r | before <= r < ReadingAt(rules, idx, n, b, order) ensures clock(r) <= lim.maxWallMs * 1_000_000 {
        assert InTime(lim, clock, r);
      }
    }
  }

  /** A rule without a clause takes one clock reading, and gets by exactly when that one is within the limit. */
  lemma PlainPassIff(rules: seq<Value>, idx: seq<nat>, k: nat, b: Batch, order: seq<string>, lim: Limits, clock: nat -> nat)
    requires Visits(order, b) && (forall j :: 0 <= j < |idx| ==> idx[j] < |rules|) && k < |idx|
    requires k >= lim.maxRules || Get(rules[idx[k]], "match").None?
    ensures var reading := ReadingAt(rules, idx, k, b, order);
            && (PassFits(rules, idx, k, b, order, lim, clock) <==> clock(reading) <= lim.maxWallMs * 1_000_000)
            && (Get(rules[idx[k]], "match").None? ==> ReadingAt(rules, idx, k + 1, b, order) == reading + 1)
  {
  }

  // ---- which clause a document is ------------------------------------------------------------------

  /** The key decides what the clause is: no key that is tried before it is there. */
  predicate Decides(fields: map<string, Value>, key: string) {
    && key in fields && (key != "op" ==> "op" !in fields)
    && (key == "dns" || key == "flow" || key == "sase_component" || key == "browser_extension" ==> "process" !in fields)
    && (key == "flow" || key == "sase_component" || key == "browser_extension" ==> "dns" !in fields)
    && (key == "sase_component" || key == "browser_extension" ==> "flow" !in fields)
  }

  /**
   A group is malformed exactly when its list is missing or its operator is neither of the two, and a leaf
   exactly when it is not an object; the two reserved leaves are neither malformed nor ever true, and what
   has none of these keys is malformed.
   */
  lemma MalformedIff(fields: map<string, Value>, b: Batch)
    ensures Decides(fields, "op") ==>
              (Malformed(ShapeOf(Obj(fields))) <==> !HasArray(fields, "of") || (fields["op"] != Str("all_of") && fields["op"] != Str("any_of")))
    ensures forall key :: key in ["process", "dns", "flow"] && Decides(fields, key) ==>
              (Malformed(ShapeOf(Obj(fields))) <==> !fields[key].Obj?)
    ensures Decides(fields, "sase_component") || Decides(fields, "browser_extension") ==>
              !Malformed(ShapeOf(Obj(fields))) && !Holds(Obj(fields), b)
    ensures (forall key :: key in ["op", "process", "dns", "flow", "sase_component", "browser_extension"] ==> key !in fields) ==>
              Malformed(ShapeOf(Obj(fields)))
  {
    var names := ["op", "process", "dns", "flow", "sase_component", "browser_extension"];
    assert names[0] == "op" && names[1] == "process" && names[2] == "dns";
    assert names[3] == "flow" && names[4] == "sase_component" && names[5] == "browser_extension";
  }

  /** Keys tried later do not matter: the document means what it does without them. */
  lemma LaterKeysDoNotMatter(fields: map<string, Value>, b: Batch)
    ensures Decides(fields, "op") ==> (Holds(Obj(fields), b) <==> Holds(Obj(fields - {"process", "dns", "flow"}), b))
    ensures Decides(fields, "process") ==> (Holds(Obj(fields), b) <==> Holds(Obj(map["process" := fields["process"]]), b))
    ensures Decides(fields, "dns") ==> (Holds(Obj(fields), b) <==> Holds(Obj(map["dns" := fields["dns"]]), b))
    ensures Decides(fields, "flow") ==> (Holds(Obj(fields), b) <==> Holds(Obj(map["flow" := fields["flow"]]), b))
  {
    if Decides(fields, "op") {
      OpAlone(fields);
    } else if Decides(fields, "process") {
      assert ShapeOf(Obj(fields)) == ShapeOf(Obj(map["process" := fields["process"]]));
    } else if Decides(fields, "dns") {
      assert ShapeOf(Obj(fields)) == ShapeOf(Obj(map["dns" := fields["dns"]]));
    } else if Decides(fields, "flow") {
      assert ShapeOf(Obj(fields)) == ShapeOf(Obj(map["flow" := fields["flow"]]));
    }
  }

  lemma OpAlone(fields: map<string, Value>)
    requires "op" in fields
    ensures ShapeOf(Obj(fields)) == ShapeOf(Obj(fields - {"process", "dns", "flow"}))
  {
    var short := fields - {"process", "dns", "flow"};
    assert "op" in short && short["op"] == fields["op"];
    assert HasArray(short, "of") <==> HasArray(fields, "of");
    assert "min_match" in short <==> "min_match" in fields;
  }

  // ---- groups ------------------------------------------------------------------------------------

  function AllOfDoc(of: seq<Value>): Value {
    Obj(map["op" := Str("all_of"), "of" := Arr(of)])
  }

  function AnyOfDoc(of: seq<Value>, n: U64): Value {
    Obj(map["op" := Str("any_of"), "of" := Arr(of), "min_match" := UInt(n)])
  }

  function PlainAnyOfDoc(of: seq<Value>): Value {
    Obj(map["op" := Str("any_of"), "of" := Arr(of)])
  }

  ghost function Truths(of: seq<Value>, b: Batch): (truths: seq<bool>)
    ensures |truths| == |of| && forall i :: 0 <= i < |of| ==> truths[i] == Holds(of[i], b)
  {
    seq(|of|, i requires 0 <= i < |of| => Holds(of[i], b))
  }

  /** How many of the first `n` are true. */
  function Trues(truths: seq<bool>, n: nat): (count: nat)
    requires n <= |truths|
    ensures count <= n
    ensures count == n <==> forall i :: 0 <= i < n ==> truths[i]
    ensures count == 0 <==> forall i :: 0 <= i < n ==> !truths[i]
  {
    if n == 0 then 0 else Trues(truths, n - 1) + if truths[n - 1] then 1 else 0
  }

  lemma {:induction false} TruesAreCounted(truths: seq<bool>, n: nat)
    requires n <= |truths|
    ensures |set i | 0 <= i < n && truths[i]| == Trues(truths, n)
  {
    var s := set i | 0 <= i < n && truths[i];
    if n == 0 {
      assert s == {};
    } else {
      TruesAreCounted(truths, n - 1);
      var rest := set i | 0 <= i < n - 1 && truths[i];
      assert s == if truths[n - 1] then rest + {n - 1} else rest;
    }
  }

  ghost function TrueAmong(of: seq<Value>, b: Batch): (count: nat)
    ensures count <= |of|
    ensures count == |of| <==> forall i :: 0 <= i < |of| ==> Holds(of[i], b)
    ensures count == 0 <==> forall i :: 0 <= i < |of| ==> !Holds(of[i], b)
  {
    var truths := Truths(of, b);
    var count := Trues(truths, |of|);
    assert forall i :: 0 <= i < |of| ==> truths[i] == Holds(of[i], b);
    count
  }

  lemma HoldingCounts(of: seq<Value>, b: Batch)
    ensures |Holding(of, 0, b)| == TrueAmong(of, b)
  {
    var truths := Truths(of, b);
    TruesAreCounted(truths, |of|);
    assert Holding(of, 0, b) == set i | 0 <= i < |of| && truths[i];
  }

  lemma AnyOfShapes(of: seq<Value>, n: U64)
    ensures ShapeOf(AnyOfDoc(of, n)) == AnyOf(of, if n == 0 then 1 else n)
    ensures ShapeOf(PlainAnyOfDoc(of)) == AnyOf(of, 1)
  {
    var some, plain := AnyOfDoc(of, n), PlainAnyOfDoc(of);
    assert some.fields["op"] == Str("any_of") && some.fields["of"] == Arr(of) && some.fields["min_match"] == UInt(n);
    assert plain.fields["op"] == Str("any_of") && plain.fields["of"] == Arr(of) && "min_match" !in plain.fields;
  }

  /** An `any_of` is a threshold on the number of true children; without a number, or with 0, it asks for one. */
  lemma ThresholdIs(of: seq<Value>, n: U64, b: Batch)
    ensures Holds(AnyOfDoc(of, n), b) <==> TrueAmong(of, b) >= if n == 0 then 1 else n
    ensures Holds(PlainAnyOfDoc(of), b) <==> exists i :: 0 <= i < |of| && Holds(of[i], b)
  {
    HoldingCounts(of, b);
    AnyOfShapes(of, n);
  }

  /** At the top of its range the threshold is `all_of`; beyond it nothing matches, and only no children tell the two apart. */
  lemma EveryChildIsAllOf(of: seq<Value>, n: U64, b: Batch)
    ensures n == |of| > 0 ==> (Holds(AnyOfDoc(of, n), b) <==> Holds(AllOfDoc(of), b))
    ensures n > |of| ==> !Holds(AnyOfDoc(of, n), b)
    ensures of == [] ==> Holds(AllOfDoc(of), b) && !Holds(AnyOfDoc(of, n), b)
  {
    ThresholdIs(of, n, b);
    var every := AllOfDoc(of);
    assert every.fields["op"] == Str("all_of") && every.fields["of"] == Arr(of);
    assert ShapeOf(every) == AllOf(of);
  }

  // ---- leaves ------------------------------------------------------------------------------------

  function Strs(names: seq<string>): Value {
    Arr(seq(|names|, i requires 0 <= i < |names| => Str(names[i])))
  }

  function Numbers(ports: seq<U64>): Value {
    Arr(seq(|ports|, i requires 0 <= i < |ports| => UInt(ports[i])))
  }

  function ProcessDoc(key: string, names: seq<string>): Value {
    Obj(map["process" := Obj(map[key := Strs(names)])])
  }

  function FlowDoc(key: string, list: Value): Value {
    Obj(map["flow" := Obj(map[key := list])])
  }

  /** Some name in the list is the subject, letter case aside. */
  ghost predicate Listed(subject: string, names: seq<string>) {
    exists i :: 0 <= i < |names| && Lower(subject) == Lower(names[i])
  }

  /** Some nonempty text in the list is part of the subject, letter case aside. */
  ghost predicate Mentions(subject: string, texts: seq<string>) {
    exists i :: 0 <= i < |texts| && texts[i] != "" && Contains(Lower(subject), Lower(texts[i]))
  }

  lemma ListedIs(m: map<string, Value>, key: string, subject: string, names: seq<string>)
    requires key in m && m[key] == Strs(names)
    ensures NamedBy(m, key, subject, true) <==> Listed(subject, names)
    ensures ContainedBy(m, key, subject, true) <==> Mentions(subject, names)
  {
    var items := m[key].items;
    assert |items| == |names| && forall i :: 0 <= i < |names| ==> items[i] == Str(names[i]);
    if Listed(subject, names) {
      var i :| 0 <= i < |names| && Lower(subject) == Lower(names[i]);
      assert items[i].Str? && SameName(subject, items[i].s, true);
    }
    if Mentions(subject, names) {
      var i :| 0 <= i < |names| && names[i] != "" && Contains(Lower(subject), Lower(names[i]));
      assert items[i].Str? && items[i].s != "" && Contains(Fold(subject, true), Lower(items[i].s));
    }
  }

  /** The name of the process that started this one, when the batch holds it. */
  predicate IsParent(b: Batch, p: ProcessObs, name: string) {
    if p.parentGuid != "" && p.parentGuid in b.processes then name == b.processes[p.parentGuid].name else name == ""
  }

  /** What one list of a process leaf asks of a process. */
  ghost predicate Asks(key: string, names: seq<string>, b: Batch, p: ProcessObs) {
    && (key == "executable_names_any" ==> Listed(p.name, names))
    && (key == "executable_name_contains_any" ==> Mentions(p.name, names))
    && (key == "command_line_contains_any" ==> Mentions(p.commandLine, names))
    && (key == "parent_executable_names_any" ==> exists parent :: IsParent(b, p, parent) && Listed(parent, names))
    && (key == "process_path_contains_any" ==> Mentions(p.path, names))
  }

  lemma OneListAsks(key: string, names: seq<string>, b: Batch, p: ProcessObs)
    requires key != "case_insensitive"
    ensures ProcessSatisfies(map[key := Strs(names)], b, p) <==> Asks(key, names, b, p)
  {
    var pm := map[key := Strs(names)];
    ListedIs(pm, key, p.name, names);
    ListedIs(pm, key, p.commandLine, names);
    ListedIs(pm, key, p.path, names);
    ListedIs(pm, key, ParentName(b, p), names);
    assert forall parent :: IsParent(b, p, parent) <==> parent == ParentName(b, p);
    assert CaseInsensitive(pm);
  }

  /** A process document with one list matches exactly when some process of the batch answers that list. */
  lemma ProcessDocHolds(key: string, names: seq<string>, b: Batch)
    requires key != "case_insensitive"
    ensures Holds(ProcessDoc(key, names), b) <==> exists g :: g in b.processes && Asks(key, names, b, b.processes[g])
  {
    var pm := map[key := Strs(names)];
    var c := ProcessDoc(key, names);
    assert c.fields["process"] == Obj(pm);
    assert ShapeOf(c) == Process(pm);
    forall g | g in b.processes ensures Passes(pm, b, g) <==> Asks(key, names, b, b.processes[g]) {
      OneListAsks(key, names, b, b.processes[g]);
    }
  }

  /** A DNS document matches exactly when some query of the batch mentions one of its texts. */
  lemma DnsDocHolds(texts: seq<string>, b: Batch)
    ensures Holds(Obj(map["dns" := Obj(map["query_contains_any" := Strs(texts)])]), b) <==>
            exists i :: 0 <= i < |b.dns| && Mentions(b.dns[i].query, texts)
  {
    var dm := map["query_contains_any" := Strs(texts)];
    var c := Obj(map["dns" := Obj(dm)]);
    assert c.fields["dns"] == Obj(dm);
    assert ShapeOf(c) == Dns(dm);
    forall i | 0 <= i < |b.dns| ensures DnsSatisfies(dm, b.dns[i]) <==> Mentions(b.dns[i].query, texts) {
      ListedIs(dm, "query_contains_any", b.dns[i].query, texts);
    }
  }

  /** A flow goes to a listed port. A number of more than 16 bits stands for its low 16 bits, and no numbers for any flow. */
  ghost predicate ToPort(fl: FlowObs, ports: seq<U64>) {
    ports == [] || exists i :: 0 <= i < |ports| && fl.remotePort == Some(ports[i] % 0x1_0000)
  }

  /** Flow documents: a port list, a host list, and the flag for any flow at all. */
  lemma FlowDocsHold(ports: seq<U64>, texts: seq<string>, b: Batch)
    ensures Holds(FlowDoc("remote_ports_any", Numbers(ports)), b) <==>
            exists i :: 0 <= i < |b.flows| && ToPort(b.flows[i], ports)
    ensures Holds(FlowDoc("remote_host_contains_any", Strs(texts)), b) <==>
            exists i :: 0 <= i < |b.flows| && Mentions(b.flows[i].remoteHostname, texts)
    ensures Holds(FlowDoc("has_any_flow", Bool(true)), b) <==> b.flows != []
  {
    PortDocHolds(ports, b);
    HostDocHolds(texts, b);
    var fm := map["has_any_flow" := Bool(true)];
    var c := FlowDoc("has_any_flow", Bool(true));
    assert c.fields["flow"] == Obj(fm);
    assert ShapeOf(c) == Flow(fm);
    if b.flows != [] {
      assert FlowSatisfies(fm, b.flows[0]);
    }
  }

  lemma PortDocHolds(ports: seq<U64>, b: Batch)
    ensures Holds(FlowDoc("remote_ports_any", Numbers(ports)), b) <==>
            exists i :: 0 <= i < |b.flows| && ToPort(b.flows[i], ports)
  {
    var fm, c := map["remote_ports_any" := Numbers(ports)], FlowDoc("remote_ports_any", Numbers(ports));
    assert c.fields["flow"] == Obj(fm);
    assert ShapeOf(c) == Flow(fm);
    forall i | 0 <= i < |b.flows| ensures FlowSatisfies(fm, b.flows[i]) <==> ToPort(b.flows[i], ports) {
      PortsAsk(fm, b.flows[i], ports);
    }
  }

  lemma PortsAsk(fm: map<string, Value>, fl: FlowObs, ports: seq<U64>)
    requires fm == map["remote_ports_any" := Numbers(ports)]
    ensures FlowSatisfies(fm, fl) <==> ToPort(fl, ports)
  {
    var items := fm["remote_ports_any"].items;
    assert |items| == |ports| && forall k :: 0 <= k < |ports| ==> items[k] == UInt(ports[k]);
    if ToPort(fl, ports) && ports != [] {
      var k :| 0 <= k < |ports| && fl.remotePort == Some(ports[k] % 0x1_0000);
      assert items[k].UInt? && items[k].n % 0x1_0000 == fl.remotePort.value;
    }
  }

  lemma HostDocHolds(texts: seq<string>, b: Batch)
    ensures Holds(FlowDoc("remote_host_contains_any", Strs(texts)), b) <==>
            exists i :: 0 <= i < |b.flows| && Mentions(b.flows[i].remoteHostname, texts)
  {
    var fm, c := map["remote_host_contains_any" := Strs(texts)], FlowDoc("remote_host_contains_any", Strs(texts));
    assert c.fields["flow"] == Obj(fm);
    assert ShapeOf(c) == Flow(fm);
    forall i | 0 <= i < |b.flows| ensures FlowSatisfies(fm, b.flows[i]) <==> Mentions(b.flows[i].remoteHostname, texts) {
      ListedIs(fm, "remote_host_contains_any", b.flows[i].remoteHostname, texts);
    }
  }

  // ---- flags -------------------------------------------------------------------------------------

  /** Only the value true sets the any-flow flag: any other stands for none. */
  lemma OtherFlagIsNone(fm: map<string, Value>, v: Value, fl: FlowObs)
    requires v != Bool(true)
    ensures FlowSatisfies(fm["has_any_flow" := v], fl) <==> FlowSatisfies(fm - {"has_any_flow"}, fl)
  {
    var with_, without := fm["has_any_flow" := v], fm - {"has_any_flow"};
    SameList(with_, without, "remote_ports_any", "has_any_flow");
    SameList(with_, without, "remote_host_contains_any", "has_any_flow");
  }

  lemma SameList(a: map<string, Value>, b: map<string, Value>, key: string, other: string)
    requires key != other && a - {other} == b - {other}
    ensures HasArray(a, key) <==> HasArray(b, key)
    ensures HasArray(a, key) ==> a[key] == b[key]
  {
    assert key in a <==> key in a - {other};
    assert key in b <==> key in b - {other};
    if key in a {
      assert (a - {other})[key] == a[key] && (b - {other})[key] == b[key];
    }
  }

  /** Only the value false asks for letter case: any other stands for none, and none disregards case. */
  lemma OtherCaseIsNone(pm: map<string, Value>, v: Value, b: Batch, p: ProcessObs)
    requires v != Bool(false)
    ensures ProcessSatisfies(pm["case_insensitive" := v], b, p) <==> ProcessSatisfies(pm - {"case_insensitive"}, b, p)
  {
    var with_, without := pm["case_insensitive" := v], pm - {"case_insensitive"};
    SameList(with_, without, "executable_names_any", "case_insensitive");
    SameList(with_, without, "executable_name_contains_any", "case_insensitive");
    SameList(with_, without, "command_line_contains_any", "case_insensitive");
    SameList(with_, without, "parent_executable_names_any", "case_insensitive");
    SameList(with_, without, "process_path_contains_any", "case_insensitive");
  }
}
