/**
 Monotonicity of the rule language: when more observations can turn a true clause
 false, exactly, for process leaves over all batches and over batches whose
 processes have the tree of parents an operating system gives them.
 */
module PackMonotone {
  import opened Prelude
  import opened PackSemantics

  /** Every observation of `b` is still in `b'`. */
  ghost predicate Extends(b: Batch, b': Batch) {
    && (forall g :: g in b.processes ==> g in b'.processes && b'.processes[g] == b.processes[g])
    && (forall i :: 0 <= i < |b.dns| ==> b.dns[i] in b'.dns)
    && (forall i :: 0 <= i < |b.flows| ==> b.flows[i] in b'.flows)
  }

  /** No process of `b` has its parent arrive only in `b'`. */
  ghost predicate NoLateParents(b: Batch, b': Batch) {
    forall g :: g in b.processes && b.processes[g].parentGuid in b'.processes ==> b.processes[g].parentGuid in b.processes
  }

  const PARENTS := "parent_executable_names_any"

  ghost predicate ListsParent(pm: map<string, Value>, name: string) {
    NamedBy(pm, PARENTS, name, CaseInsensitive(pm))
  }

  predicate ListsEmptyParent(pm: map<string, Value>) {
    HasArray(pm, PARENTS) && Str("") in pm[PARENTS].items
  }

  /** The process passes the four tests that look at it alone. */
  ghost predicate MeetsOwnTests(pm: map<string, Value>, p: ProcessObs) {
    var ci := CaseInsensitive(pm);
    && NamedBy(pm, "executable_names_any", p.name, ci)
    && ContainedBy(pm, "executable_name_contains_any", p.name, ci)
    && ContainedBy(pm, "command_line_contains_any", p.commandLine, ci)
    && ContainedBy(pm, "process_path_contains_any", p.path, ci)
  }

  lemma PassesIs(pm: map<string, Value>, b: Batch, g: string)
    ensures Passes(pm, b, g) <==>
            g in b.processes && MeetsOwnTests(pm, b.processes[g]) && ListsParent(pm, ParentName(b, b.processes[g]))
  {
  }

  /** Listing the empty name is listing the empty string: no other string has its length. */
  lemma EmptyNameListed(pm: map<string, Value>)
    requires HasArray(pm, PARENTS)
    ensures ListsParent(pm, "") <==> Str("") in pm[PARENTS].items
  {
    var arr, ci := pm[PARENTS].items, CaseInsensitive(pm);
    forall i | 0 <= i < |arr| && arr[i].Str? ensures SameName("", arr[i].s, ci) <==> arr[i] == Str("") {
      assert |Lower(arr[i].s)| == |arr[i].s| && |Lower("")| == 0;
    }
    if Str("") in arr {
      var i :| 0 <= i < |arr| && arr[i] == Str("");
      assert SameName("", arr[i].s, ci);
    }
  }

  lemma ProcessStillPasses(pm: map<string, Value>, b: Batch, b': Batch, g: string)
    requires Extends(b, b') && Passes(pm, b, g)
    requires NoLateParents(b, b') || !ListsEmptyParent(pm)
    ensures Passes(pm, b', g)
  {
    PassesIs(pm, b, g);
    PassesIs(pm, b', g);
    var p := b.processes[g];
    if HasArray(pm, PARENTS) {
      EmptyNameListed(pm);
      assert ParentName(b, p) != "" || NoLateParents(b, b') ==> ParentName(b', p) == ParentName(b, p);
    }
  }

  // ---- the exact condition for process leaves -------------------------------------------------

  /** No extension makes the leaf false once it is true. */
  ghost predicate LeafMonotone(pm: map<string, Value>) {
    forall b, b', g :: Extends(b, b') && Passes(pm, b, g) ==> exists h :: Passes(pm, b', h)
  }

  /** Parents come before their children. */
  ghost predicate ParentTree(b: Batch, rank: map<string, nat>) {
    forall g :: g in b.processes ==>
      var p := b.processes[g].parentGuid;
      g in rank && (p != "" && p in b.processes ==> p in rank && rank[p] < rank[g])
  }

  /** No extension to a batch without parent cycles makes the leaf false once it is true. */
  ghost predicate LeafMonotoneOnTrees(pm: map<string, Value>) {
    forall b, b', rank, g :: Extends(b, b') && ParentTree(b', rank) && Passes(pm, b, g) ==> exists h :: Passes(pm, b', h)
  }

  /** Some process passes the leaf's own tests. */
  ghost predicate Satisfiable(pm: map<string, Value>) {
    exists p :: MeetsOwnTests(pm, p)
  }

  /** Some process fails the leaf's own tests and is not listed as a parent. */
  ghost predicate Escapable(pm: map<string, Value>) {
    exists p: ProcessObs :: !MeetsOwnTests(pm, p) && !ListsParent(pm, p.name)
  }

  /** A leaf is monotone on all batches unless it lists the empty parent name and can be satisfied at all. */
  lemma LeafMonotoneIff(pm: map<string, Value>)
    ensures LeafMonotone(pm) <==> !(ListsEmptyParent(pm) && Satisfiable(pm))
  {
    if ListsEmptyParent(pm) && Satisfiable(pm) {
      var p :| MeetsOwnTests(pm, p);
      var name := UnlistedName(pm);
      var child, stranger := p.(parentGuid := "b"), ProcessObs(name, "", "", "b");
      LateParentHides(pm, child, stranger);
    } else {
      forall b, b', g | Extends(b, b') && Passes(pm, b, g) ensures exists h :: Passes(pm, b', h) {
        PassesIs(pm, b, g);
        ProcessStillPasses(pm, b, b', g);
      }
    }
  }

  /** Longer than every listed name. */
  lemma UnlistedName(pm: map<string, Value>) returns (name: string)
    requires HasArray(pm, PARENTS)
    ensures !ListsParent(pm, name)
  {
    name := Longer(pm[PARENTS].items);
    var arr, ci := pm[PARENTS].items, CaseInsensitive(pm);
    forall i | 0 <= i < |arr| && arr[i].Str? ensures !SameName(name, arr[i].s, ci) {
      LongerIsLonger(arr, i);
      assert |Lower(name)| == |name| && |Lower(arr[i].s)| == |arr[i].s|;
    }
  }

  function Longer(arr: seq<Value>): string {
    if arr == [] then "x"
    else Longer(arr[1..]) + if arr[0].Str? then arr[0].s else ""
  }

  lemma {:induction false} LongerIsLonger(arr: seq<Value>, i: nat)
    requires i < |arr| && arr[i].Str?
    ensures |Longer(arr)| > |arr[i].s| && |Longer(arr)| > 0
  {
    LongerIsNonempty(arr[1..]);
    if i > 0 {
      LongerIsLonger(arr[1..], i - 1);
    }
  }

  lemma {:induction false} LongerIsNonempty(arr: seq<Value>)
    ensures |Longer(arr)| > 0
  {
    if arr != [] {
      LongerIsNonempty(arr[1..]);
    }
  }

  /** A child alone passes; once an unlisted parent that does not pass itself arrives, nothing does. */
  lemma LateParentHides(pm: map<string, Value>, child: ProcessObs, parent: ProcessObs)
    requires ListsEmptyParent(pm) && MeetsOwnTests(pm, child) && child.parentGuid == "b" && !ListsParent(pm, parent.name)
    requires !MeetsOwnTests(pm, parent) || parent.parentGuid == "b"
    ensures var b, b' := Batch(map["a" := child], [], []), Batch(map["a" := child, "b" := parent], [], []);
            Extends(b, b') && Passes(pm, b, "a") && forall g :: !Passes(pm, b', g)
  {
    var b, b' := Batch(map["a" := child], [], []), Batch(map["a" := child, "b" := parent], [], []);
    EmptyNameListed(pm);
    PassesIs(pm, b, "a");
    PassesIs(pm, b', "a");
    PassesIs(pm, b', "b");
  }

  /**
   On batches whose processes form a tree, as an operating system's do, a leaf is monotone
   unless it lists the empty parent name, can be satisfied, and can be escaped: otherwise some
   ancestor of the process that passed, at latest the root, passes instead.
   */
  lemma LeafMonotoneOnTreesIff(pm: map<string, Value>)
    ensures LeafMonotoneOnTrees(pm) <==> !(ListsEmptyParent(pm) && Satisfiable(pm) && Escapable(pm))
  {
    if ListsEmptyParent(pm) && Satisfiable(pm) && Escapable(pm) {
      var p :| MeetsOwnTests(pm, p);
      var r: ProcessObs :| !MeetsOwnTests(pm, r) && !ListsParent(pm, r.name);
      var child, root := p.(parentGuid := "b"), r.(parentGuid := "");
      LateParentHides(pm, child, root);
      assert ParentTree(Batch(map["a" := child, "b" := root], [], []), map["a" := 1, "b" := 0]);
    } else {
      forall b, b', rank, g | Extends(b, b') && ParentTree(b', rank) && Passes(pm, b, g) ensures exists h :: Passes(pm, b', h) {
        StillPassesOnTree(pm, b, b', rank, g);
      }
    }
  }

  lemma StillPassesOnTree(pm: map<string, Value>, b: Batch, b': Batch, rank: map<string, nat>, g: string)
    requires Extends(b, b') && ParentTree(b', rank) && Passes(pm, b, g)
    requires !(ListsEmptyParent(pm) && Satisfiable(pm) && Escapable(pm))
    ensures exists h :: Passes(pm, b', h)
  {
    PassesIs(pm, b, g);
    if ListsEmptyParent(pm) {
      var h := PassingAncestor(pm, b', rank, g);
    } else {
      ProcessStillPasses(pm, b, b', g);
    }
  }

  lemma {:induction false} PassingAncestor(pm: map<string, Value>, b: Batch, rank: map<string, nat>, g: string) returns (h: string)
    requires ListsEmptyParent(pm) && !Escapable(pm) && ParentTree(b, rank)
    requires g in b.processes && MeetsOwnTests(pm, b.processes[g])
    ensures Passes(pm, b, h)
    decreases rank[g]
  {
    PassesIs(pm, b, g);
    EmptyNameListed(pm);
    var p := b.processes[g];
    if ListsParent(pm, ParentName(b, p)) {
      h := g;
    } else {
      assert !ListsParent(pm, b.processes[p.parentGuid].name);
      h := PassingAncestor(pm, b, rank, p.parentGuid);
    }
  }

  // ---- whole clauses ----------------------------------------------------------------------------

  /** Every process leaf of the clause is stable: monotone on trees, or on all batches. */
  ghost predicate LeavesStable(c: Value, trees: bool)
    decreases c
  {
    match ShapeOf(c)
    case AllOf(of) => forall i :: 0 <= i < |of| ==> LeavesStable(of[i], trees)
    case AnyOf(of, _) => forall i :: 0 <= i < |of| ==> LeavesStable(of[i], trees)
    case Process(pm) => !(ListsEmptyParent(pm) && Satisfiable(pm) && (trees ==> Escapable(pm)))
    case _ => true
  }

  lemma {:induction false} SubsetSize(a: set<int>, b: set<int>)
    requires a <= b
    ensures |a| <= |b|
  {
    assert |b - a| + |a| == |b| by {
      assert b == (b - a) + a;
    }
  }

  lemma DnsStillMatches(dm: map<string, Value>, b: Batch, b': Batch)
    requires Extends(b, b') && exists i :: 0 <= i < |b.dns| && DnsSatisfies(dm, b.dns[i])
    ensures exists i :: 0 <= i < |b'.dns| && DnsSatisfies(dm, b'.dns[i])
  {
    var i :| 0 <= i < |b.dns| && DnsSatisfies(dm, b.dns[i]);
    var j :| 0 <= j < |b'.dns| && b'.dns[j] == b.dns[i];
    assert DnsSatisfies(dm, b'.dns[j]);
  }

  lemma FlowStillMatches(fm: map<string, Value>, b: Batch, b': Batch)
    requires Extends(b, b') && exists i :: 0 <= i < |b.flows| && FlowSatisfies(fm, b.flows[i])
    ensures exists i :: 0 <= i < |b'.flows| && FlowSatisfies(fm, b'.flows[i])
  {
    var i :| 0 <= i < |b.flows| && FlowSatisfies(fm, b.flows[i]);
    var j :| 0 <= j < |b'.flows| && b'.flows[j] == b.flows[i];
    assert FlowSatisfies(fm, b'.flows[j]);
  }

  lemma ProcessStillMatches(pm: map<string, Value>, b: Batch, b': Batch, rank: map<string, nat>, trees: bool)
    requires Extends(b, b') && (exists g :: Passes(pm, b, g)) && (trees ==> ParentTree(b', rank))
    requires NoLateParents(b, b') || !(ListsEmptyParent(pm) && Satisfiable(pm) && (trees ==> Escapable(pm)))
    ensures exists g :: Passes(pm, b', g)
  {
    var g :| Passes(pm, b, g);
    PassesIs(pm, b, g);
    if NoLateParents(b, b') || !ListsEmptyParent(pm) {
      ProcessStillPasses(pm, b, b', g);
    } else {
      StillPassesOnTree(pm, b, b', rank, g);
    }
  }

  /**
   Extending the batch never turns a true clause false when no known process gains its parent, or
   when every process leaf meets the exact condition, over trees (`trees`, with any ranking that
   shows it) or over all batches.
   */
  lemma {:induction false} LanguageIsMonotone(c: Value, b: Batch, b': Batch, rank: map<string, nat>, trees: bool)
    requires Extends(b, b') && Holds(c, b) && (trees ==> ParentTree(b', rank))
    requires LeavesStable(c, trees) || NoLateParents(b, b')
    ensures Holds(c, b')
    decreases c
  {
    match ShapeOf(c) {
      case AllOf(of) =>
        forall i | 0 <= i < |of| ensures Holds(of[i], b') {
          LanguageIsMonotone(of[i], b, b', rank, trees);
        }
      case AnyOf(of, _) =>
        forall i | 0 <= i < |of| && Holds(of[i], b) ensures Holds(of[i], b') {
          LanguageIsMonotone(of[i], b, b', rank, trees);
        }
        SubsetSize(Holding(of, 0, b), Holding(of, 0, b'));
      case Process(pm) => ProcessStillMatches(pm, b, b', rank, trees);
      case Dns(dm) => DnsStillMatches(dm, b, b');
      case Flow(fm) => FlowStillMatches(fm, b, b');
      case _ =>
    }
  }

  /** A real failure: `bash` without a known parent matches until its parent `systemd`, a root, is observed. */
  lemma LateParentIsNotMonotone()
    ensures var pm := map["executable_names_any" := Arr([Str("bash")]), PARENTS := Arr([Str("")])];
            var c := Obj(map["process" := Obj(pm)]);
            var bash, systemd := ProcessObs("bash", "", "", "b"), ProcessObs("systemd", "", "", "");
            var b, b' := Batch(map["a" := bash], [], []), Batch(map["a" := bash, "b" := systemd], [], []);
            Extends(b, b') && ParentTree(b', map["a" := 1, "b" := 0]) && Holds(c, b) && !Holds(c, b')
  {
    var pm := map["executable_names_any" := Arr([Str("bash")]), PARENTS := Arr([Str("")])];
    var c := Obj(map["process" := Obj(pm)]);
    var bash, systemd := ProcessObs("bash", "", "", "b"), ProcessObs("systemd", "", "", "");
    assert ShapeOf(c) == Process(pm);
    OnlyBash(pm, bash, systemd);
    LateParentHides(pm, bash, systemd);
  }

  lemma OnlyBash(pm: map<string, Value>, bash: ProcessObs, systemd: ProcessObs)
    requires pm == map["executable_names_any" := Arr([Str("bash")]), PARENTS := Arr([Str("")])]
    requires bash.name == "bash" && systemd.name == "systemd"
    ensures MeetsOwnTests(pm, bash) && !MeetsOwnTests(pm, systemd)
    ensures ListsEmptyParent(pm) && !ListsParent(pm, systemd.name)
  {
    assert pm["executable_names_any"].items[0] == Str("bash") && SameName("bash", "bash", true);
    assert |Lower("bash")| == 4 && |Lower("systemd")| == 7 && |Lower("")| == 0;
  }
}
