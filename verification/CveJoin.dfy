/**
 The incremental join of package mappings with CVE documents: two caches filled
 from two feeds in any interleaving, one enriched record published per match.
 */
module CveJoin {
  import opened Prelude
  import opened ColonKeys

  datatype Cve = Cve(id: string, document: string)

  datatype Candidate = Candidate(cveId: Option<string>, detail: string)

  datatype Mapping = Mapping(hostId: Option<string>, packageName: Option<string>, candidates: seq<Candidate>, document: string)

  datatype Record = Record(mapping: Mapping, candidate: Candidate, cve: Cve)

  /** A message of either feed; a CVE update without an id is ignored, as is one that does not parse. */
  datatype Message = CveUpdate(cveId: Option<string>, document: string) | PkgCve(mapping: Mapping) | Unparsable

  /** The key text formats a missing field as "None". */
  function Text(s: Option<string>): string {
    if s.Some? then s.value else "None"
  }

  function CacheKey(m: Mapping): string {
    Joined(Text(m.hostId), Text(m.packageName))
  }

  /** Both caches (the mapping cache with its insertion order) and everything published. */
  datatype State = State(cves: map<string, Cve>, keys: seq<string>, mappings: map<string, Mapping>, out: seq<Record>)

  const EMPTY := State(map[], [], map[], [])

  ghost predicate Valid(s: State) {
    && (forall k :: k in s.mappings <==> k in s.keys)
    && (forall i, j :: 0 <= i < j < |s.keys| ==> s.keys[i] != s.keys[j])
    && (forall k :: k in s.mappings ==> CacheKey(s.mappings[k]) == k)
    && (forall id :: id in s.cves ==> id != "" && s.cves[id].id == id)
  }

  // ---- the specification -----------------------------------------------------------------

  function IfCached(m: Mapping, c: Candidate, cves: map<string, Cve>): seq<Record> {
    if c.cveId.Some? && c.cveId.value in cves then [Record(m, c, cves[c.cveId.value])] else []
  }

  /** Records for the first `n` candidates of a mapping whose CVE is already known. */
  function ForMapping(m: Mapping, n: nat, cves: map<string, Cve>): seq<Record>
    requires n <= |m.candidates|
  {
    if n == 0 then [] else ForMapping(m, n - 1, cves) + IfCached(m, m.candidates[n - 1], cves)
  }

  function IfNamed(m: Mapping, c: Candidate, v: Cve): seq<Record> {
    if c.cveId == Some(v.id) then [Record(m, c, v)] else []
  }

  /** Records for the first `n` candidates of a mapping that name this CVE. */
  function ForPair(m: Mapping, n: nat, v: Cve): seq<Record>
    requires n <= |m.candidates|
  {
    if n == 0 then [] else ForPair(m, n - 1, v) + IfNamed(m, m.candidates[n - 1], v)
  }

  /** Records for this CVE over the first `n` cached mappings. */
  function ForCve(keys: seq<string>, n: nat, mappings: map<string, Mapping>, v: Cve): seq<Record>
    requires n <= |keys| && forall i :: 0 <= i < |keys| ==> keys[i] in mappings
  {
    if n == 0 then []
    else
      var m := mappings[keys[n - 1]];
      ForCve(keys, n - 1, mappings, v) + ForPair(m, |m.candidates|, v)
  }

  function Step(s: State, msg: Message): State
    requires Valid(s)
  {
    match msg
    case Unparsable => s
    case CveUpdate(None, _) => s
    case CveUpdate(Some(id), document) =>
      if id == "" then s
      else
        var v := Cve(id, document);
        s.(cves := s.cves[id := v], out := s.out + ForCve(s.keys, |s.keys|, s.mappings, v))
    case PkgCve(m) =>
      var k := CacheKey(m);
      s.(keys := if k in s.mappings then s.keys else s.keys + [k],
         mappings := s.mappings[k := m],
         out := s.out + ForMapping(m, |m.candidates|, s.cves))
  }

  lemma StepKeepsValid(s: State, msg: Message)
    requires Valid(s)
    ensures Valid(Step(s, msg))
  {
  }

  function Run(msgs: seq<Message>): (s: State)
    ensures Valid(s)
  {
    if msgs == [] then EMPTY
    else
      var s := Run(msgs[..|msgs| - 1]);
      StepKeepsValid(s, msgs[|msgs| - 1]);
      Step(s, msgs[|msgs| - 1])
  }

  // ---- the consumer ----------------------------------------------------------------------

  class EventConsumer {
    var cveCache: map<string, Cve>
    var pkgKeys: seq<string>
    var pkgCveCache: map<string, Mapping>
    var published: seq<Record>

    function Contents(): State
      reads this
    {
      State(cveCache, pkgKeys, pkgCveCache, published)
    }

    constructor ()
      ensures Contents() == EMPTY
    {
      cveCache, pkgKeys, pkgCveCache, published := map[], [], map[], [];
    }

    /** Builds the enriched record and publishes it. */
    method ProcessPkgCveEnrichment(m: Mapping, c: Candidate, v: Cve)
      modifies this`published
      ensures published == old(published) + [Record(m, c, v)]
    {
      published := published + [Record(m, c, v)];
    }

    method HandleCveUpdate(cveId: Option<string>, document: string)
      requires Valid(Contents())
      modifies this
      ensures Contents() == Step(old(Contents()), CveUpdate(cveId, document))
    {
      if cveId.Some? && cveId.value != "" {
        cveCache := cveCache[cveId.value := Cve(cveId.value, document)];
        ProcessPendingPkgCveMappings(cveId.value);
      }
    }

    /** Visits every cached mapping and every candidate that names the CVE. */
    method ProcessPendingPkgCveMappings(cveId: string)
      requires forall i :: 0 <= i < |pkgKeys| ==> pkgKeys[i] in pkgCveCache
      requires cveId in cveCache && cveCache[cveId].id == cveId
      modifies this`published
      ensures published == old(published) + ForCve(pkgKeys, |pkgKeys|, pkgCveCache, cveCache[cveId])
    {
      var v := cveCache[cveId];
      ghost var start := published;
      for i := 0 to |pkgKeys|
        invariant published == start + ForCve(pkgKeys, i, pkgCveCache, v)
      {
        var m := pkgCveCache[pkgKeys[i]];
        ghost var before := published;
        for j := 0 to |m.candidates|
          invariant published == before + ForPair(m, j, v)
        {
          ConcatAssociates(before, ForPair(m, j, v), IfNamed(m, m.candidates[j], v));
          if m.candidates[j].cveId == Some(cveId) {
            ProcessPkgCveEnrichment(m, m.candidates[j], v);
          }
        }
        ConcatAssociates(start, ForCve(pkgKeys, i, pkgCveCache, v), ForPair(m, |m.candidates|, v));
      }
    }

    method HandlePkgCveMapping(m: Mapping)
      requires Valid(Contents())
      modifies this
      ensures Contents() == Step(old(Contents()), PkgCve(m))
    {
      var key := CacheKey(m);
      if key !in pkgCveCache {
        pkgKeys := pkgKeys + [key];
      }
      pkgCveCache := pkgCveCache[key := m];
      ghost var start := published;
      for j := 0 to |m.candidates|
        invariant cveCache == old(cveCache) && pkgCveCache == old(pkgCveCache)[key := m]
        invariant pkgKeys == if key in old(pkgCveCache) then old(pkgKeys) else old(pkgKeys) + [key]
        invariant published == start + ForMapping(m, j, cveCache)
      {
        var c := m.candidates[j];
        ConcatAssociates(start, ForMapping(m, j, cveCache), IfCached(m, c, cveCache));
        if c.cveId.Some? && c.cveId.value in cveCache {
          ProcessPkgCveEnrichment(m, c, cveCache[c.cveId.value]);
        }
      }
    }
  }

  // ---- counting published records ----------------------------------------------------------

  /** Occurrences of `x` in `s`. */
  ghost function Count<T>(s: seq<T>, x: T): nat {
    if s == [] then 0 else Count(s[..|s| - 1], x) + if s[|s| - 1] == x then 1 else 0
  }

  lemma {:induction false} CountConcat<T>(a: seq<T>, b: seq<T>, x: T)
    ensures Count(a + b, x) == Count(a, x) + Count(b, x)
  {
    if b == [] {
      assert a + b == a;
    } else {
      CountConcat(a, b[..|b| - 1], x);
      assert (a + b)[..|a + b| - 1] == a + b[..|b| - 1];
    }
  }

  lemma CountSum<T>(whole: seq<T>, a: seq<T>, b: seq<T>, x: T)
    requires whole == a + b
    ensures Count(whole, x) == Count(a, x) + Count(b, x)
  {
    CountConcat(a, b, x);
  }

  lemma CountOne<T>(y: T, x: T)
    ensures Count([y], x) == if y == x then 1 else 0
  {
    assert [y][..0] == [];
  }

  lemma CountPrefix<T>(s: seq<T>, n: nat, x: T)
    requires 0 < n <= |s|
    ensures Count(s[..n], x) == Count(s[..n - 1], x) + if s[n - 1] == x then 1 else 0
  {
    assert s[..n][..n - 1] == s[..n - 1];
  }

  lemma {:induction false} CountIsMultiplicity<T>(s: seq<T>, x: T)
    ensures Count(s, x) == multiset(s)[x]
  {
    if s != [] {
      CountIsMultiplicity(s[..|s| - 1], x);
      assert s == s[..|s| - 1] + [s[|s| - 1]];
    }
  }

  /** The record's candidate names its CVE and the cache holds that CVE. */
  ghost predicate Cached(cves: map<string, Cve>, r: Record) {
    r.candidate.cveId == Some(r.cve.id) && r.cve.id in cves && cves[r.cve.id] == r.cve
  }

  lemma CountIfCached(m: Mapping, c: Candidate, cves: map<string, Cve>, r: Record)
    requires forall id :: id in cves ==> cves[id].id == id
    ensures Count(IfCached(m, c, cves), r) == if r.mapping == m && r.candidate == c && Cached(cves, r) then 1 else 0
  {
    if c.cveId.Some? && c.cveId.value in cves {
      CountOne(Record(m, c, cves[c.cveId.value]), r);
    }
  }

  lemma {:induction false} CountForMapping(m: Mapping, n: nat, cves: map<string, Cve>, r: Record)
    requires n <= |m.candidates| && forall id :: id in cves ==> cves[id].id == id
    ensures Count(ForMapping(m, n, cves), r) ==
            if r.mapping == m && Cached(cves, r) then Count(m.candidates[..n], r.candidate) else 0
  {
    if n > 0 {
      var c := m.candidates[n - 1];
      CountForMapping(m, n - 1, cves, r);
      CountPrefix(m.candidates, n, r.candidate);
      CountConcat(ForMapping(m, n - 1, cves), IfCached(m, c, cves), r);
      CountIfCached(m, c, cves, r);
    }
  }

  lemma {:induction false} CountForPair(m: Mapping, n: nat, v: Cve, r: Record)
    requires n <= |m.candidates|
    ensures Count(ForPair(m, n, v), r) ==
            if r.mapping == m && r.cve == v && r.candidate.cveId == Some(v.id) then Count(m.candidates[..n], r.candidate) else 0
  {
    if n > 0 {
      var c := m.candidates[n - 1];
      CountForPair(m, n - 1, v, r);
      CountPrefix(m.candidates, n, r.candidate);
      CountConcat(ForPair(m, n - 1, v), IfNamed(m, c, v), r);
      CountOne(Record(m, c, v), r);
    }
  }

  /** `k` is one of the first `n` keys. */
  ghost predicate Among(keys: seq<string>, n: nat, k: string)
    requires n <= |keys|
  {
    n > 0 && (keys[n - 1] == k || Among(keys, n - 1, k))
  }

  lemma {:induction false} AmongIsMembership(keys: seq<string>, n: nat, k: string)
    requires n <= |keys|
    ensures Among(keys, n, k) <==> exists i :: 0 <= i < n && keys[i] == k
  {
    if n > 0 {
      AmongIsMembership(keys, n - 1, k);
    }
  }

  /** The record joins mapping `r.mapping`, as cached, with this CVE. */
  ghost predicate Pairs(s: State, v: Cve, r: Record) {
    && CacheKey(r.mapping) in s.mappings && s.mappings[CacheKey(r.mapping)] == r.mapping
    && r.cve == v && r.candidate.cveId == Some(v.id)
  }

  /** How often the first `n` mappings give the record, mapping by mapping. */
  ghost function PairCount(s: State, n: nat, v: Cve, r: Record): nat
    requires Valid(s) && n <= |s.keys|
  {
    if n == 0 then 0
    else
      var m := s.mappings[s.keys[n - 1]];
      PairCount(s, n - 1, v, r) + Count(ForPair(m, |m.candidates|, v), r)
  }

  lemma {:induction false} CountIsPairCount(s: State, n: nat, v: Cve, r: Record)
    requires Valid(s) && n <= |s.keys|
    ensures Count(ForCve(s.keys, n, s.mappings, v), r) == PairCount(s, n, v, r)
  {
    if n > 0 {
      var m := s.mappings[s.keys[n - 1]];
      CountIsPairCount(s, n - 1, v, r);
      CountSum(ForCve(s.keys, n, s.mappings, v), ForCve(s.keys, n - 1, s.mappings, v), ForPair(m, |m.candidates|, v), r);
    }
  }

  /** Only the mapping cached under the record's own key counts. */
  lemma {:induction false} PairCountIs(s: State, n: nat, v: Cve, r: Record)
    requires Valid(s) && n <= |s.keys|
    ensures PairCount(s, n, v, r) ==
            if Pairs(s, v, r) && Among(s.keys, n, CacheKey(r.mapping)) then Count(r.mapping.candidates, r.candidate) else 0
  {
    if n > 0 {
      var k := s.keys[n - 1];
      var m := s.mappings[k];
      PairCountIs(s, n - 1, v, r);
      CountForPair(m, |m.candidates|, v, r);
      assert m.candidates[..|m.candidates|] == m.candidates;
      AmongIsMembership(s.keys, n - 1, k);
      if r.mapping == m {
        assert CacheKey(r.mapping) == k && !Among(s.keys, n - 1, k);
      }
    }
  }

  lemma CountForCve(s: State, n: nat, v: Cve, r: Record)
    requires Valid(s) && n <= |s.keys|
    ensures Count(ForCve(s.keys, n, s.mappings, v), r) ==
            if Pairs(s, v, r) && Among(s.keys, n, CacheKey(r.mapping)) then Count(r.mapping.candidates, r.candidate) else 0
  {
    CountIsPairCount(s, n, v, r);
    PairCountIs(s, n, v, r);
  }

  // ---- freshness ----------------------------------------------------------------------------

  predicate About(r: Record, key: string, id: string) {
    CacheKey(r.mapping) == key && r.candidate.cveId == Some(id)
  }

  /** The most recently published record about a (cache key, CVE id) pair. */
  function LastAbout(out: seq<Record>, key: string, id: string): Option<Record> {
    if out == [] then None
    else if About(out[|out| - 1], key, id) then Some(out[|out| - 1])
    else LastAbout(out[..|out| - 1], key, id)
  }

  /** The last of the first `n` candidates that names the CVE. */
  function LastNaming(candidates: seq<Candidate>, n: nat, id: string): Option<Candidate>
    requires n <= |candidates|
  {
    if n == 0 then None
    else if candidates[n - 1].cveId == Some(id) then Some(candidates[n - 1])
    else LastNaming(candidates, n - 1, id)
  }

  lemma {:induction false} LastAboutConcat(a: seq<Record>, b: seq<Record>, key: string, id: string)
    ensures LastAbout(a + b, key, id) == if LastAbout(b, key, id).Some? then LastAbout(b, key, id) else LastAbout(a, key, id)
  {
    if b == [] {
      assert a + b == a;
    } else {
      LastAboutConcat(a, b[..|b| - 1], key, id);
      assert (a + b)[..|a + b| - 1] == a + b[..|b| - 1];
    }
  }

  lemma LastAboutSum(whole: seq<Record>, a: seq<Record>, b: seq<Record>, key: string, id: string)
    requires whole == a + b
    ensures LastAbout(whole, key, id) == if LastAbout(b, key, id).Some? then LastAbout(b, key, id) else LastAbout(a, key, id)
  {
    LastAboutConcat(a, b, key, id);
  }

  lemma LastAboutOne(r: Record, key: string, id: string)
    ensures LastAbout([r], key, id) == if About(r, key, id) then Some(r) else None
  {
    assert [r][..0] == [];
  }

  lemma LastIfCached(m: Mapping, c: Candidate, cves: map<string, Cve>, key: string, id: string)
    ensures LastAbout(IfCached(m, c, cves), key, id) ==
            if key == CacheKey(m) && c.cveId == Some(id) && id in cves then Some(Record(m, c, cves[id])) else None
  {
    if c.cveId.Some? && c.cveId.value in cves {
      LastAboutOne(Record(m, c, cves[c.cveId.value]), key, id);
    }
  }

  /** The last record about the pair among the first `n` candidates' records, candidate by candidate. */
  function LastMade(m: Mapping, n: nat, cves: map<string, Cve>, key: string, id: string): Option<Record>
    requires n <= |m.candidates|
  {
    if n == 0 then None
    else
      var here := LastAbout(IfCached(m, m.candidates[n - 1], cves), key, id);
      if here.Some? then here else LastMade(m, n - 1, cves, key, id)
  }

  lemma {:induction false} LastIsLastMade(m: Mapping, n: nat, cves: map<string, Cve>, key: string, id: string)
    requires n <= |m.candidates|
    ensures LastAbout(ForMapping(m, n, cves), key, id) == LastMade(m, n, cves, key, id)
  {
    if n > 0 {
      LastIsLastMade(m, n - 1, cves, key, id);
      LastAboutSum(ForMapping(m, n, cves), ForMapping(m, n - 1, cves), IfCached(m, m.candidates[n - 1], cves), key, id);
    }
  }

  lemma {:induction false} LastMadeIs(m: Mapping, n: nat, cves: map<string, Cve>, key: string, id: string)
    requires n <= |m.candidates|
    ensures var c := LastNaming(m.candidates, n, id);
            LastMade(m, n, cves, key, id) ==
            if key == CacheKey(m) && c.Some? && id in cves then Some(Record(m, c.value, cves[id])) else None
  {
    if n > 0 {
      LastMadeIs(m, n - 1, cves, key, id);
      LastIfCached(m, m.candidates[n - 1], cves, key, id);
    }
  }

  lemma LastForMapping(m: Mapping, n: nat, cves: map<string, Cve>, key: string, id: string)
    requires n <= |m.candidates|
    ensures var c := LastNaming(m.candidates, n, id);
            LastAbout(ForMapping(m, n, cves), key, id) ==
            if key == CacheKey(m) && c.Some? && id in cves then Some(Record(m, c.value, cves[id])) else None
  {
    LastIsLastMade(m, n, cves, key, id);
    LastMadeIs(m, n, cves, key, id);
  }

  lemma LastIfNamed(m: Mapping, c: Candidate, v: Cve, key: string, id: string)
    ensures LastAbout(IfNamed(m, c, v), key, id) ==
            if key == CacheKey(m) && id == v.id && c.cveId == Some(id) then Some(Record(m, c, v)) else None
  {
    LastAboutOne(Record(m, c, v), key, id);
  }

  lemma {:induction false} LastForPair(m: Mapping, n: nat, v: Cve, key: string, id: string)
    requires n <= |m.candidates|
    ensures var c := LastNaming(m.candidates, n, id);
            LastAbout(ForPair(m, n, v), key, id) ==
            if key == CacheKey(m) && id == v.id && c.Some? then Some(Record(m, c.value, v)) else None
  {
    if n > 0 {
      LastForPair(m, n - 1, v, key, id);
      LastAboutSum(ForPair(m, n, v), ForPair(m, n - 1, v), IfNamed(m, m.candidates[n - 1], v), key, id);
      LastIfNamed(m, m.candidates[n - 1], v, key, id);
    }
  }

  lemma {:induction false} LastForCve(s: State, n: nat, v: Cve, key: string, id: string)
    requires Valid(s) && n <= |s.keys|
    ensures var last := LastAbout(ForCve(s.keys, n, s.mappings, v), key, id);
            if id == v.id && Among(s.keys, n, key) && key in s.mappings
               && LastNaming(s.mappings[key].candidates, |s.mappings[key].candidates|, id).Some?
            then last == Some(Record(s.mappings[key], LastNaming(s.mappings[key].candidates, |s.mappings[key].candidates|, id).value, v))
            else last == None
  {
    if n > 0 {
      var m := s.mappings[s.keys[n - 1]];
      LastForCve(s, n - 1, v, key, id);
      LastForPair(m, |m.candidates|, v, key, id);
      LastAboutConcat(ForCve(s.keys, n - 1, s.mappings, v), ForPair(m, |m.candidates|, v), key, id);
      assert CacheKey(m) == s.keys[n - 1] && ForCve(s.keys, n, s.mappings, v) == ForCve(s.keys, n - 1, s.mappings, v) + ForPair(m, |m.candidates|, v);
      AmongIsMembership(s.keys, n - 1, s.keys[n - 1]);
      AmongIsMembership(s.keys, n - 1, key);
    }
  }

  /** What the last record about a pair must be, given the caches: the join of the cached versions. */
  function Current(s: State, key: string, id: string): Option<Record> {
    if key in s.mappings && id in s.cves then
      var m := s.mappings[key];
      var c := LastNaming(m.candidates, |m.candidates|, id);
      if c.Some? then Some(Record(m, c.value, s.cves[id])) else None
    else None
  }

  lemma StepKeepsFresh(s: State, msg: Message, key: string, id: string)
    requires Valid(s)
    requires Current(s, key, id).Some? ==> LastAbout(s.out, key, id) == Current(s, key, id)
    ensures Current(Step(s, msg), key, id).Some? ==> LastAbout(Step(s, msg).out, key, id) == Current(Step(s, msg), key, id)
  {
    match msg {
      case PkgCve(m) => MappingKeepsFresh(s, m, key, id);
      case CveUpdate(Some(i), document) => CveKeepsFresh(s, i, document, key, id);
      case _ =>
    }
  }

  lemma MappingKeepsFresh(s: State, m: Mapping, key: string, id: string)
    requires Valid(s)
    requires Current(s, key, id).Some? ==> LastAbout(s.out, key, id) == Current(s, key, id)
    ensures var s' := Step(s, PkgCve(m)); Current(s', key, id).Some? ==> LastAbout(s'.out, key, id) == Current(s', key, id)
  {
    LastForMapping(m, |m.candidates|, s.cves, key, id);
    LastAboutConcat(s.out, ForMapping(m, |m.candidates|, s.cves), key, id);
  }

  lemma CveKeepsFresh(s: State, i: string, document: string, key: string, id: string)
    requires Valid(s)
    requires Current(s, key, id).Some? ==> LastAbout(s.out, key, id) == Current(s, key, id)
    ensures var s' := Step(s, CveUpdate(Some(i), document));
            Current(s', key, id).Some? ==> LastAbout(s'.out, key, id) == Current(s', key, id)
  {
    var v := Cve(i, document);
    LastForCve(s, |s.keys|, v, key, id);
    LastAboutConcat(s.out, ForCve(s.keys, |s.keys|, s.mappings, v), key, id);
    AmongIsMembership(s.keys, |s.keys|, key);
  }

  /**
   With any repetitions and in any order, the last record published for a pair the
   caches currently join was built from the currently cached mapping and CVE.
   */
  lemma {:induction false} LastRecordIsCurrent(msgs: seq<Message>, key: string, id: string)
    ensures Current(Run(msgs), key, id).Some? ==> LastAbout(Run(msgs).out, key, id) == Current(Run(msgs), key, id)
    decreases |msgs|
  {
    if msgs != [] {
      var n := |msgs| - 1;
      LastRecordIsCurrent(msgs[..n], key, id);
      StepKeepsFresh(Run(msgs[..n]), msgs[n], key, id);
    }
  }
}
