/**
 What the incremental join publishes, told from the messages alone: the batch join, exactly
 when no mapping is overwritten too early, and always the latest versions last.
 */
module CveHistory {
  import opened Prelude
  import opened ColonKeys
  import opened CveJoin

  // ---- which mappings share a cache entry --------------------------------------------------------

  /** Same host and package, as printed. */
  predicate SamePackage(a: Mapping, b: Mapping) {
    Text(a.hostId) == Text(b.hostId) && Text(a.packageName) == Text(b.packageName)
  }

  /** What is missing prints as "None", so only that text stands for two. */
  lemma SameTextIff(a: Option<string>, b: Option<string>)
    ensures Text(a) == Text(b) <==> a == b || (a == None && b == Some("None")) || (a == Some("None") && b == None)
  {
  }

  /** Another host or package whose name has the colon in another place. */
  ghost predicate Collides(a: Mapping, b: Mapping) {
    || Shifted(Text(a.hostId), Text(a.packageName), Text(b.hostId), Text(b.packageName))
    || Shifted(Text(b.hostId), Text(b.packageName), Text(a.hostId), Text(a.packageName))
  }

  /** Two mappings share a cache entry exactly when they are for one package or collide. */
  lemma SharedEntryIff(a: Mapping, b: Mapping)
    ensures CacheKey(a) == CacheKey(b) <==> SamePackage(a, b) || Collides(a, b)
  {
    SharedKeyIff(Text(a.hostId), Text(a.packageName), Text(b.hostId), Text(b.packageName));
  }

  /** Among hosts without a colon, exactly when they are for one package. */
  lemma PlainEntryIff(a: Mapping, b: Mapping)
    requires NoColon(Text(a.hostId)) && NoColon(Text(b.hostId))
    ensures CacheKey(a) == CacheKey(b) <==> SamePackage(a, b)
    ensures !Collides(a, b)
  {
    PlainKeyIff(Text(a.hostId), Text(a.packageName), Text(b.hostId), Text(b.packageName));
  }

  // ---- what the caches hold ------------------------------------------------------------------------

  /** Message `k` brings a mapping into the entry of `m`. */
  ghost predicate Overwrites(msgs: seq<Message>, k: int, m: Mapping)
    requires 0 <= k < |msgs|
  {
    msgs[k].PkgCve? && (SamePackage(msgs[k].mapping, m) || Collides(msgs[k].mapping, m))
  }

  /** `m` arrived as message `i` and nothing overwrote it before message `n`. */
  ghost predicate Stays(msgs: seq<Message>, m: Mapping, i: int, n: int)
    requires n <= |msgs|
  {
    0 <= i < n && msgs[i] == PkgCve(m) && forall k :: i < k < n ==> !Overwrites(msgs, k, m)
  }

  ghost predicate Holds(s: State, m: Mapping) {
    CacheKey(m) in s.mappings && s.mappings[CacheKey(m)] == m
  }

  lemma HoldsStep(s: State, msg: Message, m: Mapping)
    requires Valid(s)
    ensures Holds(Step(s, msg), m) <==>
            if msg.PkgCve? && (SamePackage(msg.mapping, m) || Collides(msg.mapping, m)) then msg.mapping == m else Holds(s, m)
  {
    if msg.PkgCve? {
      SharedEntryIff(msg.mapping, m);
    }
  }

  lemma StaysStep(msgs: seq<Message>, m: Mapping, i: int)
    requires 0 <= i < |msgs| - 1
    ensures var n := |msgs| - 1; Stays(msgs, m, i, n + 1) <==> Stays(msgs[..n], m, i, n) && !Overwrites(msgs, n, m)
  {
    var n := |msgs| - 1;
    assert forall k :: 0 <= k < n ==> msgs[..n][k] == msgs[k];
    forall k | i < k < n ensures Overwrites(msgs[..n], k, m) <==> Overwrites(msgs, k, m) {
    }
  }

  /** An overwriting message leaves its own mapping. */
  lemma StaysNow(msgs: seq<Message>, m: Mapping)
    requires msgs != [] && Overwrites(msgs, |msgs| - 1, m)
    ensures (exists i :: Stays(msgs, m, i, |msgs|)) <==> msgs[|msgs| - 1] == PkgCve(m)
  {
    if msgs[|msgs| - 1] == PkgCve(m) {
      assert Stays(msgs, m, |msgs| - 1, |msgs|);
    }
  }

  /** Any other message leaves what was there. */
  lemma StaysOn(msgs: seq<Message>, m: Mapping)
    requires msgs != [] && !Overwrites(msgs, |msgs| - 1, m)
    ensures var before := msgs[..|msgs| - 1];
            (exists i :: Stays(msgs, m, i, |msgs|)) <==> exists i :: Stays(before, m, i, |before|)
  {
    var before := msgs[..|msgs| - 1];
    if i :| Stays(msgs, m, i, |msgs|) {
      assert SamePackage(m, m);
      StaysStep(msgs, m, i);
      assert Stays(before, m, i, |before|);
    }
    if i :| Stays(before, m, i, |before|) {
      StaysStep(msgs, m, i);
      assert Stays(msgs, m, i, |msgs|);
    }
  }

  /** The cache holds a mapping exactly when it arrived and nothing has overwritten it since. */
  lemma {:induction false} HoldsIff(msgs: seq<Message>, m: Mapping)
    ensures Holds(Run(msgs), m) <==> exists i :: Stays(msgs, m, i, |msgs|)
    decreases |msgs|
  {
    if msgs != [] {
      var n := |msgs| - 1;
      HoldsIff(msgs[..n], m);
      HoldsStep(Run(msgs[..n]), msgs[n], m);
      if Overwrites(msgs, n, m) {
        StaysNow(msgs, m);
      } else {
        StaysOn(msgs, m);
      }
    }
  }

  predicate IsCve(msg: Message, id: string) {
    msg.CveUpdate? && msg.cveId == Some(id) && id != ""
  }

  /** Message `j` is the last update of that CVE before message `n`. */
  ghost predicate LatestCve(msgs: seq<Message>, id: string, j: int, n: int)
    requires n <= |msgs|
  {
    0 <= j < n && IsCve(msgs[j], id) && forall k :: j < k < n ==> !IsCve(msgs[k], id)
  }

  lemma LatestCveStep(msgs: seq<Message>, id: string, j: int)
    requires 0 <= j < |msgs| - 1
    ensures var n := |msgs| - 1; LatestCve(msgs, id, j, n + 1) <==> LatestCve(msgs[..n], id, j, n) && !IsCve(msgs[n], id)
  {
    var n := |msgs| - 1;
    assert forall k :: 0 <= k < n ==> msgs[..n][k] == msgs[k];
  }

  predicate CacheHas(s: State, id: string, document: string) {
    id in s.cves && s.cves[id] == Cve(id, document)
  }

  /** The cache holds a CVE as its last update left it. */
  lemma {:induction false} CachedCveIff(msgs: seq<Message>, id: string, document: string)
    ensures CacheHas(Run(msgs), id, document) <==> exists j :: LatestCve(msgs, id, j, |msgs|) && msgs[j].document == document
    decreases |msgs|
  {
    if msgs != [] {
      var n := |msgs| - 1;
      CachedCveIff(msgs[..n], id, document);
      if IsCve(msgs[n], id) {
        assert LatestCve(msgs, id, n, n + 1);
      } else {
        assert CacheHas(Run(msgs), id, document) <==> CacheHas(Run(msgs[..n]), id, document);
        if j :| LatestCve(msgs, id, j, |msgs|) && msgs[j].document == document {
          LatestCveStep(msgs, id, j);
        }
        var before := msgs[..n];
        if j :| LatestCve(before, id, j, |before|) && before[j].document == document {
          LatestCveStep(msgs, id, j);
        }
      }
    }
  }

  // ---- once-arriving messages ----------------------------------------------------------------------

  /** Each CVE and each package of each host arrives at most once. */
  ghost predicate ArriveOnce(msgs: seq<Message>) {
    forall i, j :: 0 <= i < j < |msgs| ==> !SameArrival(msgs[i], msgs[j])
  }

  predicate SameArrival(a: Message, b: Message) {
    || (a.CveUpdate? && b.CveUpdate? && a.cveId.Some? && a.cveId == b.cveId && a.cveId.value != "")
    || (a.PkgCve? && b.PkgCve? && SamePackage(a.mapping, b.mapping))
  }

  /** The record's CVE, arriving as message `j`, finds its mapping, arriving as message `i`, or the other way round. */
  ghost predicate Meet(msgs: seq<Message>, r: Record, i: int, j: int) {
    && 0 <= i < |msgs| && 0 <= j < |msgs|
    && msgs[i] == PkgCve(r.mapping) && IsCve(msgs[j], r.cve.id) && msgs[j].document == r.cve.document
    && forall k :: i < k < j ==> !Overwrites(msgs, k, r.mapping)
  }

  ghost predicate Delivered(msgs: seq<Message>, r: Record) {
    r.candidate.cveId == Some(r.cve.id) && exists i, j :: Meet(msgs, r, i, j)
  }

  lemma MeetBefore(msgs: seq<Message>, r: Record, i: int, j: int)
    requires 0 <= i < |msgs| - 1 && 0 <= j < |msgs| - 1
    ensures Meet(msgs, r, i, j) <==> Meet(msgs[..|msgs| - 1], r, i, j)
  {
    var before := msgs[..|msgs| - 1];
    assert forall k :: 0 <= k < |before| ==> before[k] == msgs[k];
    forall k | i < k < j ensures Overwrites(msgs, k, r.mapping) <==> Overwrites(before, k, r.mapping) {
    }
  }

  /** Who has met has met. */
  lemma DeliveredStays(msgs: seq<Message>, r: Record)
    requires msgs != [] && ArriveOnce(msgs) && Delivered(msgs[..|msgs| - 1], r)
    ensures Delivered(msgs, r) && msgs[|msgs| - 1] != PkgCve(r.mapping) && !IsCve(msgs[|msgs| - 1], r.cve.id)
  {
    var n := |msgs| - 1;
    var i, j :| Meet(msgs[..n], r, i, j);
    assert msgs[..n][i] == msgs[i] && msgs[..n][j] == msgs[j];
    MeetBefore(msgs, r, i, j);
    assert !SameArrival(msgs[i], msgs[n]) && !SameArrival(msgs[j], msgs[n]);
  }

  /** A mapping that arrives last meets the cached CVE. */
  lemma MappingMeetsCached(msgs: seq<Message>, r: Record)
    requires msgs != [] && r.candidate.cveId == Some(r.cve.id)
    requires msgs[|msgs| - 1] == PkgCve(r.mapping) && Cached(Run(msgs[..|msgs| - 1]).cves, r)
    ensures Delivered(msgs, r)
  {
    var n := |msgs| - 1;
    CachedCveIff(msgs[..n], r.cve.id, r.cve.document);
    var j :| LatestCve(msgs[..n], r.cve.id, j, n) && msgs[..n][j].document == r.cve.document;
    assert msgs[..n][j] == msgs[j];
    assert Meet(msgs, r, n, j);
  }

  /** And nothing else makes a difference. */
  lemma MappingMeetsOnly(msgs: seq<Message>, r: Record)
    requires msgs != [] && ArriveOnce(msgs) && msgs[|msgs| - 1].PkgCve? && Delivered(msgs, r)
    ensures var n := |msgs| - 1; Delivered(msgs[..n], r) || (msgs[n] == PkgCve(r.mapping) && Cached(Run(msgs[..n]).cves, r))
  {
    var n := |msgs| - 1;
    var i, j :| Meet(msgs, r, i, j);
    if i < n {
      MeetBefore(msgs, r, i, j);
    } else {
      assert msgs[..n][j] == msgs[j] && forall k :: 0 <= k < n ==> msgs[..n][k] == msgs[k];
      forall k | j < k < n ensures !SameArrival(msgs[..n][j], msgs[..n][k]) {
        assert !SameArrival(msgs[j], msgs[k]);
      }
      OnlyCve(msgs[..n], r.cve.id, j);
      CachedCveIff(msgs[..n], r.cve.id, r.cve.document);
    }
  }

  /** An update of a once-arriving CVE is its latest. */
  lemma OnlyCve(msgs: seq<Message>, id: string, j: int)
    requires 0 <= j < |msgs| && IsCve(msgs[j], id)
    requires forall k :: j < k < |msgs| ==> !SameArrival(msgs[j], msgs[k])
    ensures LatestCve(msgs, id, j, |msgs|)
  {
    forall k | j < k < |msgs| ensures !IsCve(msgs[k], id) {
      assert !SameArrival(msgs[j], msgs[k]);
    }
  }

  /** A CVE that arrives last meets the cached mapping. */
  lemma CveMeetsCached(msgs: seq<Message>, r: Record)
    requires msgs != [] && r.candidate.cveId == Some(r.cve.id) && Holds(Run(msgs[..|msgs| - 1]), r.mapping)
    requires IsCve(msgs[|msgs| - 1], r.cve.id) && msgs[|msgs| - 1].document == r.cve.document
    ensures Delivered(msgs, r)
  {
    var n := |msgs| - 1;
    HoldsIff(msgs[..n], r.mapping);
    var i :| Stays(msgs[..n], r.mapping, i, n);
    StaysUntil(msgs, r.mapping, i);
    assert Meet(msgs, r, i, n);
  }

  /** And nothing else makes a difference. */
  lemma CveMeetsOnly(msgs: seq<Message>, r: Record)
    requires msgs != [] && !msgs[|msgs| - 1].PkgCve? && Delivered(msgs, r)
    ensures var n := |msgs| - 1;
            || Delivered(msgs[..n], r)
            || (IsCve(msgs[n], r.cve.id) && msgs[n].document == r.cve.document && Holds(Run(msgs[..n]), r.mapping))
  {
    var n := |msgs| - 1;
    var i, j :| Meet(msgs, r, i, j);
    if j < n {
      MeetBefore(msgs, r, i, j);
    } else {
      MeetNow(msgs, r, i);
    }
  }

  lemma MeetNow(msgs: seq<Message>, r: Record, i: int)
    requires msgs != [] && !msgs[|msgs| - 1].PkgCve? && Meet(msgs, r, i, |msgs| - 1)
    ensures Holds(Run(msgs[..|msgs| - 1]), r.mapping)
  {
    var n := |msgs| - 1;
    StaysUntil(msgs, r.mapping, i);
    assert Stays(msgs[..n], r.mapping, i, n);
    HoldsIff(msgs[..n], r.mapping);
  }

  lemma StaysUntil(msgs: seq<Message>, m: Mapping, i: int)
    requires 0 <= i < |msgs| - 1
    ensures var n := |msgs| - 1;
            Stays(msgs[..n], m, i, n) <==> msgs[i] == PkgCve(m) && forall k :: i < k < n ==> !Overwrites(msgs, k, m)
  {
    var n := |msgs| - 1;
    assert forall k :: 0 <= k < n ==> msgs[..n][k] == msgs[k];
    forall k | i < k < n ensures Overwrites(msgs[..n], k, m) <==> Overwrites(msgs, k, m) {
    }
  }

  ghost function Expected(msgs: seq<Message>, r: Record): nat {
    if Delivered(msgs, r) then Count(r.mapping.candidates, r.candidate) else 0
  }

  lemma MappingExpected(msgs: seq<Message>, r: Record)
    requires msgs != [] && ArriveOnce(msgs) && msgs[|msgs| - 1].PkgCve?
    ensures var n := |msgs| - 1;
            Expected(msgs, r) == Expected(msgs[..n], r) +
              if msgs[n] == PkgCve(r.mapping) && Cached(Run(msgs[..n]).cves, r) then Count(r.mapping.candidates, r.candidate) else 0
  {
    var n := |msgs| - 1;
    if Delivered(msgs[..n], r) {
      DeliveredStays(msgs, r);
    } else if msgs[n] == PkgCve(r.mapping) && Cached(Run(msgs[..n]).cves, r) {
      MappingMeetsCached(msgs, r);
    } else if Delivered(msgs, r) {
      MappingMeetsOnly(msgs, r);
    }
  }

  lemma CveExpected(msgs: seq<Message>, r: Record)
    requires msgs != [] && ArriveOnce(msgs) && !msgs[|msgs| - 1].PkgCve?
    ensures var n := |msgs| - 1;
            Expected(msgs, r) == Expected(msgs[..n], r) +
              if r.candidate.cveId == Some(r.cve.id) && IsCve(msgs[n], r.cve.id) && msgs[n].document == r.cve.document
                 && Holds(Run(msgs[..n]), r.mapping)
              then Count(r.mapping.candidates, r.candidate) else 0
  {
    var n := |msgs| - 1;
    if Delivered(msgs[..n], r) {
      DeliveredStays(msgs, r);
    } else if r.candidate.cveId == Some(r.cve.id) && IsCve(msgs[n], r.cve.id) && msgs[n].document == r.cve.document
              && Holds(Run(msgs[..n]), r.mapping) {
      CveMeetsCached(msgs, r);
    } else if Delivered(msgs, r) {
      CveMeetsOnly(msgs, r);
    }
  }

  lemma MappingStep(msgs: seq<Message>, m: Mapping, r: Record)
    requires msgs != [] && ArriveOnce(msgs) && msgs[|msgs| - 1] == PkgCve(m)
    requires Count(Run(msgs[..|msgs| - 1]).out, r) == Expected(msgs[..|msgs| - 1], r)
    ensures Count(Run(msgs).out, r) == Expected(msgs, r)
  {
    var s := Run(msgs[..|msgs| - 1]);
    CountForMapping(m, |m.candidates|, s.cves, r);
    CountSum(Run(msgs).out, s.out, ForMapping(m, |m.candidates|, s.cves), r);
    assert m.candidates[..|m.candidates|] == m.candidates;
    MappingExpected(msgs, r);
  }

  lemma CveStep(msgs: seq<Message>, id: string, document: string, r: Record)
    requires msgs != [] && ArriveOnce(msgs) && msgs[|msgs| - 1] == CveUpdate(Some(id), document) && id != ""
    requires Count(Run(msgs[..|msgs| - 1]).out, r) == Expected(msgs[..|msgs| - 1], r)
    ensures Count(Run(msgs).out, r) == Expected(msgs, r)
  {
    var s, v := Run(msgs[..|msgs| - 1]), Cve(id, document);
    CountForCve(s, |s.keys|, v, r);
    CountSum(Run(msgs).out, s.out, ForCve(s.keys, |s.keys|, s.mappings, v), r);
    AmongIsMembership(s.keys, |s.keys|, CacheKey(r.mapping));
    CveExpected(msgs, r);
  }

  /** Every record is published once per occurrence of its candidate if its mapping and CVE meet, and else never. */
  lemma {:induction false} PublishedExactly(msgs: seq<Message>, r: Record)
    requires ArriveOnce(msgs)
    ensures Count(Run(msgs).out, r) == Expected(msgs, r)
    decreases |msgs|
  {
    if msgs != [] {
      var n := |msgs| - 1;
      PublishedExactly(msgs[..n], r);
      if msgs[n].PkgCve? {
        MappingStep(msgs, msgs[n].mapping, r);
      } else if msgs[n].CveUpdate? && msgs[n].cveId.Some? && msgs[n].cveId.value != "" {
        CveStep(msgs, msgs[n].cveId.value, msgs[n].document, r);
      } else {
        CveExpected(msgs, r);
      }
    }
  }

  // ---- the batch join ------------------------------------------------------------------------------

  /** The batch join of everything that arrived, in no particular order. */
  ghost predicate InBatchJoin(msgs: seq<Message>, r: Record) {
    && PkgCve(r.mapping) in msgs
    && r.cve.id != "" && CveUpdate(Some(r.cve.id), r.cve.document) in msgs
    && r.candidate.cveId == Some(r.cve.id)
  }

  ghost function BatchCount(msgs: seq<Message>, r: Record): nat {
    if InBatchJoin(msgs, r) then multiset(r.mapping.candidates)[r.candidate] else 0
  }

  /** Mapping `i` names the CVE of update `j`, but is overwritten by a colliding mapping `k` before it arrives. */
  ghost predicate LostAt(msgs: seq<Message>, i: int, k: int, j: int) {
    && 0 <= i < k < j < |msgs| && msgs[i].PkgCve? && Overwrites(msgs, k, msgs[i].mapping)
    && exists c :: NamedIn(msgs[i].mapping, c, msgs[j])
  }

  predicate NamedIn(m: Mapping, c: int, msg: Message) {
    0 <= c < |m.candidates| && m.candidates[c].cveId.Some? && IsCve(msg, m.candidates[c].cveId.value)
  }

  ghost predicate SomethingLost(msgs: seq<Message>) {
    exists i, k, j :: LostAt(msgs, i, k, j)
  }

  lemma DeliveredIsInBatch(msgs: seq<Message>, r: Record)
    requires Delivered(msgs, r)
    ensures InBatchJoin(msgs, r)
  {
    var i, j :| Meet(msgs, r, i, j);
    assert msgs[j] == CveUpdate(Some(r.cve.id), r.cve.document) && msgs[i] in msgs && msgs[j] in msgs;
  }

  lemma NothingLostDelivers(msgs: seq<Message>, r: Record)
    requires !SomethingLost(msgs) && InBatchJoin(msgs, r) && r.candidate in r.mapping.candidates
    ensures Delivered(msgs, r)
  {
    var i :| 0 <= i < |msgs| && msgs[i] == PkgCve(r.mapping);
    var j :| 0 <= j < |msgs| && msgs[j] == CveUpdate(Some(r.cve.id), r.cve.document);
    var c :| 0 <= c < |r.mapping.candidates| && r.mapping.candidates[c] == r.candidate;
    assert NamedIn(r.mapping, c, msgs[j]);
    forall k | i < k < j ensures !Overwrites(msgs, k, r.mapping) {
      assert !LostAt(msgs, i, k, j);
    }
    assert Meet(msgs, r, i, j);
  }

  /** A lost pair is in the batch join and never published. */
  lemma LostIsMissing(msgs: seq<Message>, i: int, k: int, j: int) returns (r: Record)
    requires ArriveOnce(msgs) && LostAt(msgs, i, k, j)
    ensures InBatchJoin(msgs, r) && r.candidate in r.mapping.candidates && !Delivered(msgs, r)
  {
    var m := msgs[i].mapping;
    var c :| NamedIn(m, c, msgs[j]);
    r := Record(m, m.candidates[c], Cve(m.candidates[c].cveId.value, msgs[j].document));
    assert msgs[i] == PkgCve(m) && msgs[j] == CveUpdate(Some(r.cve.id), r.cve.document);
    assert msgs[i] in msgs && msgs[j] in msgs;
    if Delivered(msgs, r) {
      var i', j' :| Meet(msgs, r, i', j');
      OneArrival(msgs, i, i');
      OneArrival(msgs, j, j');
    }
  }

  lemma OneArrival(msgs: seq<Message>, i: int, j: int)
    requires ArriveOnce(msgs) && 0 <= i < |msgs| && 0 <= j < |msgs|
    requires SameArrival(msgs[i], msgs[j])
    ensures i == j
  {
    assert SameArrival(msgs[j], msgs[i]);
  }

  lemma PublishedIs(msgs: seq<Message>, r: Record)
    requires ArriveOnce(msgs)
    ensures multiset(Run(msgs).out)[r] == if Delivered(msgs, r) then multiset(r.mapping.candidates)[r.candidate] else 0
  {
    PublishedExactly(msgs, r);
    CountIsMultiplicity(Run(msgs).out, r);
    CountIsMultiplicity(r.mapping.candidates, r.candidate);
  }

  /**
   When nothing arrives twice, every interleaving publishes exactly the batch join if and only if no
   mapping is overwritten by a colliding one before a CVE it names arrives.
   */
  lemma IncrementalIsBatchIff(msgs: seq<Message>)
    requires ArriveOnce(msgs)
    ensures (forall r :: multiset(Run(msgs).out)[r] == BatchCount(msgs, r)) <==> !SomethingLost(msgs)
  {
    if SomethingLost(msgs) {
      var i, k, j :| LostAt(msgs, i, k, j);
      var r := LostIsMissing(msgs, i, k, j);
      PublishedIs(msgs, r);
      assert multiset(Run(msgs).out)[r] != BatchCount(msgs, r);
    } else {
      forall r ensures multiset(Run(msgs).out)[r] == BatchCount(msgs, r) {
        PublishedIs(msgs, r);
        if Delivered(msgs, r) {
          DeliveredIsInBatch(msgs, r);
        } else if InBatchJoin(msgs, r) && r.candidate in r.mapping.candidates {
          NothingLostDelivers(msgs, r);
        }
      }
    }
  }

  predicate PlainHosts(msgs: seq<Message>) {
    forall i :: 0 <= i < |msgs| && msgs[i].PkgCve? ==> NoColon(Text(msgs[i].mapping.hostId))
  }

  lemma PlainHostsLoseNothing(msgs: seq<Message>)
    requires ArriveOnce(msgs) && PlainHosts(msgs)
    ensures !SomethingLost(msgs)
  {
    forall i, k | 0 <= i < k < |msgs| && msgs[i].PkgCve? && msgs[k].PkgCve? ensures !Overwrites(msgs, k, msgs[i].mapping) {
      PlainEntryIff(msgs[k].mapping, msgs[i].mapping);
      assert !SameArrival(msgs[i], msgs[k]);
    }
  }

  /** For hosts without a colon, every interleaving of once-arriving messages publishes exactly the batch join. */
  lemma IncrementalIsBatch(msgs: seq<Message>, r: Record)
    requires ArriveOnce(msgs) && PlainHosts(msgs)
    ensures multiset(Run(msgs).out)[r] == BatchCount(msgs, r)
  {
    PlainHostsLoseNothing(msgs);
    IncrementalIsBatchIff(msgs);
  }

  /** Confluence: two interleavings of the same messages publish the same multiset of records. */
  lemma InterleavingsAgree(a: seq<Message>, b: seq<Message>)
    requires ArriveOnce(a) && ArriveOnce(b) && PlainHosts(a) && PlainHosts(b) && multiset(a) == multiset(b)
    ensures multiset(Run(a).out) == multiset(Run(b).out)
  {
    forall r ensures multiset(Run(a).out)[r] == multiset(Run(b).out)[r] {
      IncrementalIsBatch(a, r);
      IncrementalIsBatch(b, r);
      assert forall m :: m in a <==> m in multiset(a);
      assert forall m :: m in b <==> m in multiset(b);
    }
  }

  /** Two different packages do collide: the first one's match is lost. */
  lemma CollidingPackagesLose(c: Candidate, document: string)
    requires c.cveId == Some("CVE-1")
    ensures var first, second := Mapping(Some("a"), Some("b:c"), [c], ""), Mapping(Some("a:b"), Some("c"), [c], "");
            var msgs := [PkgCve(first), PkgCve(second), CveUpdate(Some("CVE-1"), document)];
            ArriveOnce(msgs) && SomethingLost(msgs)
  {
    var first, second := Mapping(Some("a"), Some("b:c"), [c], ""), Mapping(Some("a:b"), Some("c"), [c], "");
    var msgs := [PkgCve(first), PkgCve(second), CveUpdate(Some("CVE-1"), document)];
    assert ShiftedBy("a", "b:c", "a:b", "c", "b");
    assert Overwrites(msgs, 1, first);
    assert NamedIn(first, 0, msgs[2]);
    assert LostAt(msgs, 0, 1, 2);
  }

  // ---- freshness -----------------------------------------------------------------------------------

  /** The last record published for a package of a host and a CVE. */
  function LastFor(out: seq<Record>, m: Mapping, id: string): Option<Record> {
    if out == [] then None
    else
      var r := out[|out| - 1];
      if SamePackage(r.mapping, m) && r.candidate.cveId == Some(id) then Some(r) else LastFor(out[..|out| - 1], m, id)
  }

  lemma {:induction false} LastAboutIsLastFor(out: seq<Record>, m: Mapping, id: string)
    requires LastAbout(out, CacheKey(m), id).Some? && SamePackage(LastAbout(out, CacheKey(m), id).value.mapping, m)
    ensures LastFor(out, m, id) == LastAbout(out, CacheKey(m), id)
  {
    var r := out[|out| - 1];
    if !About(r, CacheKey(m), id) {
      SharedEntryIff(r.mapping, m);
      LastAboutIsLastFor(out[..|out| - 1], m, id);
    }
  }

  /**
   With any repetitions and in any order: if a mapping was not overwritten since it last arrived, the last
   record published for its package and a CVE it names was built from that mapping and the CVE's last update.
   */
  lemma LastRecordIsLatest(msgs: seq<Message>, m: Mapping, i: int, id: string, j: int)
    requires Stays(msgs, m, i, |msgs|) && LatestCve(msgs, id, j, |msgs|)
    ensures var c := LastNaming(m.candidates, |m.candidates|, id);
            c.Some? ==> LastFor(Run(msgs).out, m, id) == Some(Record(m, c.value, Cve(id, msgs[j].document)))
  {
    HoldsIff(msgs, m);
    CachedCveIff(msgs, id, msgs[j].document);
    LastRecordIsCurrent(msgs, CacheKey(m), id);
    if LastNaming(m.candidates, |m.candidates|, id).Some? {
      LastAboutIsLastFor(Run(msgs).out, m, id);
    }
  }
}
