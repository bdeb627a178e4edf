/**
 In-place correlation of one event batch: DNS observations take the process of
 the best matching flow, flows take hostnames from DNS answers.
 */
module Correlate {
  import opened Prelude

  /** `rest` stands for the fields neither pass reads or writes. */
  datatype Event =
    | Flow(remoteIp: string, pid: Option<U32>, guid: Option<string>, confidence: real, hostname: Option<string>, rest: string)
    | Dns(query: string, answers: seq<string>, pid: Option<U32>, guid: Option<string>, method_: string, confidence: real, rest: string)
    | Other(rest: string)

  datatype Owner = Owner(pid: U32, guid: string, confidence: real)

  /** Text predicates of the platform: IP literals and blank (all white space) names. */
  datatype Names = Names(isIp: string -> bool, isBlank: string -> bool)

  const MATCH_METHOD := "aegis.dns.flow_remote_ip_match"

  // ---- what the passes mean ------------------------------------------------------------------

  /** A flow to `ip` whose process is known. */
  predicate Attributed(e: Event, ip: string) {
    e.Flow? && e.remoteIp == ip && e.pid.Some? && e.guid.Some?
  }

  function OwnerOf(e: Event): Owner
    requires e.Flow? && e.pid.Some? && e.guid.Some?
  {
    Owner(e.pid.value, e.guid.value, e.confidence)
  }

  /** Among the first `n` events, the best owner of `ip` so far: strictly higher confidence replaces. */
  function BestOwner(es: seq<Event>, n: nat, ip: string): Option<Owner>
    requires n <= |es|
  {
    if n == 0 then None
    else
      var sofar := BestOwner(es, n - 1, ip);
      if !Attributed(es[n - 1], ip) then sofar
      else if sofar.None? || es[n - 1].confidence > sofar.value.confidence then Some(OwnerOf(es[n - 1]))
      else sofar
  }

  /** Event `i` is the earliest of the most confident attributed flows to `ip`. */
  ghost predicate IsBest(es: seq<Event>, ip: string, i: nat) {
    && i < |es| && Attributed(es[i], ip)
    && (forall j :: 0 <= j < |es| && Attributed(es[j], ip) ==> es[j].confidence <= es[i].confidence)
    && (forall j :: 0 <= j < i && Attributed(es[j], ip) ==> es[j].confidence < es[i].confidence)
  }

  lemma {:induction false} BestOwnerIsBest(es: seq<Event>, n: nat, ip: string) returns (i: nat)
    requires n <= |es|
    ensures BestOwner(es, n, ip).None? ==> forall j :: 0 <= j < n ==> !Attributed(es[j], ip)
    ensures BestOwner(es, n, ip).Some? ==> IsBest(es[..n], ip, i) && BestOwner(es, n, ip).value == OwnerOf(es[i])
  {
    i := 0;
    if n > 0 {
      i := BestOwnerIsBest(es, n - 1, ip);
      var sofar := BestOwner(es, n - 1, ip);
      assert forall j :: 0 <= j < n ==> es[..n][j] == es[j];
      assert forall j :: 0 <= j < n - 1 ==> es[..n - 1][j] == es[j];
      if Attributed(es[n - 1], ip) && (sofar.None? || es[n - 1].confidence > sofar.value.confidence) {
        i := n - 1;
      }
    }
  }

  /** The owner found through the first answer that is an address with an attributed flow. */
  function FirstOwner(names: Names, es: seq<Event>, answers: seq<string>): Option<Owner> {
    if answers == [] then None
    else if names.isIp(answers[0]) && BestOwner(es, |es|, answers[0]).Some? then BestOwner(es, |es|, answers[0])
    else FirstOwner(names, es, answers[1..])
  }

  function Scaled(confidence: real): real {
    if confidence * 0.88 < 0.94 then confidence * 0.88 else 0.94
  }

  /** A DNS event without a process takes its first owner; every other event is left alone. */
  function CorrelatedEvent(names: Names, es: seq<Event>, e: Event): Event {
    if e.Dns? && e.pid.None? && FirstOwner(names, es, e.answers).Some? then
      var o := FirstOwner(names, es, e.answers).value;
      e.(pid := Some(o.pid), guid := Some(o.guid), method_ := MATCH_METHOD, confidence := Scaled(o.confidence))
    else e
  }

  function Correlated(names: Names, es: seq<Event>): seq<Event> {
    seq(|es|, i requires 0 <= i < |es| => CorrelatedEvent(names, es, es[i]))
  }

  predicate Resolves(names: Names, e: Event, ip: string) {
    e.Dns? && !names.isBlank(e.query) && names.isIp(ip) && ip in e.answers
  }

  /** The query of the first of the first `n` DNS events that resolves to `ip`. */
  function FirstHost(names: Names, es: seq<Event>, n: nat, ip: string): Option<string>
    requires n <= |es|
  {
    if n == 0 then None
    else
      var sofar := FirstHost(names, es, n - 1, ip);
      if sofar.Some? then sofar else if Resolves(names, es[n - 1], ip) then Some(es[n - 1].query) else None
  }

  function EnrichedEvent(names: Names, es: seq<Event>, e: Event): Event {
    if e.Flow? && e.hostname.None? && FirstHost(names, es, |es|, e.remoteIp).Some?
    then e.(hostname := FirstHost(names, es, |es|, e.remoteIp))
    else e
  }

  function Enriched(names: Names, es: seq<Event>): seq<Event> {
    seq(|es|, i requires 0 <= i < |es| => EnrichedEvent(names, es, es[i]))
  }

  // ---- the passes in place ---------------------------------------------------------------------

  /** The index built by the first loop: best owner per remote address. */
  ghost predicate IndexesOwners(best: map<string, Owner>, es: seq<Event>, n: nat)
    requires n <= |es|
  {
    forall ip :: (if ip in best then Some(best[ip]) else None) == BestOwner(es, n, ip)
  }

  method BuildOwners(events: array<Event>) returns (best: map<string, Owner>)
    ensures IndexesOwners(best, events[..], events.Length)
  {
    best := map[];
    for i := 0 to events.Length
      invariant IndexesOwners(best, events[..], i)
    {
      ghost var before := best;
      ghost var es := events[..];
      var e := events[i];
      if e.Flow? && e.pid.Some? && e.guid.Some? {
        if e.remoteIp !in best {
          best := best[e.remoteIp := OwnerOf(e)];
        }
        if e.confidence > best[e.remoteIp].confidence {
          best := best[e.remoteIp := OwnerOf(e)];
        }
        assert forall ip :: ip != e.remoteIp ==> (ip in best <==> ip in before);
      }
      forall ip ensures (if ip in best then Some(best[ip]) else None) == BestOwner(es, i + 1, ip) {
        assert (if ip in before then Some(before[ip]) else None) == BestOwner(es, i, ip);
      }
    }
  }

  method FindOwner(names: Names, ghost es: seq<Event>, best: map<string, Owner>, answers: seq<string>) returns (o: Option<Owner>)
    requires IndexesOwners(best, es, |es|)
    ensures o == FirstOwner(names, es, answers)
  {
    assert answers[0..] == answers;
    for j := 0 to |answers|
      invariant FirstOwner(names, es, answers) == FirstOwner(names, es, answers[j..])
    {
      assert answers[j..][0] == answers[j] && answers[j..][1..] == answers[j + 1..];
      if names.isIp(answers[j]) && answers[j] in best {
        return Some(best[answers[j]]);
      }
    }
    o := None;
  }

  method CorrelateDnsToFlowAttribution(names: Names, events: array<Event>)
    modifies events
    ensures events[..] == Correlated(names, old(events[..]))
  {
    ghost var es := events[..];
    var best := BuildOwners(events);
    if |best| == 0 {
      assert best == map[];
      NoOwners(names, es);
      return;
    }
    for i := 0 to events.Length
      invariant forall k :: 0 <= k < i ==> events[k] == CorrelatedEvent(names, es, es[k])
      invariant forall k :: i <= k < events.Length ==> events[k] == es[k]
    {
      var e := events[i];
      if e.Dns? && e.pid.None? {
        var o := FindOwner(names, es, best, e.answers);
        if o.Some? {
          events[i] := e.(pid := Some(o.value.pid), guid := Some(o.value.guid), method_ := MATCH_METHOD,
                          confidence := Scaled(o.value.confidence));
        }
      }
    }
  }

  lemma NoOwners(names: Names, es: seq<Event>)
    requires IndexesOwners(map[], es, |es|)
    ensures Correlated(names, es) == es
  {
    forall i | 0 <= i < |es| ensures CorrelatedEvent(names, es, es[i]) == es[i] {
      if es[i].Dns? {
        NoFirstOwner(names, es, es[i].answers);
      }
    }
  }

  lemma {:induction false} NoFirstOwner(names: Names, es: seq<Event>, answers: seq<string>)
    requires IndexesOwners(map[], es, |es|)
    ensures FirstOwner(names, es, answers).None?
  {
    if answers != [] {
      assert BestOwner(es, |es|, answers[0]).None?;
      NoFirstOwner(names, es, answers[1..]);
    }
  }

  ghost predicate IndexesHosts(names: Names, hosts: map<string, string>, es: seq<Event>, n: nat)
    requires n <= |es|
  {
    forall ip :: (if ip in hosts then Some(hosts[ip]) else None) == FirstHost(names, es, n, ip)
  }

  /** Insert the answers of one DNS event, keeping hosts already known. */
  method AddAnswers(names: Names, hosts: map<string, string>, query: string, answers: seq<string>) returns (r: map<string, string>)
    ensures forall ip :: (if ip in r then Some(r[ip]) else None) ==
                         (if ip in hosts then Some(hosts[ip]) else if names.isIp(ip) && ip in answers then Some(query) else None)
  {
    r := hosts;
    for j := 0 to |answers|
      invariant forall ip :: (if ip in r then Some(r[ip]) else None) ==
                             (if ip in hosts then Some(hosts[ip]) else if names.isIp(ip) && ip in answers[..j] then Some(query) else None)
    {
      assert answers[..j + 1] == answers[..j] + [answers[j]];
      if names.isIp(answers[j]) && answers[j] !in r {
        r := r[answers[j] := query];
      }
    }
    assert answers[..|answers|] == answers;
  }

  method BuildHosts(names: Names, events: array<Event>) returns (hosts: map<string, string>)
    ensures IndexesHosts(names, hosts, events[..], events.Length)
  {
    hosts := map[];
    for i := 0 to events.Length
      invariant IndexesHosts(names, hosts, events[..], i)
    {
      ghost var before := hosts;
      ghost var es := events[..];
      var e := events[i];
      if e.Dns? && !names.isBlank(e.query) {
        hosts := AddAnswers(names, hosts, e.query, e.answers);
      }
      forall ip ensures (if ip in hosts then Some(hosts[ip]) else None) == FirstHost(names, es, i + 1, ip) {
        assert (if ip in before then Some(before[ip]) else None) == FirstHost(names, es, i, ip);
      }
    }
  }

  method EnrichFlowHostnames(names: Names, events: array<Event>)
    modifies events
    ensures events[..] == Enriched(names, old(events[..]))
  {
    ghost var es := events[..];
    var hosts := BuildHosts(names, events);
    if |hosts| == 0 {
      assert hosts == map[];
      assert forall ip :: FirstHost(names, es, |es|, ip).None?;
      assert events[..] == Enriched(names, es);
      return;
    }
    for i := 0 to events.Length
      invariant forall k :: 0 <= k < i ==> events[k] == EnrichedEvent(names, es, es[k])
      invariant forall k :: i <= k < events.Length ==> events[k] == es[k]
    {
      var e := events[i];
      if e.Flow? && e.hostname.None? && e.remoteIp in hosts {
        events[i] := e.(hostname := Some(hosts[e.remoteIp]));
      }
    }
  }

  // ---- idempotent, commuting --------------------------------------------------------------------

  /** Same flows as far as ownership goes. */
  ghost predicate SameOwners(es: seq<Event>, es': seq<Event>) {
    && |es| == |es'|
    && forall i :: 0 <= i < |es| ==>
         && es[i].Flow? == es'[i].Flow?
         && (es[i].Flow? ==> && es'[i].remoteIp == es[i].remoteIp && es'[i].pid == es[i].pid
                             && es'[i].guid == es[i].guid && es'[i].confidence == es[i].confidence)
  }

  /** Same DNS names and answers. */
  ghost predicate SameAnswers(es: seq<Event>, es': seq<Event>) {
    && |es| == |es'|
    && forall i :: 0 <= i < |es| ==>
         es[i].Dns? == es'[i].Dns? && (es[i].Dns? ==> es'[i].query == es[i].query && es'[i].answers == es[i].answers)
  }

  lemma {:induction false} SameBestOwner(es: seq<Event>, es': seq<Event>, n: nat, ip: string)
    requires SameOwners(es, es') && n <= |es|
    ensures BestOwner(es', n, ip) == BestOwner(es, n, ip)
  {
    if n > 0 {
      SameBestOwner(es, es', n - 1, ip);
    }
  }

  lemma {:induction false} SameFirstOwner(names: Names, es: seq<Event>, es': seq<Event>, answers: seq<string>)
    requires SameOwners(es, es')
    ensures FirstOwner(names, es', answers) == FirstOwner(names, es, answers)
  {
    if answers != [] {
      SameBestOwner(es, es', |es|, answers[0]);
      SameFirstOwner(names, es, es', answers[1..]);
    }
  }

  lemma {:induction false} SameFirstHost(names: Names, es: seq<Event>, es': seq<Event>, n: nat, ip: string)
    requires SameAnswers(es, es') && n <= |es|
    ensures FirstHost(names, es', n, ip) == FirstHost(names, es, n, ip)
  {
    if n > 0 {
      SameFirstHost(names, es, es', n - 1, ip);
    }
  }

  /** Neither pass touches what the other pass, or it itself, looks at. */
  lemma PassesKeepTheirInputs(names: Names, es: seq<Event>)
    ensures SameOwners(es, Correlated(names, es)) && SameAnswers(es, Correlated(names, es))
    ensures SameOwners(es, Enriched(names, es)) && SameAnswers(es, Enriched(names, es))
  {
  }

  lemma CorrelationIsIdempotent(names: Names, es: seq<Event>)
    ensures Correlated(names, Correlated(names, es)) == Correlated(names, es)
  {
    var once := Correlated(names, es);
    PassesKeepTheirInputs(names, es);
    forall i | 0 <= i < |es| ensures CorrelatedEvent(names, once, once[i]) == once[i] {
      if once[i].Dns? {
        SameFirstOwner(names, es, once, once[i].answers);
      }
    }
  }

  lemma EnrichmentIsIdempotent(names: Names, es: seq<Event>)
    ensures Enriched(names, Enriched(names, es)) == Enriched(names, es)
  {
    var once := Enriched(names, es);
    PassesKeepTheirInputs(names, es);
    forall i | 0 <= i < |es| ensures EnrichedEvent(names, once, once[i]) == once[i] {
      if once[i].Flow? {
        SameFirstHost(names, es, once, |es|, once[i].remoteIp);
      }
    }
  }

  /** The two passes can run in either order. */
  lemma PassesCommute(names: Names, es: seq<Event>)
    ensures Enriched(names, Correlated(names, es)) == Correlated(names, Enriched(names, es))
  {
    var c, h := Correlated(names, es), Enriched(names, es);
    PassesKeepTheirInputs(names, es);
    forall i | 0 <= i < |es| ensures EnrichedEvent(names, c, c[i]) == CorrelatedEvent(names, h, h[i]) {
      if es[i].Flow? {
        SameFirstHost(names, es, c, |es|, es[i].remoteIp);
      } else if es[i].Dns? {
        SameFirstOwner(names, es, h, es[i].answers);
      }
    }
  }

  /**
   The in-place pass agrees with a plain scan: an unattributed DNS event takes the
   process of the earliest most confident attributed flow to its first matching
   address answer, and is left alone when there is no such answer.
   */
  lemma CorrelationAgreesWithScan(names: Names, es: seq<Event>, i: nat) returns (a: nat, f: nat)
    requires i < |es| && es[i].Dns? && es[i].pid.None?
    ensures var e, e' := es[i], Correlated(names, es)[i];
            if e' == e then forall j :: 0 <= j < |e.answers| && names.isIp(e.answers[j]) ==> forall k :: 0 <= k < |es| ==> !Attributed(es[k], e.answers[j])
            else && a < |e.answers| && names.isIp(e.answers[a]) && IsBest(es, e.answers[a], f)
                 && (forall j :: 0 <= j < a && names.isIp(e.answers[j]) ==> forall k :: 0 <= k < |es| ==> !Attributed(es[k], e.answers[j]))
                 && e' == e.(pid := es[f].pid, guid := es[f].guid, method_ := "aegis.dns.flow_remote_ip_match", confidence := e'.confidence)
                 && e'.confidence <= 0.94 && e'.confidence <= es[f].confidence * 0.88
                 && (e'.confidence == 0.94 || e'.confidence == es[f].confidence * 0.88)
  {
    a, f := FirstOwnerFound(names, es, es[i].answers);
  }

  /** Event `d` is the earliest DNS event that resolves to `ip`. */
  ghost predicate IsFirstHost(names: Names, es: seq<Event>, ip: string, d: nat) {
    d < |es| && Resolves(names, es[d], ip) && forall j :: 0 <= j < d ==> !Resolves(names, es[j], ip)
  }

  lemma {:induction false} FirstHostFound(names: Names, es: seq<Event>, n: nat, ip: string) returns (d: nat)
    requires n <= |es|
    ensures var h := FirstHost(names, es, n, ip);
            if h.Some? then d < n && IsFirstHost(names, es, ip, d) && h.value == es[d].query
            else forall j :: 0 <= j < n ==> !Resolves(names, es[j], ip)
  {
    d := 0;
    if n > 0 {
      d := FirstHostFound(names, es, n - 1, ip);
      if FirstHost(names, es, n - 1, ip).None? {
        d := n - 1;
      }
    }
  }

  /**
   Hostnames agree with a plain scan: a flow without one takes the query of the earliest DNS event that
   resolves to its address, and is left alone exactly when there is no such event; so is every other event.
   */
  lemma EnrichmentAgreesWithScan(names: Names, es: seq<Event>, i: nat) returns (d: nat)
    requires i < |es|
    ensures var e, e' := es[i], Enriched(names, es)[i];
            if e.Flow? && e.hostname.None? then
              if e' == e then forall j :: 0 <= j < |es| ==> !Resolves(names, es[j], e.remoteIp)
              else IsFirstHost(names, es, e.remoteIp, d) && e' == e.(hostname := Some(es[d].query))
            else e' == e
  {
    d := 0;
    if es[i].Flow? {
      d := FirstHostFound(names, es, |es|, es[i].remoteIp);
    }
  }

  /** Correlation leaves every event that is not an unattributed DNS event alone. */
  lemma CorrelationTouchesOnly(names: Names, es: seq<Event>, i: nat)
    requires i < |es| && !(es[i].Dns? && es[i].pid.None?)
    ensures Correlated(names, es)[i] == es[i]
  {
  }

  lemma {:induction false} FirstOwnerFound(names: Names, es: seq<Event>, answers: seq<string>) returns (a: nat, f: nat)
    ensures var o := FirstOwner(names, es, answers);
            && (forall j :: 0 <= j < (if o.Some? then a else |answers|) && j < |answers| && names.isIp(answers[j]) ==>
                  forall k :: 0 <= k < |es| ==> !Attributed(es[k], answers[j]))
            && (o.Some? ==> a < |answers| && names.isIp(answers[a]) && IsBest(es, answers[a], f) && o.value == OwnerOf(es[f]))
  {
    a, f := 0, 0;
    if answers != [] {
      f := BestOwnerIsBest(es, |es|, answers[0]);
      assert es[..|es|] == es;
      if !(names.isIp(answers[0]) && BestOwner(es, |es|, answers[0]).Some?) {
        a, f := FirstOwnerFound(names, es, answers[1..]);
        a := a + 1;
        assert forall j :: 1 <= j < |answers| ==> answers[j] == answers[1..][j - 1];
      }
    }
  }
}
