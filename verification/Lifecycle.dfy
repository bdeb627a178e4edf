/**
 Process start and end events by diffing each snapshot against the persisted
 one: one collection cycle in place, and what its event stream means over whole
 runs of cycles, failed stores and lost state files.
 */
module Lifecycle {
  import opened Prelude
  import opened Decimal

  datatype Proc = Proc(pid: U32, name: string)

  datatype Entry = Entry(pid: U32, name: string, firstSeen: nat)

  datatype Event =
    | Seeded(count: nat)
    | Diff(started: nat, ended: nat)
    | Started(guid: string, proc: Proc)
    | Ended(guid: string, proc: Proc, duration: Option<U64>)

  type Persisted = map<string, Entry>

  // ---- key order -------------------------------------------------------------------------

  predicate IsLeast(g: string, s: set<string>) {
    g in s && forall h :: h in s && h != g ==> Less(g, h)
  }

  lemma {:induction false} FindLeast(s: set<string>) returns (g: string)
    requires s != {}
    ensures IsLeast(g, s)
    decreases s
  {
    var x :| x in s;
    g := x;
    var rest := s - {x};
    assert forall h :: h in s && h != x ==> h in rest;
    if rest != {} {
      var y := FindLeast(rest);
      LessTotal(x, y);
      if Less(x, y) {
        forall h | h in s && h != x && h != y ensures Less(x, h) {
          LessTransitive(x, y, h);
        }
      } else {
        g := y;
      }
    }
  }

  lemma LeastIsUnique(s: set<string>, g: string, h: string)
    requires IsLeast(g, s) && IsLeast(h, s)
    ensures g == h
  {
    if g != h {
      LessTransitive(g, h, g);
      NotLessItself(g);
    }
  }

  ghost function Least(s: set<string>): (g: string)
    requires s != {}
    ensures IsLeast(g, s)
  {
    assert exists g :: IsLeast(g, s) by {
      var g := FindLeast(s);
    }
    var g :| IsLeast(g, s);
    g
  }

  /** BTreeMap iteration: keys in ascending string order. */
  ghost function Ascending(s: set<string>): seq<string> {
    if s == {} then [] else [Least(s)] + Ascending(s - {Least(s)})
  }

  lemma AscendingStep(s: set<string>, g: string)
    requires IsLeast(g, s)
    ensures Ascending(s) == [g] + Ascending(s - {g})
  {
    LeastIsUnique(s, g, Least(s));
  }

  /** Each key once, in strictly ascending order. */
  lemma {:induction false} AscendingSorts(s: set<string>)
    ensures forall g :: g in Ascending(s) <==> g in s
    ensures forall i, j :: 0 <= i < j < |Ascending(s)| ==> Less(Ascending(s)[i], Ascending(s)[j])
  {
    if s != {} {
      var g := Least(s);
      AscendingSorts(s - {g});
      forall h ensures h in Ascending(s) <==> h in s {
        assert h in s <==> h == g || h in s - {g};
      }
    }
  }

  // ---- one cycle ---------------------------------------------------------------------------

  /** Milliseconds since first seen, never negative, dropped when it exceeds 64 bits. */
  function Duration(ts: nat, firstSeen: nat): Option<U64> {
    var d := if ts >= firstSeen then ts - firstSeen else 0;
    if d <= U64_MAX then Some(d) else None
  }

  function IfStarted(g: string, current: map<string, Proc>, prev: Persisted): seq<Event> {
    if g in current && g !in prev then [Started(g, current[g])] else []
  }

  function IfEnded(g: string, current: map<string, Proc>, prev: Persisted, ts: nat): seq<Event> {
    if g in prev && g !in current then [Ended(g, Proc(prev[g].pid, prev[g].name), Duration(ts, prev[g].firstSeen))] else []
  }

  function StartedFor(guids: seq<string>, current: map<string, Proc>, prev: Persisted): seq<Event> {
    if guids == [] then [] else IfStarted(guids[0], current, prev) + StartedFor(guids[1..], current, prev)
  }

  function EndedFor(guids: seq<string>, current: map<string, Proc>, prev: Persisted, ts: nat): seq<Event> {
    if guids == [] then [] else IfEnded(guids[0], current, prev, ts) + EndedFor(guids[1..], current, prev, ts)
  }

  /** Known processes keep the time they were first seen. */
  function Merged(current: map<string, Proc>, prev: Persisted, ts: nat): Persisted {
    map g | g in current :: Entry(current[g].pid, current[g].name, if g in prev then prev[g].firstSeen else ts)
  }

  ghost function StartedEvents(current: map<string, Proc>, prev: Persisted): seq<Event> {
    StartedFor(Ascending(current.Keys), current, prev)
  }

  ghost function EndedEvents(current: map<string, Proc>, prev: Persisted, ts: nat): seq<Event> {
    EndedFor(Ascending(prev.Keys), current, prev, ts)
  }

  /** The process events of a cycle; a cycle without prior state seeds silently. */
  ghost function CycleEvents(current: map<string, Proc>, prev: Persisted, ts: nat): seq<Event> {
    if prev == map[] then [] else StartedEvents(current, prev) + EndedEvents(current, prev, ts)
  }

  class LifecycleCollector {
    var state: Persisted

    constructor ()
      ensures state == map[]
    {
      state := map[];
    }

    /** `stored` says whether writing the state file succeeds; a failed write leaves the old state. */
    method Persist(next: Persisted, stored: bool) returns (ok: bool)
      modifies this
      ensures ok == stored && state == if stored then next else old(state)
    {
      if stored {
        state := next;
      }
      ok := stored;
    }

    method Collect(current: map<string, Proc>, ts: nat, stored: bool) returns (res: Result<seq<Event>, string>)
      modifies this
      ensures state == if stored then Merged(current, old(state), ts) else old(state)
      ensures if !stored then res.Err?
              else && res.Ok? && |res.value| >= 1 && res.value[1..] == CycleEvents(current, old(state), ts)
                   && res.value[0] == (if old(state) == map[] then Seeded(|current|)
                                       else Diff(|StartedEvents(current, old(state))|, |EndedEvents(current, old(state), ts)|))
    {
      var prev := state;
      if prev == map[] {
        var next := MergePersistedFirstSeen(current, prev, ts);
        var ok := Persist(next, stored);
        if !ok {
          return Err("failed to write process state");
        }
        assert next.Keys == current.Keys;
        return Ok([Seeded(|next|)]);
      }
      var started := CollectStarted(current, prev);
      var ended := CollectEnded(current, prev, ts);
      var out := started + ended;
      var next := MergePersistedFirstSeen(current, prev, ts);
      var ok := Persist(next, stored);
      if !ok {
        return Err("failed to write process state");
      }
      res := Ok([Diff(|started|, |ended|)] + out);
    }
  }

  method CollectStarted(current: map<string, Proc>, prev: Persisted) returns (out: seq<Event>)
    ensures out == StartedEvents(current, prev)
  {
    var todo := current.Keys;
    out := [];
    while todo != {}
      invariant todo <= current.Keys
      invariant StartedEvents(current, prev) == out + StartedFor(Ascending(todo), current, prev)
      decreases todo
    {
      ghost var least := FindLeast(todo);
      var guid :| IsLeast(guid, todo);
      ghost var next := out + IfStarted(guid, current, prev);
      StartedStep(out, todo, guid, current, prev);
      if guid !in prev {
        out := out + [Started(guid, current[guid])];
      }
      assert out == next;
      todo := todo - {guid};
    }
  }

  lemma StartedStep(out: seq<Event>, todo: set<string>, g: string, current: map<string, Proc>, prev: Persisted)
    requires IsLeast(g, todo)
    ensures out + StartedFor(Ascending(todo), current, prev) ==
            (out + IfStarted(g, current, prev)) + StartedFor(Ascending(todo - {g}), current, prev)
  {
    AscendingStep(todo, g);
    assert ([g] + Ascending(todo - {g}))[1..] == Ascending(todo - {g});
  }

  method CollectEnded(current: map<string, Proc>, prev: Persisted, ts: nat) returns (out: seq<Event>)
    ensures out == EndedEvents(current, prev, ts)
  {
    var todo := prev.Keys;
    out := [];
    while todo != {}
      invariant todo <= prev.Keys
      invariant EndedEvents(current, prev, ts) == out + EndedFor(Ascending(todo), current, prev, ts)
      decreases todo
    {
      ghost var least := FindLeast(todo);
      var guid :| IsLeast(guid, todo);
      ghost var next := out + IfEnded(guid, current, prev, ts);
      EndedStep(out, todo, guid, current, prev, ts);
      if guid !in current {
        var e := prev[guid];
        out := out + [Ended(guid, Proc(e.pid, e.name), Duration(ts, e.firstSeen))];
      }
      assert out == next;
      todo := todo - {guid};
    }
  }

  lemma EndedStep(out: seq<Event>, todo: set<string>, g: string, current: map<string, Proc>, prev: Persisted, ts: nat)
    requires IsLeast(g, todo)
    ensures out + EndedFor(Ascending(todo), current, prev, ts) ==
            (out + IfEnded(g, current, prev, ts)) + EndedFor(Ascending(todo - {g}), current, prev, ts)
  {
    AscendingStep(todo, g);
    assert ([g] + Ascending(todo - {g}))[1..] == Ascending(todo - {g});
  }

  method MergePersistedFirstSeen(current: map<string, Proc>, prev: Persisted, ts: nat) returns (out: Persisted)
    ensures out == Merged(current, prev, ts)
  {
    var todo := current.Keys;
    out := map[];
    while todo != {}
      invariant todo <= current.Keys && out.Keys == current.Keys - todo
      invariant forall g :: g in out ==> out[g] == Merged(current, prev, ts)[g]
      decreases todo
    {
      var guid :| guid in todo;
      var firstSeen := if guid in prev then prev[guid].firstSeen else ts;
      out := out[guid := Entry(current[guid].pid, current[guid].name, firstSeen)];
      todo := todo - {guid};
    }
  }

  // ---- replaying the event stream ------------------------------------------------------------

  /** The consumer's view: who is running after an event. */
  function Apply(running: set<string>, e: Event): set<string> {
    match e
    case Started(g, _) => running + {g}
    case Ended(g, _, _) => running - {g}
    case _ => running
  }

  function Replay(running: set<string>, events: seq<Event>): set<string>
    decreases |events|
  {
    if events == [] then running else Replay(Apply(running, events[0]), events[1..])
  }

  /** Nothing starts while running or ends while not running: each guid's events alternate. */
  predicate Alternates(running: set<string>, events: seq<Event>)
    decreases |events|
  {
    events == [] ||
    (&& (events[0].Started? ==> events[0].guid !in running)
     && (events[0].Ended? ==> events[0].guid in running)
     && Alternates(Apply(running, events[0]), events[1..]))
  }

  lemma {:induction false} ReplayConcat(running: set<string>, a: seq<Event>, b: seq<Event>)
    ensures Replay(running, a + b) == Replay(Replay(running, a), b)
    ensures Alternates(running, a + b) <==> Alternates(running, a) && Alternates(Replay(running, a), b)
    decreases |a|
  {
    if a == [] {
      assert a + b == b;
    } else {
      ReplayConcat(Apply(running, a[0]), a[1..], b);
      assert (a + b)[1..] == a[1..] + b;
    }
  }

  /** Starting the new ones of `s` adds exactly those. */
  lemma {:induction false} ReplayStarted(running: set<string>, s: set<string>, current: map<string, Proc>, prev: Persisted)
    requires s <= current.Keys
    ensures var events := StartedFor(Ascending(s), current, prev);
            && Replay(running, events) == running + (s - prev.Keys)
            && ((forall g :: g in s && g !in prev ==> g !in running) ==> Alternates(running, events))
    decreases s
  {
    if s != {} {
      var g := Least(s);
      var rest := s - {g};
      StartedStep([], s, g, current, prev);
      var one, more := IfStarted(g, current, prev), StartedFor(Ascending(rest), current, prev);
      assert StartedFor(Ascending(s), current, prev) == one + more;
      ReplayConcat(running, one, more);
      if g in prev {
        assert s - prev.Keys == rest - prev.Keys;
        ReplayStarted(running, rest, current, prev);
      } else {
        assert one[1..] == [];
        assert running + {g} + (rest - prev.Keys) == running + (s - prev.Keys);
        ReplayStarted(running + {g}, rest, current, prev);
      }
    }
  }

  lemma {:induction false} ReplayEnded(running: set<string>, s: set<string>, current: map<string, Proc>, prev: Persisted, ts: nat)
    requires s <= prev.Keys
    ensures var events := EndedFor(Ascending(s), current, prev, ts);
            && Replay(running, events) == running - (s - current.Keys)
            && ((forall g :: g in s && g !in current ==> g in running) ==> Alternates(running, events))
    decreases s
  {
    if s != {} {
      var g := Least(s);
      var rest := s - {g};
      EndedStep([], s, g, current, prev, ts);
      var one, more := IfEnded(g, current, prev, ts), EndedFor(Ascending(rest), current, prev, ts);
      assert EndedFor(Ascending(s), current, prev, ts) == one + more;
      ReplayConcat(running, one, more);
      if g in current {
        assert s - current.Keys == rest - current.Keys;
        ReplayEnded(running, rest, current, prev, ts);
      } else {
        assert one[1..] == [];
        assert running - {g} - (rest - current.Keys) == running - (s - current.Keys);
        ReplayEnded(running - {g}, rest, current, prev, ts);
      }
    }
  }

  /** What a diff's events do to any view of who is running. */
  lemma DiffApplies(running: set<string>, current: map<string, Proc>, prev: Persisted, ts: nat)
    requires prev != map[]
    ensures Replay(running, CycleEvents(current, prev, ts)) ==
            running + (current.Keys - prev.Keys) - (prev.Keys - current.Keys)
  {
    ReplayStarted(running, current.Keys, current, prev);
    ReplayEnded(running + (current.Keys - prev.Keys), prev.Keys, current, prev, ts);
    ReplayConcat(running, StartedEvents(current, prev), EndedEvents(current, prev, ts));
  }

  /** One diff turns the persisted key set into the snapshot's. */
  lemma CycleReplays(current: map<string, Proc>, prev: Persisted, ts: nat)
    requires prev != map[]
    ensures var events := CycleEvents(current, prev, ts);
            Alternates(prev.Keys, events) && Replay(prev.Keys, events) == current.Keys
  {
    ReplayStarted(prev.Keys, current.Keys, current, prev);
    var between := prev.Keys + (current.Keys - prev.Keys);
    ReplayEnded(between, prev.Keys, current, prev, ts);
    ReplayConcat(prev.Keys, StartedEvents(current, prev), EndedEvents(current, prev, ts));
    assert between - (prev.Keys - current.Keys) == current.Keys;
  }

  // ---- whole runs --------------------------------------------------------------------------

  /** One collection, stored or not, or the loss (or corruption) of the state file. */
  datatype Turn = Cycle(current: map<string, Proc>, ts: nat, stored: bool) | StateLost

  datatype Snapshot = Snapshot(procs: map<string, Proc>, ts: nat) {
    function Keys(): set<string> {
      procs.Keys
    }
  }

  /**
   The persisted state, the set seeded last and the events emitted since, the snapshots
   stored since the state file last started over, and the history of the whole run.
   */
  datatype World = World(state: Persisted, seeded: set<string>, stream: seq<Event>, seen: seq<Snapshot>, history: History)

  /**
   The set seeded first, every event emitted since, whether there was a later seeding, what
   a consumer of those events believed at the last seeding, and the snapshots stored since it.
   */
  datatype History = History(first: set<string>, all: seq<Event>, reseeded: bool, before: set<string>, since: seq<Snapshot>)

  const START := World(map[], {}, [], [], History({}, [], false, {}, []))

  /** A seeding emits nothing. */
  function Seed(h: History, snapshot: Snapshot): History {
    if h.since == [] then History(snapshot.Keys(), [], false, snapshot.Keys(), [snapshot])
    else h.(reseeded := true, before := Replay(h.first, h.all), since := [snapshot])
  }

  ghost function Take(w: World, turn: Turn): World {
    match turn
    case StateLost => w.(state := map[], seen := [])
    case Cycle(current, ts, stored) =>
      if !stored then w
      else
        var snapshot := Snapshot(current, ts);
        var seen, h := w.seen + [snapshot], w.history;
        if w.state == map[] then World(Merged(current, w.state, ts), current.Keys, [], seen, Seed(h, snapshot))
        else
          var events := CycleEvents(current, w.state, ts);
          World(Merged(current, w.state, ts), w.seeded, w.stream + events, seen,
                h.(all := h.all + events, since := h.since + [snapshot]))
  }

  ghost function Run(turns: seq<Turn>): World {
    if turns == [] then START else Take(Run(turns[..|turns| - 1]), turns[|turns| - 1])
  }

  /** When the guid's current unbroken presence began; the guid is in the last snapshot. */
  function PresentSince(seen: seq<Snapshot>, g: string): nat
    requires seen != []
  {
    var n := |seen| - 1;
    if n == 0 || g !in seen[n - 1].Keys() then seen[n].ts else PresentSince(seen[..n], g)
  }

  ghost predicate Consistent(w: World) {
    && (w.state != map[] ==> Alternates(w.seeded, w.stream) && Replay(w.seeded, w.stream) == w.state.Keys)
    && (w.seen == [] ==> w.state == map[])
    && (w.seen != [] ==> w.state.Keys == w.seen[|w.seen| - 1].Keys())
    && (forall g :: g in w.state ==> w.state[g].firstSeen == PresentSince(w.seen, g))
    && (forall g :: g in w.state ==> Proc(w.state[g].pid, w.state[g].name) == w.seen[|w.seen| - 1].procs[g])
  }

  lemma PresentStep(seen: seq<Snapshot>, next: Snapshot, g: string)
    ensures PresentSince(seen + [next], g) ==
            if seen == [] || g !in seen[|seen| - 1].Keys() then next.ts else PresentSince(seen, g)
  {
    assert (seen + [next])[..|seen|] == seen;
  }

  lemma TakeKeepsStream(w: World, current: map<string, Proc>, ts: nat)
    requires Consistent(w)
    ensures var w' := Take(w, Cycle(current, ts, true));
            Alternates(w'.seeded, w'.stream) && Replay(w'.seeded, w'.stream) == current.Keys
  {
    if w.state != map[] {
      CycleReplays(current, w.state, ts);
      ReplayConcat(w.seeded, w.stream, CycleEvents(current, w.state, ts));
    }
  }

  lemma TakeKeepsFirstSeen(w: World, current: map<string, Proc>, ts: nat, g: string)
    requires Consistent(w) && g in current
    ensures var w' := Take(w, Cycle(current, ts, true)); w'.state[g].firstSeen == PresentSince(w'.seen, g)
  {
    PresentStep(w.seen, Snapshot(current, ts), g);
  }

  lemma {:induction false} RunIsConsistent(turns: seq<Turn>)
    ensures Consistent(Run(turns))
  {
    if turns != [] {
      var w, turn := Run(turns[..|turns| - 1]), turns[|turns| - 1];
      RunIsConsistent(turns[..|turns| - 1]);
      if turn.Cycle? && turn.stored {
        TakeKeepsStream(w, turn.current, turn.ts);
        var w' := Take(w, turn);
        assert w'.state.Keys == turn.current.Keys;
        forall g | g in w'.state ensures w'.state[g].firstSeen == PresentSince(w'.seen, g) {
          TakeKeepsFirstSeen(w, turn.current, turn.ts, g);
        }
      }
    }
  }

  /**
   Replay: after any run that ends in a stored cycle, folding the events emitted
   since the last seeding over the seeded set gives the snapshot's key set, and
   each guid's events alternate, starting from that set.
   */
  lemma EventsReplayToSnapshot(turns: seq<Turn>, current: map<string, Proc>, ts: nat)
    ensures var w := Run(turns + [Cycle(current, ts, true)]);
            Alternates(w.seeded, w.stream) && Replay(w.seeded, w.stream) == current.Keys
  {
    var all := turns + [Cycle(current, ts, true)];
    assert all[..|all| - 1] == turns;
    RunIsConsistent(turns);
    TakeKeepsStream(Run(turns), current, ts);
  }

  /** The time from `since` to `ts`, nothing when that lies in the past, and no number when it exceeds 64 bits. */
  predicate Lasts(duration: Option<U64>, since: nat, ts: nat) {
    if duration.None? then since + 0xFFFF_FFFF_FFFF_FFFF < ts
    else if since <= ts then since + duration.value == ts else duration.value == 0
  }

  lemma DurationLasts(ts: nat, since: nat)
    ensures Lasts(Duration(ts, since), since, ts)
  {
  }

  /** Every ended event reports the time since its process's unbroken presence began. */
  lemma DurationsAreExact(turns: seq<Turn>, current: map<string, Proc>, ts: nat, e: Event)
    requires e in CycleEvents(current, Run(turns).state, ts) && e.Ended?
    ensures var w := Run(turns);
            && w.seen != [] && e.guid in w.seen[|w.seen| - 1].Keys() && e.guid !in current
            && e.proc == w.seen[|w.seen| - 1].procs[e.guid]
            && Lasts(e.duration, PresentSince(w.seen, e.guid), ts)
  {
    var w := Run(turns);
    RunIsConsistent(turns);
    NoEndedAmongStarted(Ascending(current.Keys), current, w.state, e);
    DurationLasts(ts, PresentSince(w.seen, e.guid));
    EndedComesFrom(Ascending(w.state.Keys), current, w.state, ts, e);
  }

  /** Every started event shows a process of the snapshot that was not in the last one. */
  lemma StartsAreExact(turns: seq<Turn>, current: map<string, Proc>, ts: nat, e: Event)
    requires e in CycleEvents(current, Run(turns).state, ts) && e.Started?
    ensures var w := Run(turns);
            && w.seen != [] && e.guid !in w.seen[|w.seen| - 1].Keys()
            && e.guid in current && e.proc == current[e.guid]
  {
    var w := Run(turns);
    RunIsConsistent(turns);
    if e in EndedEvents(current, w.state, ts) {
      EndedComesFrom(Ascending(w.state.Keys), current, w.state, ts, e);
    }
    StartedComesFrom(Ascending(current.Keys), current, w.state, e);
  }

  lemma {:induction false} StartedComesFrom(guids: seq<string>, current: map<string, Proc>, prev: Persisted, e: Event)
    requires e in StartedFor(guids, current, prev)
    ensures e.Started? && e.guid in current && e.guid !in prev && e.proc == current[e.guid]
  {
    if e !in IfStarted(guids[0], current, prev) {
      StartedComesFrom(guids[1..], current, prev, e);
    }
  }

  lemma {:induction false} NoEndedAmongStarted(guids: seq<string>, current: map<string, Proc>, prev: Persisted, e: Event)
    requires e.Ended?
    ensures e !in StartedFor(guids, current, prev)
  {
    if guids != [] {
      NoEndedAmongStarted(guids[1..], current, prev, e);
    }
  }

  lemma {:induction false} EndedComesFrom(guids: seq<string>, current: map<string, Proc>, prev: Persisted, ts: nat, e: Event)
    requires e in EndedFor(guids, current, prev, ts)
    ensures e.Ended? && e.guid in prev && e.guid !in current && e.duration == Duration(ts, prev[e.guid].firstSeen)
    ensures e.proc == Proc(prev[e.guid].pid, prev[e.guid].name)
  {
    if e !in IfEnded(guids[0], current, prev, ts) {
      EndedComesFrom(guids[1..], current, prev, ts, e);
    }
  }

  // ---- re-seeding --------------------------------------------------------------------------------

  predicate Always(since: seq<Snapshot>, g: string) {
    forall k :: 0 <= k < |since| ==> g in since[k].Keys()
  }

  predicate Never(since: seq<Snapshot>, g: string) {
    forall k :: 0 <= k < |since| ==> g !in since[k].Keys()
  }

  /** Running according to all events ever emitted. */
  function Believed(h: History): set<string> {
    Replay(h.first, h.all)
  }

  /** A guid that came or went since the last seeding is believed right; the others as they were before it. */
  ghost predicate BeliefExplained(h: History)
    requires h.since != []
  {
    forall g :: g in Believed(h) <==>
      if Always(h.since, g) || Never(h.since, g) then g in h.before else g in h.since[|h.since| - 1].Keys()
  }

  ghost predicate Tracked(w: World) {
    && (w.state != map[] ==> w.history.since != [] && w.state.Keys == w.history.since[|w.history.since| - 1].Keys())
    && (w.history.since != [] ==> BeliefExplained(w.history))
  }

  lemma AlwaysNeverStep(since: seq<Snapshot>, next: Snapshot, g: string)
    ensures Always(since + [next], g) <==> Always(since, g) && g in next.Keys()
    ensures Never(since + [next], g) <==> Never(since, g) && g !in next.Keys()
  {
    var all := since + [next];
    assert all[|since|] == next && forall k :: 0 <= k < |since| ==> all[k] == since[k];
  }

  lemma DiffKeepsBelief(w: World, current: map<string, Proc>, ts: nat)
    requires Tracked(w) && w.state != map[]
    ensures BeliefExplained(Take(w, Cycle(current, ts, true)).history)
  {
    var h, h' := w.history, Take(w, Cycle(current, ts, true)).history;
    var events, next := CycleEvents(current, w.state, ts), Snapshot(current, ts);
    DiffApplies(Believed(h), current, w.state, ts);
    ReplayConcat(h.first, h.all, events);
    forall g
      ensures g in Believed(h') <==> if Always(h'.since, g) || Never(h'.since, g) then g in h'.before else g in current
    {
      AlwaysNeverStep(h.since, next, g);
      assert Always(h.since, g) ==> g in h.since[|h.since| - 1].Keys();
      assert Never(h.since, g) ==> g !in h.since[|h.since| - 1].Keys();
    }
  }

  lemma {:induction false} RunIsTracked(turns: seq<Turn>)
    ensures Tracked(Run(turns))
  {
    if turns != [] {
      var w, turn := Run(turns[..|turns| - 1]), turns[|turns| - 1];
      RunIsTracked(turns[..|turns| - 1]);
      if turn.Cycle? && turn.stored {
        if w.state != map[] {
          DiffKeepsBelief(w, turn.current, turn.ts);
        }
        assert Take(w, turn).state.Keys == turn.current.Keys;
      }
    }
  }

  predicate NeverLost(turns: seq<Turn>) {
    forall i :: 0 <= i < |turns| ==> turns[i].Cycle?
  }

  /** Without loss, a later seeding follows an empty snapshot, so nothing is believed to run. */
  ghost predicate SeedsFromNothing(w: World) {
    && (w.history.since != [] ==> w.state.Keys == w.history.since[|w.history.since| - 1].Keys())
    && (w.history.reseeded ==> w.history.before == {})
    && (!w.history.reseeded && w.history.since != [] ==> w.history.before == w.history.since[0].Keys())
  }

  lemma EmptyIsBelieved(w: World)
    requires Tracked(w) && SeedsFromNothing(w) && w.history.since != [] && w.state == map[]
    ensures Believed(w.history) == {}
  {
    var h := w.history;
    forall g ensures g !in Believed(h) {
      assert h.since[|h.since| - 1].Keys() == {};
      assert !Always(h.since, g);
      assert Never(h.since, g) ==> g !in h.since[0].Keys();
    }
  }

  lemma {:induction false} LosslessSeedsFromNothing(turns: seq<Turn>)
    requires NeverLost(turns)
    ensures SeedsFromNothing(Run(turns))
  {
    if turns != [] {
      var w, turn := Run(turns[..|turns| - 1]), turns[|turns| - 1];
      LosslessSeedsFromNothing(turns[..|turns| - 1]);
      RunIsTracked(turns[..|turns| - 1]);
      if turn.stored {
        if w.history.since != [] && w.state == map[] {
          EmptyIsBelieved(w);
        }
        assert Take(w, turn).state.Keys == turn.current.Keys;
      }
    }
  }

  /**
   Replay over the whole run, exactly: with the state file never lost, folding every event ever
   emitted over the first seeded set gives the current key set if and only if no current guid has
   been present in every snapshot since a later seeding.
   */
  lemma WholeRunReplaysIff(turns: seq<Turn>, current: map<string, Proc>, ts: nat)
    requires NeverLost(turns)
    ensures var h := Run(turns + [Cycle(current, ts, true)]).history;
            Believed(h) == current.Keys <==> !(h.reseeded && exists g :: g in current && Always(h.since, g))
  {
    var all := turns + [Cycle(current, ts, true)];
    RunStep(turns, Cycle(current, ts, true));
    var w := Run(all);
    RunIsTracked(all);
    LosslessSeedsFromNothing(all);
    assert w.state.Keys == current.Keys;
    BeliefIs(w.history);
  }

  lemma BeliefIs(h: History)
    requires h.since != [] && BeliefExplained(h)
    requires h.before == if h.reseeded then {} else h.since[0].Keys()
    ensures var now := h.since[|h.since| - 1].Keys();
            Believed(h) == now <==> !(h.reseeded && exists g :: g in now && Always(h.since, g))
  {
    var now := h.since[|h.since| - 1].Keys();
    forall g ensures g in Believed(h) <==> g in now && !(h.reseeded && Always(h.since, g)) {
      assert Always(h.since, g) ==> g in now && g in h.since[0].Keys();
      assert Never(h.since, g) ==> g !in now && g !in h.since[0].Keys();
    }
  }

  lemma RunStep(turns: seq<Turn>, turn: Turn)
    ensures Run(turns + [turn]) == Take(Run(turns), turn)
  {
    assert (turns + [turn])[..|turns|] == turns;
  }

  /** It does fail: after {a}, then {}, then {b}, the start of b is never sent. */
  lemma ReseedingIsSilent(a: string, b: string, p: Proc, ts: nat)
    requires a != b
    ensures var w := Run([Cycle(map[a := p], ts, true), Cycle(map[], ts, true), Cycle(map[b := p], ts, true)]);
            w.seeded == {b} && w.stream == [] && Believed(w.history) == {} && w.state.Keys == {b}
  {
    var first, second, third := Cycle(map[a := p], ts, true), Cycle(map[], ts, true), Cycle(map[b := p], ts, true);
    RunStep([], first);
    RunStep([first], second);
    RunStep([first, second], third);
    assert [] + [first] == [first] && [first] + [second] == [first, second];
    assert [first, second] + [third] == [first, second, third];
    assert map[a := p].Keys == {a} && map[b := p].Keys == {b};
    var one, two, three := Run([first]), Run([first, second]), Run([first, second, third]);
    assert one.history == History({a}, [], false, {a}, [Snapshot(map[a := p], ts)]) && one.state.Keys == {a};
    assert a in one.state && one.state != map[];
    assert two.history.all == CycleEvents(map[], one.state, ts);
    DiffApplies({a}, map[], one.state, ts);
    assert two.state.Keys == {} && two.state == map[];
  }
}
