/**
 The on-disk cache of verified detection packs: four files written one after the
 other, any write possibly failing or torn, and a reader that trusts only pairs
 whose digest and signature check out.
 */
module PackCache {
  import opened Prelude

  type Bytes = seq<Byte>

  datatype Meta = Meta(artifactId: string, packId: string, packVersion: string, sha256: string)

  datatype CachedPack = CachedPack(bytes: Bytes, meta: Meta)

  datatype Disk = Disk(activePack: Option<Bytes>, activeMeta: Option<Bytes>, prevPack: Option<Bytes>, prevMeta: Option<Bytes>)

  datatype File = ActivePack | ActiveMeta | PrevPack | PrevMeta

  datatype WriteOp = WriteOp(file: File, data: Bytes)

  /** How one write ends: done, failed before touching the file, or failed with `n` bytes of it written. */
  datatype Outcome = Done | Untouched | Torn(n: nat)

  /**
   The parts of the agent around the cache: the JSON form of the metadata, the
   digest of pack bytes, the digest named by the metadata, and the signature and
   compatibility checks of pack bytes.
   */
  datatype Trust = Trust(encode: Meta -> Bytes, decode: Bytes -> Option<Meta>,
                         digest: Bytes -> string, named: Meta -> string, authentic: Bytes -> bool)

  /** Metadata reads back, cut-off metadata does not parse, and digests do not collide. */
  ghost predicate Sound(t: Trust) {
    && (forall m :: t.decode(t.encode(m)) == Some(m))
    && (forall m, n :: 0 <= n < |t.encode(m)| ==> t.decode(t.encode(m)[..n]) == None)
    && (forall a, b :: t.digest(a) == t.digest(b) ==> a == b)
  }

  // ---- reading -----------------------------------------------------------------------------

  /** `load_active` / `load_previous`: no pack file is no pack; missing or broken metadata is an error. */
  function Load(t: Trust, pack: Option<Bytes>, meta: Option<Bytes>): Result<Option<CachedPack>, string> {
    if pack.None? then Ok(None)
    else if meta.None? then Err("meta missing")
    else
      var m := t.decode(meta.value);
      if m.None? then Err("meta json") else Ok(Some(CachedPack(pack.value, m.value)))
  }

  function LoadActive(t: Trust, d: Disk): Result<Option<CachedPack>, string> {
    Load(t, d.activePack, d.activeMeta)
  }

  function LoadPrevious(t: Trust, d: Disk): Result<Option<CachedPack>, string> {
    Load(t, d.prevPack, d.prevMeta)
  }

  predicate Verified(t: Trust, p: CachedPack) {
    t.authentic(p.bytes) && t.digest(p.bytes) == t.named(p.meta)
  }

  function IfVerified(t: Trust, loaded: Result<Option<CachedPack>, string>): Option<CachedPack> {
    if loaded.Ok? && loaded.value.Some? && Verified(t, loaded.value.value) then loaded.value else None
  }

  /** The pack the agent falls back on: active if it checks out, else previous if that does. */
  function Recover(t: Trust, d: Disk): Option<CachedPack> {
    var active := IfVerified(t, LoadActive(t, d));
    if active.Some? then active else IfVerified(t, LoadPrevious(t, d))
  }

  // ---- writing -----------------------------------------------------------------------------

  function Put(d: Disk, file: File, data: Bytes): Disk {
    match file
    case ActivePack => d.(activePack := Some(data))
    case ActiveMeta => d.(activeMeta := Some(data))
    case PrevPack => d.(prevPack := Some(data))
    case PrevMeta => d.(prevMeta := Some(data))
  }

  function WriteActiveOps(t: Trust, new_: CachedPack): seq<WriteOp> {
    [WriteOp(ActivePack, new_.bytes), WriteOp(ActiveMeta, t.encode(new_.meta))]
  }

  function PromoteOps(t: Trust, previous: Option<CachedPack>, new_: CachedPack): seq<WriteOp> {
    (if previous.Some? then [WriteOp(PrevPack, previous.value.bytes), WriteOp(PrevMeta, t.encode(previous.value.meta))] else [])
    + WriteActiveOps(t, new_)
  }

  function Land(d: Disk, op: WriteOp, o: Outcome): Disk {
    match o
    case Done => Put(d, op.file, op.data)
    case Untouched => d
    case Torn(n) => Put(d, op.file, op.data[..Min(n, |op.data|)])
  }

  /** The disk when the first `k` writes are done and the next one, if any, ends as `o`. */
  function DiskAfter(d: Disk, ops: seq<WriteOp>, k: nat, o: Outcome): Disk
    requires k <= |ops|
  {
    if k == |ops| then Completed(d, ops, k) else Land(Completed(d, ops, k), ops[k], o)
  }

  function Completed(d: Disk, ops: seq<WriteOp>, k: nat): Disk
    requires k <= |ops|
  {
    if k == 0 then d else Put(Completed(d, ops, k - 1), ops[k - 1].file, ops[k - 1].data)
  }

  class CacheDir {
    var disk: Disk

    /** `fs::write` of one file. */
    method Write(file: File, data: Bytes, o: Outcome) returns (ok: bool)
      modifies this
      ensures disk == Land(old(disk), WriteOp(file, data), o) && ok == o.Done?
    {
      disk := Land(disk, WriteOp(file, data), o);
      ok := o.Done?;
    }

    /**
     `outcome(i)` is how the i-th write of this call ends. Returns whether all
     were done; `stopped` counts those that were.
     */
    method PromoteAndWriteActive(t: Trust, previous: Option<CachedPack>, new_: CachedPack, outcome: nat -> Outcome)
      returns (ok: bool, ghost stopped: nat)
      modifies this
      ensures var ops := PromoteOps(t, previous, new_);
              && stopped <= |ops| && (ok <==> stopped == |ops|)
              && (forall i :: 0 <= i < stopped ==> outcome(i).Done?) && (!ok ==> !outcome(stopped).Done?)
              && disk == DiskAfter(old(disk), ops, stopped, outcome(stopped))
    {
      ghost var ops := PromoteOps(t, previous, new_);
      var i := 0;
      if previous.Some? {
        assert ops[0] == WriteOp(PrevPack, previous.value.bytes) && ops[1] == WriteOp(PrevMeta, t.encode(previous.value.meta));
        assert ops[2] == WriteOp(ActivePack, new_.bytes) && ops[3] == WriteOp(ActiveMeta, t.encode(new_.meta));
        ok := Write(PrevPack, previous.value.bytes, outcome(0));
        if !ok {
          return false, 0;
        }
        assert disk == Completed(old(disk), ops, 1);
        ok := Write(PrevMeta, t.encode(previous.value.meta), outcome(1));
        if !ok {
          return false, 1;
        }
        assert disk == Completed(old(disk), ops, 2);
        i := 2;
      }
      ok := Write(ActivePack, new_.bytes, outcome(i));
      if !ok {
        return false, i;
      }
      assert disk == Completed(old(disk), ops, i + 1);
      ok := Write(ActiveMeta, t.encode(new_.meta), outcome(i + 1));
      if !ok {
        return false, i + 1;
      }
      assert disk == Completed(old(disk), ops, i + 2);
      stopped := i + 2;
    }
  }

  // ---- crash safety ------------------------------------------------------------------------

  ghost predicate ActiveHolds(t: Trust, d: Disk, p: CachedPack) {
    d.activePack == Some(p.bytes) && d.activeMeta == Some(t.encode(p.meta))
  }

  ghost predicate PreviousHolds(t: Trust, d: Disk, p: CachedPack) {
    d.prevPack == Some(p.bytes) && d.prevMeta == Some(t.encode(p.meta))
  }

  /** The four writes of a promotion, spelled out. */
  lemma PromotionSteps(t: Trust, d: Disk, old_: CachedPack, new_: CachedPack, k: nat, o: Outcome)
    requires k <= 4
    ensures var ops := PromoteOps(t, Some(old_), new_);
            && |ops| == 4
            && (k < 2 ==> var d' := DiskAfter(d, ops, k, o); d'.activePack == d.activePack && d'.activeMeta == d.activeMeta)
            && (k >= 2 ==> PreviousHolds(t, DiskAfter(d, ops, k, o), old_))
            && (k == 4 ==> ActiveHolds(t, DiskAfter(d, ops, k, o), new_))
  {
    var ops := PromoteOps(t, Some(old_), new_);
    assert ops == [WriteOp(PrevPack, old_.bytes), WriteOp(PrevMeta, t.encode(old_.meta)),
                   WriteOp(ActivePack, new_.bytes), WriteOp(ActiveMeta, t.encode(new_.meta))];
    assert Completed(d, ops, 1) == Put(d, PrevPack, old_.bytes);
    assert Completed(d, ops, 2) == Put(Completed(d, ops, 1), PrevMeta, t.encode(old_.meta));
    assert Completed(d, ops, 3) == Put(Completed(d, ops, 2), ActivePack, new_.bytes);
    assert Completed(d, ops, 4) == Put(Completed(d, ops, 3), ActiveMeta, t.encode(new_.meta));
  }

  /**
   Promotion is crash-safe: wherever it stops and however the last write ends, a
   slot holds the old pack complete; done entirely, active is new and previous old.
   */
  lemma PromotionIsCrashSafe(t: Trust, d: Disk, old_: CachedPack, new_: CachedPack, k: nat, o: Outcome)
    requires k <= 4 && ActiveHolds(t, d, old_)
    ensures |PromoteOps(t, Some(old_), new_)| == 4
    ensures var d' := DiskAfter(d, PromoteOps(t, Some(old_), new_), k, o);
            && (ActiveHolds(t, d', old_) || PreviousHolds(t, d', old_))
            && (k == 4 ==> ActiveHolds(t, d', new_) && PreviousHolds(t, d', old_))
  {
    PromotionSteps(t, d, old_, new_, k, o);
  }

  lemma LoadsBack(t: Trust, p: CachedPack)
    requires Sound(t)
    ensures Load(t, Some(p.bytes), Some(t.encode(p.meta))) == Ok(Some(p))
  {
    assert t.decode(t.encode(p.meta)) == Some(p.meta);
  }

  /** A verified pair with the digest of `p` has the bytes of `p`. */
  lemma SameDigestSameBytes(t: Trust, p: CachedPack, q: CachedPack)
    requires Sound(t) && Verified(t, p) && Verified(t, q) && p.meta == q.meta
    ensures p == q
  {
    assert t.digest(p.bytes) == t.digest(q.bytes);
  }

  /** The metadata file of the active slot reads as old, as new, or not at all, whatever happened. */
  lemma ActiveMetaAfter(t: Trust, d: Disk, old_: CachedPack, new_: CachedPack, k: nat, o: Outcome)
    requires k <= 4 && Sound(t) && LoadActive(t, d) == Ok(Some(old_))
    ensures |PromoteOps(t, Some(old_), new_)| == 4
    ensures var d' := DiskAfter(d, PromoteOps(t, Some(old_), new_), k, o);
            && d'.activeMeta.Some?
            && (var m := t.decode(d'.activeMeta.value);
                m.None? || m.value == old_.meta || (m.value == new_.meta && d'.activePack == Some(new_.bytes)))
  {
    var ops := PromoteOps(t, Some(old_), new_);
    PromotionSteps(t, d, old_, new_, k, o);
    assert ops[0].file == PrevPack && ops[1].file == PrevMeta && ops[2] == WriteOp(ActivePack, new_.bytes);
    assert ops[3] == WriteOp(ActiveMeta, t.encode(new_.meta));
    assert t.decode(t.encode(new_.meta)) == Some(new_.meta);
    assert Completed(d, ops, 0).activeMeta == d.activeMeta;
    assert Completed(d, ops, 1).activeMeta == d.activeMeta;
    assert Completed(d, ops, 2).activeMeta == d.activeMeta;
    assert Completed(d, ops, 3).activeMeta == d.activeMeta && Completed(d, ops, 3).activePack == Some(new_.bytes);
    if k == 3 && o.Torn? {
      var n := Min(o.n, |t.encode(new_.meta)|);
      assert t.encode(new_.meta)[..|t.encode(new_.meta)|] == t.encode(new_.meta);
    }
  }

  /** End to end: after any interrupted promotion of a verified active pack, the reader finds the old or the new pack. */
  lemma RecoveryFindsOldOrNew(t: Trust, d: Disk, old_: CachedPack, new_: CachedPack, k: nat, o: Outcome)
    requires k <= 4 && Sound(t) && LoadActive(t, d) == Ok(Some(old_)) && Verified(t, old_)
    ensures |PromoteOps(t, Some(old_), new_)| == 4
    ensures var found := Recover(t, DiskAfter(d, PromoteOps(t, Some(old_), new_), k, o));
            found == Some(old_) || found == Some(new_)
  {
    var d' := DiskAfter(d, PromoteOps(t, Some(old_), new_), k, o);
    PromotionSteps(t, d, old_, new_, k, o);
    ActiveMetaAfter(t, d, old_, new_, k, o);
    LoadsBack(t, old_);
    var active := IfVerified(t, LoadActive(t, d'));
    if active.Some? && active.value.meta == old_.meta {
      SameDigestSameBytes(t, active.value, old_);
    }
  }

  // ---- updates on top of interrupted updates -----------------------------------------------

  /** What the agent writes for a new pack: it promotes whatever the active slot loads as, verified or not. */
  function UpdateOps(t: Trust, d: Disk, new_: CachedPack): seq<WriteOp> {
    var active := LoadActive(t, d);
    if active.Ok? && active.value.Some? then PromoteOps(t, active.value, new_) else WriteActiveOps(t, new_)
  }

  ghost predicate SurvivesAnyStop(t: Trust, d: Disk, new_: CachedPack) {
    forall k, o :: 0 <= k <= |UpdateOps(t, d, new_)| ==> Recover(t, DiskAfter(d, UpdateOps(t, d, new_), k, o)).Some?
  }

  /** Without a loadable active pack only the active files are written. */
  lemma FirstInstallKeepsPrevious(t: Trust, d: Disk, new_: CachedPack, k: nat, o: Outcome)
    requires k <= 2
    ensures var d' := DiskAfter(d, WriteActiveOps(t, new_), k, o); d'.prevPack == d.prevPack && d'.prevMeta == d.prevMeta
  {
    var ops := WriteActiveOps(t, new_);
    assert Completed(d, ops, 1) == Put(d, ActivePack, new_.bytes);
    assert Completed(d, ops, 2) == Put(Completed(d, ops, 1), ActiveMeta, t.encode(new_.meta));
  }

  /** Promoting an unverified pair destroys the only good slot if the agent stops after two writes. */
  lemma PromotingUnverifiedLoses(t: Trust, d: Disk, p: CachedPack, new_: CachedPack)
    requires Sound(t) && LoadActive(t, d) == Ok(Some(p)) && !Verified(t, p)
    ensures |UpdateOps(t, d, new_)| == 4 && Recover(t, DiskAfter(d, UpdateOps(t, d, new_), 2, Untouched)) == None
  {
    PromotionSteps(t, d, p, new_, 2, Untouched);
    LoadsBack(t, p);
    var ops := PromoteOps(t, Some(p), new_);
    assert Completed(d, ops, 1) == Put(d, PrevPack, p.bytes);
    assert DiskAfter(d, ops, 2, Untouched) == Put(Completed(d, ops, 1), PrevMeta, t.encode(p.meta));
  }

  /** The active slot does not load, or loads as a verified pack. */
  predicate Clean(t: Trust, d: Disk) {
    var active := LoadActive(t, d);
    active.Ok? && active.value.Some? ==> Verified(t, active.value.value)
  }

  /**
   Exactly when an update is safe to interrupt anywhere: the active slot either
   does not load or loads as a verified pack.
   */
  lemma UpdateSurvivesIff(t: Trust, d: Disk, new_: CachedPack)
    requires Sound(t) && Recover(t, d).Some?
    ensures SurvivesAnyStop(t, d, new_) <==> Clean(t, d)
  {
    var active := LoadActive(t, d);
    if active.Ok? && active.value.Some? {
      var p := active.value.value;
      if Verified(t, p) {
        forall k, o | 0 <= k <= |UpdateOps(t, d, new_)| ensures Recover(t, DiskAfter(d, UpdateOps(t, d, new_), k, o)).Some? {
          RecoveryFindsOldOrNew(t, d, p, new_, k, o);
        }
      } else {
        PromotingUnverifiedLoses(t, d, p, new_);
      }
    } else {
      forall k, o | 0 <= k <= |UpdateOps(t, d, new_)| ensures Recover(t, DiskAfter(d, UpdateOps(t, d, new_), k, o)).Some? {
        FirstInstallKeepsPrevious(t, d, new_, k, o);
      }
    }
  }

  /**
   One interruption is always survived, two need not be: stopping between the two
   active writes leaves new bytes under old metadata, and the next update promotes
   that pair over the good one.
   */
  lemma TwoInterruptionsCanLoseBoth(t: Trust, d: Disk, old_: CachedPack, new_: CachedPack)
    requires Sound(t) && ActiveHolds(t, d, old_) && Verified(t, old_) && Verified(t, new_) && old_.bytes != new_.bytes
    ensures |UpdateOps(t, d, new_)| == 4
    ensures var d1 := DiskAfter(d, UpdateOps(t, d, new_), 3, Untouched);
            && Recover(t, d1).Some? && |UpdateOps(t, d1, new_)| == 4
            && Recover(t, DiskAfter(d1, UpdateOps(t, d1, new_), 2, Untouched)) == None
  {
    LoadsBack(t, old_);
    RecoveryFindsOldOrNew(t, d, old_, new_, 3, Untouched);
    var ops := PromoteOps(t, Some(old_), new_);
    assert ops[2] == WriteOp(ActivePack, new_.bytes) && ops[0].file == PrevPack && ops[1].file == PrevMeta;
    var d1 := DiskAfter(d, ops, 3, Untouched);
    assert Completed(d, ops, 1).activeMeta == d.activeMeta;
    assert Completed(d, ops, 2).activeMeta == d.activeMeta;
    assert Completed(d, ops, 3).activeMeta == d.activeMeta;
    var mixed := CachedPack(new_.bytes, old_.meta);
    assert LoadActive(t, d1) == Ok(Some(mixed));
    if Verified(t, mixed) {
      SameDigestSameBytes(t, mixed, old_);
    }
    PromotingUnverifiedLoses(t, d1, mixed, new_);
  }

  // ---- whole runs of interrupted updates ---------------------------------------------------------

  /** No metadata without a pack: a pack's bytes are written before its metadata. */
  predicate Tidy(d: Disk) {
    d.activePack.None? ==> d.activeMeta.None?
  }

  /** One update: `done` of its writes are done and the next one, if any, ends as `stop`. */
  datatype Update = Update(new_: CachedPack, done: nat, stop: Outcome)

  predicate Possible(t: Trust, d: Disk, u: Update) {
    Verified(t, u.new_) && u.done <= |UpdateOps(t, d, u.new_)|
  }

  function AfterUpdate(t: Trust, d: Disk, u: Update): Disk
    requires Possible(t, d, u)
  {
    DiskAfter(d, UpdateOps(t, d, u.new_), u.done, u.stop)
  }

  /** What a write leaves of the data, if it touches the file at all. */
  function Landed(data: Bytes, o: Outcome): Bytes {
    if o.Torn? then data[..Min(o.n, |data|)] else data
  }

  /**
   The stops that put the cache at risk: the new pack's bytes, whole or torn, stand over the old
   pack's, and the old pack's metadata still stands beside them.
   */
  predicate RiskyStop(t: Trust, d: Disk, u: Update) {
    var active := LoadActive(t, d);
    active.Ok? && active.value.Some? &&
    (|| (u.done == 2 && !u.stop.Untouched? && Landed(u.new_.bytes, u.stop) != active.value.value.bytes)
     || (u.done == 3 && u.stop.Untouched? && u.new_.bytes != active.value.value.bytes))
  }

  /** The disk after a promotion stopped at its third or fourth write, or done. */
  lemma PromotionLate(t: Trust, d: Disk, old_: CachedPack, new_: CachedPack, k: nat, o: Outcome)
    requires 2 <= k <= 4
    ensures |PromoteOps(t, Some(old_), new_)| == 4
    ensures var d' := DiskAfter(d, PromoteOps(t, Some(old_), new_), k, o);
            && d'.activePack == (if k == 2 && o.Untouched? then d.activePack
                                 else Some(if k == 2 then Landed(new_.bytes, o) else new_.bytes))
            && d'.activeMeta == (if k == 2 || (k == 3 && o.Untouched?) then d.activeMeta
                                 else Some(if k == 3 then Landed(t.encode(new_.meta), o) else t.encode(new_.meta)))
  {
    var ops := PromoteOps(t, Some(old_), new_);
    assert ops == [WriteOp(PrevPack, old_.bytes), WriteOp(PrevMeta, t.encode(old_.meta)),
                   WriteOp(ActivePack, new_.bytes), WriteOp(ActiveMeta, t.encode(new_.meta))];
    assert Completed(d, ops, 1) == Put(d, PrevPack, old_.bytes);
    assert Completed(d, ops, 2) == Put(Completed(d, ops, 1), PrevMeta, t.encode(old_.meta));
    assert Completed(d, ops, 3) == Put(Completed(d, ops, 2), ActivePack, new_.bytes);
    assert Completed(d, ops, 4) == Put(Completed(d, ops, 3), ActiveMeta, t.encode(new_.meta));
  }

  /** Bytes beside the metadata of a verified pack are verified exactly when they are that pack's. */
  lemma BesideOldMeta(t: Trust, p: CachedPack, bytes: Bytes)
    requires Sound(t) && Verified(t, p)
    ensures Verified(t, CachedPack(bytes, p.meta)) <==> bytes == p.bytes
  {
    if Verified(t, CachedPack(bytes, p.meta)) {
      SameDigestSameBytes(t, CachedPack(bytes, p.meta), p);
    }
  }

  /** Metadata as a write left it reads back as itself or not at all. */
  lemma LandedMeta(t: Trust, m: Meta, o: Outcome)
    requires Sound(t)
    ensures var r := t.decode(Landed(t.encode(m), o)); r == Some(m) || r == None
  {
    var whole := t.encode(m);
    assert t.decode(whole) == Some(m);
    if o.Torn? {
      assert o.n < |whole| ==> t.decode(whole[..o.n]) == None;
      assert whole[..|whole|] == whole;
    }
  }

  lemma PromotionCleanIff(t: Trust, d: Disk, old_: CachedPack, u: Update)
    requires Sound(t) && LoadActive(t, d) == Ok(Some(old_)) && Verified(t, old_) && Possible(t, d, u)
    ensures Tidy(AfterUpdate(t, d, u)) && (Clean(t, AfterUpdate(t, d, u)) <==> !RiskyStop(t, d, u))
  {
    var d' := AfterUpdate(t, d, u);
    PromotionSteps(t, d, old_, u.new_, u.done, u.stop);
    if u.done >= 2 {
      PromotionLate(t, d, old_, u.new_, u.done, u.stop);
      LandedMeta(t, u.new_.meta, u.stop);
      assert t.decode(t.encode(u.new_.meta)) == Some(u.new_.meta);
      if d'.activePack.Some? {
        BesideOldMeta(t, old_, d'.activePack.value);
      }
    }
  }

  lemma InstallStaysClean(t: Trust, d: Disk, u: Update)
    requires Sound(t) && Tidy(d) && Possible(t, d, u)
    requires var active := LoadActive(t, d); !(active.Ok? && active.value.Some?)
    ensures Tidy(AfterUpdate(t, d, u)) && Clean(t, AfterUpdate(t, d, u))
  {
    var ops := WriteActiveOps(t, u.new_);
    assert Completed(d, ops, 1) == Put(d, ActivePack, u.new_.bytes);
    assert Completed(d, ops, 2) == Put(Completed(d, ops, 1), ActiveMeta, t.encode(u.new_.meta));
    LandedMeta(t, u.new_.meta, u.stop);
    assert t.decode(t.encode(u.new_.meta)) == Some(u.new_.meta);
  }

  /** From a clean disk, exactly the risky stops leave the active slot loading as an unverified pair. */
  lemma CleanAfterIff(t: Trust, d: Disk, u: Update)
    requires Sound(t) && Tidy(d) && Clean(t, d) && Possible(t, d, u)
    ensures Tidy(AfterUpdate(t, d, u)) && (Clean(t, AfterUpdate(t, d, u)) <==> !RiskyStop(t, d, u))
  {
    var active := LoadActive(t, d);
    if active.Ok? && active.value.Some? {
      PromotionCleanIff(t, d, active.value.value, u);
    } else {
      InstallStaysClean(t, d, u);
    }
  }

  ghost predicate PossibleRun(t: Trust, d: Disk, run: seq<Update>)
    decreases |run|
  {
    run == [] || (Possible(t, d, run[0]) && PossibleRun(t, AfterUpdate(t, d, run[0]), run[1..]))
  }

  /** At every point of the run, one more update can be stopped anywhere without losing every verified pack. */
  ghost predicate NeverAtRisk(t: Trust, d: Disk, run: seq<Update>)
    requires PossibleRun(t, d, run)
    decreases |run|
  {
    && (forall next :: SurvivesAnyStop(t, d, next))
    && (run == [] || NeverAtRisk(t, AfterUpdate(t, d, run[0]), run[1..]))
  }

  ghost predicate NoRiskyStop(t: Trust, d: Disk, run: seq<Update>)
    requires PossibleRun(t, d, run)
    decreases |run|
  {
    run == [] || (!RiskyStop(t, d, run[0]) && NoRiskyStop(t, AfterUpdate(t, d, run[0]), run[1..]))
  }

  /**
   Over every sequence of updates, each stopped anywhere: a verified pack is safe throughout, however
   the next update ends, if and only if no update stopped while new bytes stood beside old metadata.
   */
  lemma {:induction false} RunsSurviveIff(t: Trust, d: Disk, run: seq<Update>)
    requires Sound(t) && Tidy(d) && Clean(t, d) && Recover(t, d).Some? && PossibleRun(t, d, run)
    ensures NeverAtRisk(t, d, run) <==> NoRiskyStop(t, d, run)
    decreases |run|
  {
    forall next ensures SurvivesAnyStop(t, d, next) {
      UpdateSurvivesIff(t, d, next);
    }
    if run != [] {
      var u := run[0];
      var d' := AfterUpdate(t, d, u);
      CleanAfterIff(t, d, u);
      assert SurvivesAnyStop(t, d, u.new_);
      assert Recover(t, d').Some?;
      if RiskyStop(t, d, u) {
        UpdateSurvivesIff(t, d', u.new_);
      } else {
        RunsSurviveIff(t, d', run[1..]);
      }
    }
  }
}
