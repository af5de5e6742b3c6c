/** `run_surreal_delta_sync`: the phase loop, its resume state and the progress it reports. */
module DeltaRunner {
  import opened Numbers
  import opened DeltaTypes
  import opened Wrappers
  import opened DeltaOps
  import opened DeltaPlan
  import opened DeltaConvergence
  import opened DeltaAccounting
  import opened DeltaGraph
  import opened DeltaWriter

  datatype Status = Running | Skipped | Applied | Failed

  datatype Progress = Progress(status: Status, phase: Option<PhaseName>, total: nat, applied: nat) {

    /** `percent_complete`. */
    function Percent(): real {
      if total <= 0 then 100.0
      else
        var q := applied as real / total as real * 100.0;
        if q <= 100.0 then q else 100.0
    }
  }

  /** `_build_progress`, without the timing text. */
  function BuildProgress(status: Status, phase: Option<PhaseName>, total: nat, completed: nat): Progress {
    Progress(status, phase, total, Min(completed, total))
  }

  lemma PercentGrows(p: Progress, q: Progress)
    requires p.total == q.total && p.applied <= q.applied
    ensures 0.0 <= p.Percent() <= q.Percent() <= 100.0
  {
    if p.total > 0 {
      QuotientGrows(p.applied as real, q.applied as real, p.total as real);
    }
  }

  lemma QuotientGrows(x: real, y: real, t: real)
    requires 0.0 <= x <= y && t > 0.0
    ensures 0.0 <= x / t <= y / t
  {
    assert y / t - x / t == (y - x) / t;
  }

  lemma FullPercent(p: Progress)
    requires p.applied == p.total
    ensures p.Percent() == 100.0
  {
    if p.total > 0 {
      assert p.total as real / p.total as real == 1.0;
    }
  }

  /** Since entry `from`, reports are about one total, never fall, and stay within `completed` units. */
  ghost predicate Rising(log: seq<Progress>, from: nat, total: nat, completed: nat) {
    && from <= |log|
    && (forall i | from <= i < |log| :: log[i].total == total && log[i].applied <= Min(completed, total))
    && (forall i, j | from <= i <= j < |log| :: log[i].applied <= log[j].applied)
  }

  /** Since entry `from`, reported percentages stay within 0..100 and never fall. */
  ghost predicate PercentRises(log: seq<Progress>, from: nat) {
    forall i, j | from <= i <= j < |log| :: 0.0 <= log[i].Percent() <= log[j].Percent() <= 100.0
  }

  lemma RisingPercent(log: seq<Progress>, from: nat, total: nat, completed: nat)
    requires Rising(log, from, total, completed)
    ensures PercentRises(log, from)
  {
    forall i, j | from <= i <= j < |log|
      ensures 0.0 <= log[i].Percent() <= log[j].Percent() <= 100.0
    {
      PercentGrows(log[i], log[j]);
    }
  }

  class SyncState {
    var done: seq<PhaseName>
    var units: nat
    var checkpointApplied: bool
    /** Everything reported through `last_progress` and the callback, in order. */
    var log: seq<Progress>

    constructor ()
      ensures done == [] && units == 0 && !checkpointApplied && log == []
    {
      done, units, checkpointApplied, log := [], 0, false, [];
    }

    method Emit(status: Status, phase: Option<PhaseName>, total: nat, completed: nat, ghost from: nat)
      requires Rising(log, from, total, completed)
      modifies this`log
      ensures log == old(log) + [BuildProgress(status, phase, total, completed)]
      ensures Rising(log, from, total, completed)
    {
      log := log + [BuildProgress(status, phase, total, completed)];
    }

    method Complete(name: PhaseName, n: nat)
      modifies this
      ensures done == old(done) + [name] && units == old(units) + n
      ensures checkpointApplied == (old(checkpointApplied) || name == CheckpointCandidate)
      ensures log == old(log)
    {
      done := done + [name];
      units := units + n;
      if name == CheckpointCandidate {
        checkpointApplied := true;
      }
    }
  }

  ghost function Snap(w: StoreWriter, st: SyncState): Snapshot
    reads w, st
  {
    Snapshot(w.store, st.done, st.units, st.checkpointApplied)
  }

  /** Every graph batch of the phase is one the code runs as plain operations. */
  ghost predicate BatchesSettled(cfg: Config, p: Phase, size: nat)
    requires size > 0
  {
    p.name == Graph ==> forall b | b in Batches(p.rows, size) :: Settled(cfg, b)
  }

  ghost predicate ManifestSettled(cfg: Config, m: Manifest, size: nat)
    requires size > 0
  {
    PlanSettled(cfg, Phases(m), size)
  }

  lemma {:induction false} BatchesOpsConcat(
    cfg: Config, name: PhaseName, a: seq<seq<Change>>, b: seq<seq<Change>>, e: Store)
    ensures BatchesOps(cfg, name, a + b, e) == BatchesOps(cfg, name, a, e) + BatchesOps(cfg, name, b, e)
  {
    if a == [] {
      assert a + b == b;
    } else {
      assert (a + b)[1..] == a[1..] + b;
      BatchesOpsConcat(cfg, name, a[1..], b, e);
    }
  }

  lemma {:induction false} BatchesOpsSnoc(cfg: Config, name: PhaseName, bs: seq<seq<Change>>, b: seq<Change>, e: Store)
    ensures BatchesOps(cfg, name, bs + [b], e) == BatchesOps(cfg, name, bs, e) + BatchOps(cfg, name, b, e)
  {
    BatchesOpsConcat(cfg, name, bs, [b], e);
    BatchesOpsCons(cfg, name, b, [], e);
    assert [b] + [] == [b];
  }

  /** The operations of a phase around its j-th batch. */
  lemma AroundBatch(cfg: Config, name: PhaseName, bs: seq<seq<Change>>, j: nat, e: Store)
    requires j < |bs|
    ensures BatchesOps(cfg, name, bs[..j + 1], e) == BatchesOps(cfg, name, bs[..j], e) + BatchOps(cfg, name, bs[j], e)
    ensures BatchesOps(cfg, name, bs, e)
         == (BatchesOps(cfg, name, bs[..j], e) + BatchOps(cfg, name, bs[j], e)) + BatchesOps(cfg, name, bs[j + 1..], e)
  {
    assert bs[..j + 1] == bs[..j] + [bs[j]];
    assert bs == (bs[..j] + [bs[j]]) + bs[j + 1..];
    AroundOne(cfg, name, bs[..j], bs[j], bs[j + 1..], e);
  }

  lemma {:induction false} AroundOne(
    cfg: Config, name: PhaseName, a: seq<seq<Change>>, b: seq<Change>, c: seq<seq<Change>>, e: Store)
    ensures BatchesOps(cfg, name, a + [b], e) == BatchesOps(cfg, name, a, e) + BatchOps(cfg, name, b, e)
    ensures BatchesOps(cfg, name, (a + [b]) + c, e)
         == (BatchesOps(cfg, name, a, e) + BatchOps(cfg, name, b, e)) + BatchesOps(cfg, name, c, e)
  {
    BatchesOpsSnoc(cfg, name, a, b, e);
    BatchesOpsConcat(cfg, name, a + [b], c, e);
  }

  /** A batch cut short cuts its phase short. */
  lemma CutBatchCutsPhase(
    cfg: Config, name: PhaseName, bs: seq<seq<Change>>, j: nat, e: Store, s: Store, s': Store)
    requires j < |bs|
    requires Interrupted(BatchOps(cfg, name, bs[j], e), Run(BatchesOps(cfg, name, bs[..j], e), s), s')
    ensures Interrupted(BatchesOps(cfg, name, bs, e), s, s')
  {
    AroundBatch(cfg, name, bs, j, e);
    InterruptedAfter(BatchesOps(cfg, name, bs[..j], e), BatchOps(cfg, name, bs[j], e), s, s');
    InterruptedBefore(BatchesOps(cfg, name, bs[..j + 1], e), BatchesOps(cfg, name, bs[j + 1..], e), s, s');
  }

  /** Earlier batches of a phase that reads the embeddings leave them alone; other phases do not read them. */
  lemma BatchOpsStable(cfg: Config, name: PhaseName, bs: seq<seq<Change>>, j: nat, s: Store)
    requires j < |bs| && name != CheckpointCandidate
    ensures
      var e := EmbeddingsIn(s);
      BatchOps(cfg, name, bs[j], EmbeddingsIn(Run(BatchesOps(cfg, name, bs[..j], e), s)))
      == BatchOps(cfg, name, bs[j], e)
  {
    var e := EmbeddingsIn(s);
    var t := Run(BatchesOps(cfg, name, bs[..j], e), s);
    if name == VectorComponents {
      FlatSectionBatches(cfg, name, bs[..j], e);
      var rows := Flat(bs[..j]);
      SectionKeepsEmbeddings(cfg, name, rows, |rows|, s);
      assert RowOps(cfg, name, rows, e)[..|rows|] == RowOps(cfg, name, rows, e);
    } else {
      BatchIgnoresEmbeddings(cfg, name, bs[j], EmbeddingsIn(t), e);
    }
  }

  lemma {:induction false} FlatSectionBatches(cfg: Config, name: PhaseName, bs: seq<seq<Change>>, e: Store)
    requires name != Graph
    ensures BatchesOps(cfg, name, bs, e) == RowOps(cfg, name, Flat(bs), e)
  {
    if bs == [] {
    } else {
      FlatSectionBatches(cfg, name, bs[1..], e);
      RowOpsConcat(cfg, name, bs[0], Flat(bs[1..]), e);
    }
  }

  /** `getattr(writer, phase.writer_method)(batch)`. */
  method WriteBatch(w: StoreWriter, name: PhaseName, batch: seq<Change>) returns (applied: nat, ok: bool)
    requires name != CheckpointCandidate
    modifies w
    ensures name == Graph ==> (ok ==> w.store == GraphBatchResult(w.cfg, batch, old(w.store)))
    ensures
      var ops := BatchOps(w.cfg, name, batch, EmbeddingsIn(old(w.store)));
      && (ok && (name != Graph || Settled(w.cfg, batch)) ==> w.store == Run(ops, old(w.store)))
      && (!ok ==> Interrupted(ops, old(w.store), w.store))
  {
    ghost var start := w.store;
    if name == Tombstones {
      applied, ok := w.DeleteTombstones(batch);
    } else if name == Graph {
      applied, ok := w.WriteGraph(batch);
      if Settled(w.cfg, batch) {
        SettledBatchIsPlain(w.cfg, batch, start);
      }
    } else {
      applied, ok := w.WriteSection(name, batch);
    }
  }

  /** The j-th batch of a phase that started from `start`. */
  method WriteNextBatch(w: StoreWriter, name: PhaseName, bs: seq<seq<Change>>, j: nat, ghost start: Store)
    returns (applied: nat, ok: bool)
    requires name != CheckpointCandidate && j < |bs|
    modifies w
    ensures
      var e := EmbeddingsIn(start);
      old(w.store) == Run(BatchesOps(w.cfg, name, bs[..j], e), start) ==>
        && (ok && (name != Graph || Settled(w.cfg, bs[j])) ==>
              w.store == Run(BatchesOps(w.cfg, name, bs[..j + 1], e), start))
        && (!ok ==> Interrupted(BatchesOps(w.cfg, name, bs, e), start, w.store))
  {
    ghost var e := EmbeddingsIn(start);
    ghost var done, next := BatchesOps(w.cfg, name, bs[..j], e), BatchOps(w.cfg, name, bs[j], e);
    BatchOpsStable(w.cfg, name, bs, j, start);
    AroundBatch(w.cfg, name, bs, j, e);
    RunConcat(done, next, start);
    applied, ok := WriteBatch(w, name, bs[j]);
    if !ok && Interrupted(next, Run(done, start), w.store) {
      CutBatchCutsPhase(w.cfg, name, bs, j, e, start, w.store);
    }
  }

  /** The last report is of this status and phase. */
  ghost predicate EndsWith(log: seq<Progress>, status: Status, name: PhaseName) {
    log != [] && log[|log| - 1].status == status && log[|log| - 1].phase == Some(name)
  }

  /** Since entry `mark` there are reports, all of them about one phase. */
  ghost predicate About(log: seq<Progress>, mark: nat, name: PhaseName) {
    mark < |log| && forall i | mark <= i < |log| :: log[i].phase == Some(name)
  }

  /** The batches of one phase; the state is not touched until all of them are through. */
  method RunBatches(w: StoreWriter, st: SyncState, p: Phase, size: nat, total: nat, ghost from: nat, ghost mark: nat)
    returns (ok: bool)
    requires size > 0 && p.name != CheckpointCandidate
    requires Rising(st.log, from, total, st.units) && About(st.log, mark, p.name)
    modifies w, st`log
    ensures
      var ops := BatchesOps(w.cfg, p.name, Batches(p.rows, size), EmbeddingsIn(old(w.store)));
      BatchesSettled(w.cfg, p, size) ==>
        if ok then w.store == Run(ops, old(w.store)) else Interrupted(ops, old(w.store), w.store)
    ensures Rising(st.log, from, total, st.units + PhaseUnits(p)) && About(st.log, mark, p.name)
    ensures |st.log| >= |old(st.log)|
  {
    ghost var start := w.store;
    ghost var e, agree := EmbeddingsIn(start), BatchesSettled(w.cfg, p, size);
    var units, applied := PhaseUnits(p), 0;
    var bs := Batches(p.rows, size);
    ok := true;
    for j := 0 to |bs|
      invariant ok && (agree ==> w.store == Run(BatchesOps(w.cfg, p.name, bs[..j], e), start))
      invariant Rising(st.log, from, total, st.units + Min(applied, units))
      invariant About(st.log, mark, p.name) && |st.log| >= |old(st.log)|
    {
      assert bs[j] in bs;
      var n;
      n, ok := WriteNextBatch(w, p.name, bs, j, start);
      if !ok {
        return;
      }
      applied := applied + n;
      st.Emit(Running, Some(p.name), total, st.units + Min(applied, units), from);
    }
    assert bs[..|bs|] == bs;
  }

  // ---- one more phase ----

  /** What completing phase p makes of a snapshot. */
  ghost function Completed(cfg: Config, c: Checkpoint, size: nat, p: Phase, s: Snapshot): Snapshot
    requires size > 0
  {
    Snapshot(RunPhase(cfg, c, size, p, s.store), s.done + [p.name], s.units + PhaseUnits(p),
             s.checkpointApplied || p.name == CheckpointCandidate)
  }

  /** What a failure inside phase p makes of a snapshot. */
  ghost predicate CutShort(cfg: Config, c: Checkpoint, size: nat, p: Phase, s: Snapshot, s': Snapshot)
    requires size > 0
  {
    && s' == s.(store := s'.store)
    && Interrupted(PhaseOps(cfg, c, size, p, EmbeddingsIn(s.store)), s.store, s'.store)
  }

  /** Resume states that differ in the store at most. */
  ghost predicate SameState(s: Snapshot, s': Snapshot) {
    s'.done == s.done && s'.units == s.units && s'.checkpointApplied == s.checkpointApplied
  }

  lemma AfterNext(cfg: Config, c: Checkpoint, size: nat, ps: seq<Phase>, n: nat, s: Snapshot)
    requires size > 0 && n < |ps|
    ensures
      var before := After(cfg, c, size, ps[..n], s);
      After(cfg, c, size, ps[..n + 1], s) ==
      if ps[n].name in s.done || PhaseUnits(ps[n]) == 0 then before else Completed(cfg, c, size, ps[n], before)
  {
    assert ps[..n + 1] == ps[..n] + [ps[n]];
    AfterSnoc(cfg, c, size, ps[..n], ps[n], s);
  }

  lemma AfterSnoc(cfg: Config, c: Checkpoint, size: nat, ps: seq<Phase>, p: Phase, s: Snapshot)
    requires size > 0
    ensures
      var before := After(cfg, c, size, ps, s);
      After(cfg, c, size, ps + [p], s) ==
      if p.name in s.done || PhaseUnits(p) == 0 then before else Completed(cfg, c, size, p, before)
  {
    RunPhasesConcat(cfg, c, size, ps, [p], s.done, s.store);
    CompletesConcat(ps, [p], s.done);
    OnePhase(cfg, c, size, p, s.done, After(cfg, c, size, ps, s).store);
  }

  /** One phase that is neither done nor empty. */
  method RunOnePhase(
    w: StoreWriter, st: SyncState, c: Checkpoint, p: Phase, size: nat, total: nat, ghost from: nat, ghost mark: nat)
    returns (ok: bool)
    requires size > 0
    requires Rising(st.log, from, total, st.units) && About(st.log, mark, p.name)
    modifies w, st
    ensures
      var s, s' := old(Snap(w, st)), Snap(w, st);
      BatchesSettled(w.cfg, p, size) ==>
        if ok then s' == Completed(w.cfg, c, size, p, s) else CutShort(w.cfg, c, size, p, s, s')
    ensures
      var s, s' := old(Snap(w, st)), Snap(w, st);
      SameState(if ok then Completed(w.cfg, c, size, p, s) else s, s')
    ensures Rising(st.log, from, total, old(st.units) + PhaseUnits(p))
    ensures About(st.log, mark, p.name) && |st.log| >= |old(st.log)|
  {
    var units := PhaseUnits(p);
    if p.name == CheckpointCandidate {
      var n;
      n, ok := w.WriteCheckpoint(c);
    } else {
      ok := RunBatches(w, st, p, size, total, from, mark);
    }
    if ok {
      st.Complete(p.name, units);
    }
  }

  ghost predicate PlanSettled(cfg: Config, ps: seq<Phase>, size: nat)
    requires size > 0
  {
    forall p | p in ps :: BatchesSettled(cfg, p, size)
  }

  /** One phase of a plan: skipped when done or empty, run otherwise; a failure is reported as such. */
  method RunNextPhase(
    w: StoreWriter, st: SyncState, c: Checkpoint, p: Phase, done: seq<PhaseName>,
    size: nat, total: nat, ghost from: nat)
    returns (ok: bool)
    requires size > 0
    requires from < |st.log| && Rising(st.log, from, total, st.units)
    modifies w, st
    ensures
      var s, s' := old(Snap(w, st)), Snap(w, st);
      BatchesSettled(w.cfg, p, size) ==>
        if !ok then p.name !in done && CutShort(w.cfg, c, size, p, s, s')
        else s' == if p.name in done || PhaseUnits(p) == 0 then s else Completed(w.cfg, c, size, p, s)
    ensures
      var s, s' := old(Snap(w, st)), Snap(w, st);
      SameState(if !ok || p.name in done || PhaseUnits(p) == 0 then s else Completed(w.cfg, c, size, p, s), s')
    ensures from < |st.log| && Rising(st.log, from, total, if ok then st.units else total)
    ensures EndsWith(st.log, if !ok then Failed else if p.name in done || PhaseUnits(p) == 0 then Skipped else Applied,
                     p.name)
  {
    st.Emit(Running, Some(p.name), total, st.units, from);
    if p.name in done || PhaseUnits(p) == 0 {
      st.Emit(Skipped, Some(p.name), total, st.units, from);
      ok := true;
    } else {
      ok := RunOnePhase(w, st, c, p, size, total, from, |st.log| - 1);
      if ok {
        st.Emit(Applied, Some(p.name), total, st.units, from);
      } else {
        var last := st.log[|st.log| - 1];
        st.log := st.log + [Progress(Failed, last.phase, total, last.applied)];
      }
    }
  }

  lemma NothingRunYet(cfg: Config, c: Checkpoint, size: nat, ps: seq<Phase>, s: Snapshot)
    requires size > 0
    ensures After(cfg, c, size, ps[..0], s) == s
  {
    assert ps[..0] == [];
  }

  /** The state is that of the first n phases, whatever the store. */
  ghost predicate StateOf(
    cfg: Config, c: Checkpoint, size: nat, ps: seq<Phase>, s: Snapshot, s': Snapshot, n: nat)
    requires size > 0
  {
    n <= |ps| && SameState(After(cfg, c, size, ps[..n], s), s')
  }

  lemma StateIsAccounted(cfg: Config, m: Manifest, size: nat, s: Snapshot, s': Snapshot, n: nat)
    requires size > 0 && StateOf(cfg, m.checkpoint, size, Phases(m), s, s', n)
    ensures Accounted(m, s) ==> Accounted(m, s')
    ensures Accounted(m, s) && n == |Phases(m)| ==> s'.units == TotalUnits(Phases(m))
    ensures n == |Phases(m)| ==> SameState(After(cfg, m.checkpoint, size, Phases(m), s), s')
  {
    var ps := Phases(m);
    PhaseOrder(m);
    if Accounted(m, s) {
      AfterIsAccounted(cfg, m.checkpoint, size, ps, n, s);
    }
    if n == |ps| {
      assert ps[..n] == ps;
      if Accounted(m, s) {
        FinishedUnits(cfg, m, size, s);
      }
    }
  }

  /** The phase loop. */
  method RunPlan(w: StoreWriter, st: SyncState, c: Checkpoint, ps: seq<Phase>, size: nat, total: nat)
    returns (ok: bool)
    requires size > 0
    modifies w, st
    ensures
      var s, s' := old(Snap(w, st)), Snap(w, st);
      PlanSettled(w.cfg, ps, size) ==>
        if ok then s' == After(w.cfg, c, size, ps, s) else exists n: nat :: FailsAt(w.cfg, c, size, ps, s, s', n)
    ensures
      var s, s' := old(Snap(w, st)), Snap(w, st);
      exists n: nat :: StateOf(w.cfg, c, size, ps, s, s', n) && (ok ==> n == |ps|)
    ensures |old(st.log)| < |st.log| && Rising(st.log, |old(st.log)|, total, if ok then st.units else total)
    ensures !ok ==> exists p :: p in ps && EndsWith(st.log, Failed, p.name)
  {
    ghost var s0, from := Snap(w, st), |st.log|;
    var done := st.done;
    st.Emit(Running, None, total, st.units, from);
    ok := true;
    NothingRunYet(w.cfg, c, size, ps, s0);
    for i := 0 to |ps|
      invariant ok && (PlanSettled(w.cfg, ps, size) ==> Snap(w, st) == After(w.cfg, c, size, ps[..i], s0))
      invariant StateOf(w.cfg, c, size, ps, s0, Snap(w, st), i)
      invariant from < |st.log| && Rising(st.log, from, total, st.units)
    {
      assert ps[i] in ps;
      AfterNext(w.cfg, c, size, ps, i, s0);
      ok := RunNextPhase(w, st, c, ps[i], done, size, total, from);
      assert !ok && PlanSettled(w.cfg, ps, size) ==> FailsAt(w.cfg, c, size, ps, s0, Snap(w, st), i);
      if !ok {
        assert StateOf(w.cfg, c, size, ps, s0, Snap(w, st), i);
        return;
      }
    }
    assert ps[..|ps|] == ps;
    assert StateOf(w.cfg, c, size, ps, s0, Snap(w, st), |ps|);
  }

  /**
   * One run. When it finishes, store and state are those of `FinishedRun`; when it raises, those of
   * `FailedRun`. For every manifest, whatever becomes of the store: the state stays accounted for, a run
   * that finishes has all units and reports 100 last, and percentages stay in 0..100 and never fall.
   */
  method RunSync(w: StoreWriter, st: SyncState, m: Manifest, size: nat) returns (ok: bool)
    requires size > 0
    modifies w, st
    ensures
      var s, s' := old(Snap(w, st)), Snap(w, st);
      ManifestSettled(w.cfg, m, size) ==>
        if ok then FinishedRun(w.cfg, m, size, s, s') else FailedRun(w.cfg, m, size, s, s')
    ensures
      var s, s' := old(Snap(w, st)), Snap(w, st);
      && (ok ==> SameState(After(w.cfg, m.checkpoint, size, Phases(m), s), s'))
      && (Accounted(m, s) ==> Accounted(m, s'))
    ensures |old(st.log)| < |st.log| && PercentRises(st.log, |old(st.log)|)
    ensures if ok then EndsWith(st.log, Applied, CheckpointCandidate)
            else exists name :: EndsWith(st.log, Failed, name)
    ensures ok && Accounted(m, old(Snap(w, st))) ==>
              st.units == TotalUnits(Phases(m)) && st.log[|st.log| - 1].Percent() == 100.0
  {
    ghost var s0, from := Snap(w, st), |st.log|;
    var ps := Phases(m);
    var total := TotalUnits(ps);
    ok := RunPlan(w, st, m.checkpoint, ps, size, total);
    ghost var n: nat :| StateOf(w.cfg, m.checkpoint, size, ps, s0, Snap(w, st), n) && (ok ==> n == |ps|);
    StateIsAccounted(w.cfg, m, size, s0, Snap(w, st), n);
    if !ok {
      RisingPercent(st.log, from, total, total);
      if ManifestSettled(w.cfg, m, size) {
        ghost var i: nat :| FailsAt(w.cfg, m.checkpoint, size, ps, s0, Snap(w, st), i);
        assert FailsIn(w.cfg, m, size, s0, Snap(w, st), i);
      }
      return;
    }
    st.Emit(Applied, Some(CheckpointCandidate), total, st.units, from);
    RisingPercent(st.log, from, total, st.units);
    if Accounted(m, s0) {
      FullPercent(st.log[|st.log| - 1]);
    }
  }

  lemma FinishedUnits(cfg: Config, m: Manifest, size: nat, s: Snapshot)
    requires size > 0 && Accounted(m, s)
    ensures After(cfg, m.checkpoint, size, Phases(m), s).units == TotalUnits(Phases(m))
  {
    var ps := Phases(m);
    PhaseOrder(m);
    CompletingIsAccounted(ps, |ps|, s.done);
    assert ps[..|ps|] == ps;
    AllDoneUnits(ps, s.done + Completes(ps, s.done));
  }
}
