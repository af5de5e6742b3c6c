/** Runs of the sync over whole phases: what failed and finished runs do, and why retries converge. */
module DeltaConvergence {
  import opened DeltaTypes
  import opened Wrappers
  import opened DeltaOps
  import opened DeltaPlan

  /** What survives between runs: the remote store and the resume state. */
  datatype Snapshot = Snapshot(store: Store, done: seq<PhaseName>, units: nat, checkpointApplied: bool)

  ghost function RunPhase(cfg: Config, c: Checkpoint, size: nat, p: Phase, s: Store): Store
    requires size > 0
  {
    Run(PhaseOps(cfg, c, size, p, EmbeddingsIn(s)), s)
  }

  /** Run the phases in order, skipping those already done. */
  ghost function RunPhases(
    cfg: Config, c: Checkpoint, size: nat, ps: seq<Phase>, done: seq<PhaseName>, s: Store): Store
    requires size > 0
  {
    if ps == [] then s
    else RunPhases(cfg, c, size, ps[1..], done,
                   if ps[0].name in done then s else RunPhase(cfg, c, size, ps[0], s))
  }

  /** One uninterrupted run with fresh state. */
  ghost function Sync(cfg: Config, m: Manifest, size: nat, s: Store): Store
    requires size > 0
  {
    RunPhases(cfg, m.checkpoint, size, Phases(m), [], s)
  }

  /** Of the phases run, those that end up recorded as complete: the non-empty ones. */
  function Completes(ps: seq<Phase>, done: seq<PhaseName>): seq<PhaseName> {
    if ps == [] then []
    else (if ps[0].name in done || PhaseUnits(ps[0]) == 0 then [] else [ps[0].name]) + Completes(ps[1..], done)
  }

  function NewUnits(ps: seq<Phase>, done: seq<PhaseName>): nat {
    if ps == [] then 0
    else (if ps[0].name in done then 0 else PhaseUnits(ps[0])) + NewUnits(ps[1..], done)
  }

  /** The snapshot after some phases have run to completion. */
  ghost function After(cfg: Config, c: Checkpoint, size: nat, ps: seq<Phase>, s: Snapshot): Snapshot
    requires size > 0
  {
    Snapshot(RunPhases(cfg, c, size, ps, s.done, s.store),
             s.done + Completes(ps, s.done),
             s.units + NewUnits(ps, s.done),
             s.checkpointApplied || CheckpointCandidate in Completes(ps, s.done))
  }

  /** A run that raised in phase n: earlier phases are complete, phase n is interrupted, nothing else moved. */
  ghost predicate FailsAt(
    cfg: Config, c: Checkpoint, size: nat, ps: seq<Phase>, s: Snapshot, s': Snapshot, n: nat)
    requires size > 0
  {
    && n < |ps|
    && ps[n].name !in s.done
    && var before := After(cfg, c, size, ps[..n], s);
    && s' == before.(store := s'.store)
    && Interrupted(PhaseOps(cfg, c, size, ps[n], EmbeddingsIn(before.store)), before.store, s'.store)
  }

  ghost predicate FailsIn(cfg: Config, m: Manifest, size: nat, s: Snapshot, s': Snapshot, n: nat)
    requires size > 0
  {
    FailsAt(cfg, m.checkpoint, size, Phases(m), s, s', n)
  }

  ghost predicate FailedRun(cfg: Config, m: Manifest, size: nat, s: Snapshot, s': Snapshot)
    requires size > 0
  {
    exists n: nat :: FailsIn(cfg, m, size, s, s', n)
  }

  ghost predicate FinishedRun(cfg: Config, m: Manifest, size: nat, s: Snapshot, s': Snapshot)
    requires size > 0
  {
    s' == After(cfg, m.checkpoint, size, Phases(m), s)
  }

  /** Any number of failed runs with one retained state, then one that finishes. */
  ghost predicate Retries(cfg: Config, m: Manifest, size: nat, trace: seq<Snapshot>)
    requires size > 0
  {
    && |trace| >= 2
    && trace[0].done == [] && trace[0].units == 0 && !trace[0].checkpointApplied
    && (forall i | 0 <= i < |trace| - 2 :: FailedRun(cfg, m, size, trace[i], trace[i + 1]))
    && FinishedRun(cfg, m, size, trace[|trace| - 2], trace[|trace| - 1])
  }

  // ---- phases and the embeddings table ----

  ghost predicate Avoids(ops: seq<Op>, table: string) {
    forall op | op in ops :: if op.Sweep? then forall k: Key, row | k.table == table :: !op.stale(k, row)
                             else op.key.table != table
  }

  lemma {:induction false} AvoidedCellsStay(ops: seq<Op>, table: string, k: Key, x: Option<Row>)
    requires Avoids(ops, table) && k.table == table
    ensures RunCell(ops, k, x) == x
  {
    if ops == [] {
    } else {
      assert ops[0] in ops;
      assert Avoids(ops[1..], table) by {
        assert forall op | op in ops[1..] :: op in ops;
      }
      AvoidedCellsStay(ops[1..], table, k, ApplyCell(ops[0], k, x));
    }
  }

  /** An interrupted phase sees the same embeddings when it is replayed, or does not care. */
  lemma ReplayedPhaseHasSameOps(cfg: Config, c: Checkpoint, size: nat, p: Phase, s: Store, s': Store)
    requires size > 0
    requires Interrupted(PhaseOps(cfg, c, size, p, EmbeddingsIn(s)), s, s')
    ensures PhaseOps(cfg, c, size, p, EmbeddingsIn(s')) == PhaseOps(cfg, c, size, p, EmbeddingsIn(s))
  {
    if p.name == VectorComponents {
      var ops := RowOps(cfg, p.name, p.rows, EmbeddingsIn(s));
      SectionOpsIgnoreBatchSize(cfg, p.name, p.rows, size, EmbeddingsIn(s));
      VectorRowsAvoidEmbeddings(cfg, p.rows, EmbeddingsIn(s));
      InterruptedElsewhere(ops, s, s');
    } else if p.name != CheckpointCandidate {
      BatchesIgnoreEmbeddings(cfg, p.name, Batches(p.rows, size), EmbeddingsIn(s), EmbeddingsIn(s'));
    }
  }

  lemma VectorRowsAvoidEmbeddings(cfg: Config, rows: seq<Change>, e: Store)
    ensures Avoids(RowOps(cfg, VectorComponents, rows, e), "embeddings")
  {
  }

  /** A crash among operations that spare the embeddings spares them too. */
  lemma InterruptedElsewhere(ops: seq<Op>, s: Store, s': Store)
    requires Avoids(ops, "embeddings") && Interrupted(ops, s, s')
    ensures EmbeddingsIn(s') == EmbeddingsIn(s)
  {
    forall k: Key | k.table == "embeddings"
      ensures Cell(s', k) == Cell(s, k)
    {
      assert InterruptedCell(ops, k, Cell(s, k), Cell(s', k));
      var n: nat :| PrefixMakes(ops, k, Cell(s, k), Cell(s', k), n);
      assert Avoids(ops[..n], "embeddings");
      AvoidedCellsStay(ops[..n], "embeddings", k, Cell(s, k));
    }
    forall k
      ensures Cell(EmbeddingsIn(s'), k) == Cell(EmbeddingsIn(s), k)
    {
      if k.table == "embeddings" {
        assert Cell(s', k) == Cell(s, k);
      }
    }
    SameCellsSameStore(EmbeddingsIn(s'), EmbeddingsIn(s));
  }

  lemma BatchIgnoresEmbeddings(cfg: Config, name: PhaseName, b: seq<Change>, e: Store, e': Store)
    requires name != VectorComponents
    ensures BatchOps(cfg, name, b, e) == BatchOps(cfg, name, b, e')
  {
    if name != Graph {
      assert RowOps(cfg, name, b, e) == RowOps(cfg, name, b, e');
    }
  }

  lemma {:induction false} BatchesIgnoreEmbeddings(
    cfg: Config, name: PhaseName, bs: seq<seq<Change>>, e: Store, e': Store)
    requires name != VectorComponents
    ensures BatchesOps(cfg, name, bs, e) == BatchesOps(cfg, name, bs, e')
  {
    if bs == [] {
    } else {
      BatchesIgnoreEmbeddings(cfg, name, bs[1..], e, e');
      BatchIgnoresEmbeddings(cfg, name, bs[0], e, e');
    }
  }

  // ---- skipping and resuming ----

  lemma {:induction false} RunPhasesConcat(
    cfg: Config, c: Checkpoint, size: nat, a: seq<Phase>, b: seq<Phase>, done: seq<PhaseName>, s: Store)
    requires size > 0
    ensures RunPhases(cfg, c, size, a + b, done, s)
         == RunPhases(cfg, c, size, b, done, RunPhases(cfg, c, size, a, done, s))
  {
    if a == [] {
      assert a + b == b;
    } else {
      assert (a + b)[1..] == a[1..] + b;
      RunPhasesConcat(cfg, c, size, a[1..], b, done,
                      if a[0].name in done then s else RunPhase(cfg, c, size, a[0], s));
    }
  }

  lemma EmptyPhaseDoesNothing(cfg: Config, c: Checkpoint, size: nat, p: Phase, s: Store)
    requires size > 0 && PhaseUnits(p) == 0
    ensures RunPhase(cfg, c, size, p, s) == s
  {
    assert Batches(p.rows, size) == [];
  }

  lemma OnePhase(cfg: Config, c: Checkpoint, size: nat, p: Phase, done: seq<PhaseName>, s: Store)
    requires size > 0
    ensures
      var skip := p.name in done || PhaseUnits(p) == 0;
      && RunPhases(cfg, c, size, [p], done, s) == (if skip then s else RunPhase(cfg, c, size, p, s))
      && Completes([p], done) == (if skip then [] else [p.name])
      && NewUnits([p], done) == (if skip then 0 else PhaseUnits(p))
  {
    assert [p][1..] == [];
    if PhaseUnits(p) == 0 {
      EmptyPhaseDoesNothing(cfg, c, size, p, s);
    }
  }

  /** Phases that are done or empty leave the store alone: completed phases are never replayed. */
  lemma {:induction false} DonePhasesDoNothing(
    cfg: Config, c: Checkpoint, size: nat, ps: seq<Phase>, done: seq<PhaseName>, s: Store)
    requires size > 0
    requires forall i | 0 <= i < |ps| :: ps[i].name in done || PhaseUnits(ps[i]) == 0
    ensures RunPhases(cfg, c, size, ps, done, s) == s
  {
    if ps == [] {
    } else {
      if ps[0].name !in done {
        EmptyPhaseDoesNothing(cfg, c, size, ps[0], s);
      }
      DonePhasesDoNothing(cfg, c, size, ps[1..], done, s);
    }
  }

  lemma {:induction false} DoneOutsideDoesNotMatter(
    cfg: Config, c: Checkpoint, size: nat, ps: seq<Phase>, done: seq<PhaseName>, done': seq<PhaseName>, s: Store)
    requires size > 0
    requires forall i | 0 <= i < |ps| :: ps[i].name in done <==> ps[i].name in done'
    ensures RunPhases(cfg, c, size, ps, done, s) == RunPhases(cfg, c, size, ps, done', s)
  {
    if ps == [] {
    } else {
      DoneOutsideDoesNotMatter(cfg, c, size, ps[1..], done, done',
                               if ps[0].name in done then s else RunPhase(cfg, c, size, ps[0], s));
    }
  }

  lemma {:induction false} CompletesMembers(ps: seq<Phase>, done: seq<PhaseName>, name: PhaseName)
    ensures name in Completes(ps, done) <==>
            exists i :: 0 <= i < |ps| && ps[i].name == name && name !in done && PhaseUnits(ps[i]) > 0
  {
    if ps == [] {
    } else {
      CompletesMembers(ps[1..], done, name);
      if name in Completes(ps[1..], done) {
        var i :| 0 <= i < |ps[1..]| && ps[1..][i].name == name && name !in done && PhaseUnits(ps[1..][i]) > 0;
        assert ps[i + 1] == ps[1..][i];
      }
      if i :| 0 <= i < |ps| && ps[i].name == name && name !in done && PhaseUnits(ps[i]) > 0 {
        if i > 0 {
          assert ps[1..][i - 1] == ps[i];
        }
      }
    }
  }

  ghost predicate SettledBy(ps: seq<Phase>, done: seq<PhaseName>) {
    forall i | 0 <= i < |ps| :: ps[i].name in done || PhaseUnits(ps[i]) == 0
  }

  ghost predicate SameDone(ps: seq<Phase>, done: seq<PhaseName>, done': seq<PhaseName>) {
    forall i | 0 <= i < |ps| :: ps[i].name in done <==> ps[i].name in done'
  }

  /** Completing some phases settles them and says nothing of the rest. */
  lemma CompletingSplits(before: seq<Phase>, rest: seq<Phase>, done: seq<PhaseName>)
    requires DistinctNames(before + rest)
    ensures SettledBy(before, done + Completes(before, done))
    ensures SameDone(rest, done, done + Completes(before, done))
  {
    var ps, done' := before + rest, done + Completes(before, done);
    forall i | 0 <= i < |before|
      ensures before[i].name in done' || PhaseUnits(before[i]) == 0
    {
      CompletesMembers(before, done, before[i].name);
    }
    forall i | 0 <= i < |rest|
      ensures rest[i].name in done <==> rest[i].name in done'
    {
      CompletesMembers(before, done, rest[i].name);
      assert rest[i] == ps[|before| + i];
      assert forall j | 0 <= j < |before| :: ps[j] == before[j];
    }
  }

  lemma {:induction false} ResumeAt(
    cfg: Config, c: Checkpoint, size: nat, ps: seq<Phase>, n: nat,
    done: seq<PhaseName>, s: Store, done': seq<PhaseName>, s': Store)
    requires size > 0 && n < |ps| && DistinctNames(ps)
    requires ps[n].name !in done && done' == done + Completes(ps[..n], done)
    requires
      var mid := RunPhases(cfg, c, size, ps[..n], done, s);
      Interrupted(PhaseOps(cfg, c, size, ps[n], EmbeddingsIn(mid)), mid, s')
    ensures RunPhases(cfg, c, size, ps, done', s') == RunPhases(cfg, c, size, ps, done, s)
  {
    AroundPhase(ps, n);
    ResumeParts(cfg, c, size, ps[..n], ps[n], ps[n + 1..], done, s, done', s');
  }

  lemma AroundPhase(ps: seq<Phase>, n: nat)
    requires n < |ps|
    ensures ps[..n] + ([ps[n]] + ps[n + 1..]) == ps
  {
  }

  lemma {:induction false} ResumeParts(
    cfg: Config, c: Checkpoint, size: nat, before: seq<Phase>, p: Phase, after: seq<Phase>,
    done: seq<PhaseName>, s: Store, done': seq<PhaseName>, s': Store)
    requires size > 0 && DistinctNames(before + ([p] + after))
    requires p.name !in done && done' == done + Completes(before, done)
    requires
      var mid := RunPhases(cfg, c, size, before, done, s);
      Interrupted(PhaseOps(cfg, c, size, p, EmbeddingsIn(mid)), mid, s')
    ensures RunPhases(cfg, c, size, before + ([p] + after), done', s')
         == RunPhases(cfg, c, size, before + ([p] + after), done, s)
  {
    var rest, mid := [p] + after, RunPhases(cfg, c, size, before, done, s);
    RunPhasesConcat(cfg, c, size, before, rest, done, s);
    RunPhasesConcat(cfg, c, size, before, rest, done', s');
    CompletingSplits(before, rest, done);
    DonePhasesDoNothing(cfg, c, size, before, done', s');
    DoneOutsideDoesNotMatter(cfg, c, size, rest, done, done', s');
    RerunFrom(cfg, c, size, p, after, done, mid, s');
  }

  /** An interrupted phase that is run again goes on as if it had not been. */
  lemma RerunFrom(
    cfg: Config, c: Checkpoint, size: nat, p: Phase, after: seq<Phase>, done: seq<PhaseName>, mid: Store, s': Store)
    requires size > 0 && p.name !in done && Interrupted(PhaseOps(cfg, c, size, p, EmbeddingsIn(mid)), mid, s')
    ensures RunPhases(cfg, c, size, [p] + after, done, s') == RunPhases(cfg, c, size, [p] + after, done, mid)
  {
    assert ([p] + after)[1..] == after;
    ReplayedPhaseHasSameOps(cfg, c, size, p, mid, s');
    ReplayConverges(PhaseOps(cfg, c, size, p, EmbeddingsIn(mid)), mid, s');
  }

  lemma {:induction false} CompletesConcat(a: seq<Phase>, b: seq<Phase>, done: seq<PhaseName>)
    ensures Completes(a + b, done) == Completes(a, done) + Completes(b, done)
    ensures NewUnits(a + b, done) == NewUnits(a, done) + NewUnits(b, done)
  {
    if a == [] {
      assert a + b == b;
    } else {
      assert (a + b)[1..] == a[1..] + b;
      CompletesConcat(a[1..], b, done);
    }
  }

  lemma {:induction false} SettledPhasesCompleteNothing(ps: seq<Phase>, done: seq<PhaseName>)
    requires forall i | 0 <= i < |ps| :: ps[i].name in done || PhaseUnits(ps[i]) == 0
    ensures Completes(ps, done) == [] && NewUnits(ps, done) == 0
  {
    if ps == [] {
    } else {
      SettledPhasesCompleteNothing(ps[1..], done);
    }
  }

  lemma {:induction false} SameDoneSameCompletes(ps: seq<Phase>, done: seq<PhaseName>, done': seq<PhaseName>)
    requires forall i | 0 <= i < |ps| :: ps[i].name in done <==> ps[i].name in done'
    ensures Completes(ps, done) == Completes(ps, done') && NewUnits(ps, done) == NewUnits(ps, done')
  {
    if ps == [] {
    } else {
      SameDoneSameCompletes(ps[1..], done, done');
    }
  }

  /** Stopping before phase n and resuming completes the same phases in the same order as going on. */
  lemma ResumingCompletesTheRest(ps: seq<Phase>, n: nat, done: seq<PhaseName>)
    requires n < |ps| && DistinctNames(ps)
    ensures
      var done' := done + Completes(ps[..n], done);
      && Completes(ps[..n], done) + Completes(ps, done') == Completes(ps, done)
      && NewUnits(ps[..n], done) + NewUnits(ps, done') == NewUnits(ps, done)
  {
    var before, rest := ps[..n], ps[n..];
    var done' := done + Completes(before, done);
    assert ps == before + rest;
    CompletesConcat(before, rest, done);
    CompletesConcat(before, rest, done');
    CompletingSplits(before, rest, done);
    SettledPhasesCompleteNothing(before, done');
    SameDoneSameCompletes(rest, done, done');
  }

  /** A failed run does not change what is still to be reached: resuming it ends where the run would have. */
  lemma ResumeEqualsUninterrupted(cfg: Config, m: Manifest, size: nat, s: Snapshot, s': Snapshot)
    requires size > 0 && FailedRun(cfg, m, size, s, s')
    ensures After(cfg, m.checkpoint, size, Phases(m), s') == After(cfg, m.checkpoint, size, Phases(m), s)
  {
    var n: nat :| FailsIn(cfg, m, size, s, s', n);
    PhaseOrder(m);
    ResumeAt(cfg, m.checkpoint, size, Phases(m), n, s.done, s.store, s'.done, s'.store);
    ResumeKeepsState(cfg, m.checkpoint, size, Phases(m), n, s, s');
  }

  lemma ResumeKeepsState(
    cfg: Config, c: Checkpoint, size: nat, ps: seq<Phase>, n: nat, s: Snapshot, s': Snapshot)
    requires size > 0 && FailsAt(cfg, c, size, ps, s, s', n) && DistinctNames(ps)
    ensures
      var resumed, whole := After(cfg, c, size, ps, s'), After(cfg, c, size, ps, s);
      && resumed.done == whole.done && resumed.units == whole.units
      && resumed.checkpointApplied == whole.checkpointApplied
  {
    FailedState(cfg, c, size, ps, n, s, s');
    ResumingCompletesTheRest(ps, n, s.done);
    RestJoins(s.done, Completes(ps[..n], s.done), Completes(ps, s'.done), CheckpointCandidate);
  }

  /** The state a failed run leaves: that of the phases before the one it failed in. */
  lemma FailedState(cfg: Config, c: Checkpoint, size: nat, ps: seq<Phase>, n: nat, s: Snapshot, s': Snapshot)
    requires size > 0 && FailsAt(cfg, c, size, ps, s, s', n)
    ensures s'.done == s.done + Completes(ps[..n], s.done)
    ensures s'.units == s.units + NewUnits(ps[..n], s.done)
    ensures s'.checkpointApplied == (s.checkpointApplied || CheckpointCandidate in Completes(ps[..n], s.done))
  {
  }

  lemma RestJoins(done: seq<PhaseName>, first: seq<PhaseName>, rest: seq<PhaseName>, name: PhaseName)
    ensures done + first + rest == done + (first + rest)
    ensures name in first + rest <==> name in first || name in rest
  {
  }

  lemma {:induction false} FailuresKeepTheGoal(cfg: Config, m: Manifest, size: nat, trace: seq<Snapshot>, i: nat)
    requires size > 0 && i < |trace|
    requires forall j | 0 <= j < i :: FailedRun(cfg, m, size, trace[j], trace[j + 1])
    ensures After(cfg, m.checkpoint, size, Phases(m), trace[i]) == After(cfg, m.checkpoint, size, Phases(m), trace[0])
  {
    if i == 0 {
    } else {
      FailuresKeepTheGoal(cfg, m, size, trace, i - 1);
      ResumeEqualsUninterrupted(cfg, m, size, trace[i - 1], trace[i]);
    }
  }

  /** Crash-retry convergence: retries end in the store and the state of one uninterrupted run. */
  lemma RetriesConverge(cfg: Config, m: Manifest, size: nat, trace: seq<Snapshot>)
    requires size > 0 && Retries(cfg, m, size, trace)
    ensures trace[|trace| - 1] == After(cfg, m.checkpoint, size, Phases(m), trace[0])
    ensures trace[|trace| - 1].store == Sync(cfg, m, size, trace[0].store)
  {
    FailuresKeepTheGoal(cfg, m, size, trace, |trace| - 2);
  }
}
