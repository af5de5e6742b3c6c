/** What the resume state says after any number of runs, and what a state shared between manifests does. */
module DeltaAccounting {
  import opened DeltaTypes
  import opened DeltaPlan
  import opened DeltaConvergence

  /** Units of the phases recorded as complete. */
  function DoneUnits(ps: seq<Phase>, done: seq<PhaseName>): nat {
    if ps == [] then 0
    else (if ps[0].name in done then PhaseUnits(ps[0]) else 0) + DoneUnits(ps[1..], done)
  }

  function TotalUnits(ps: seq<Phase>): nat {
    if ps == [] then 0 else PhaseUnits(ps[0]) + TotalUnits(ps[1..])
  }

  /** A phase is complete only when every non-empty phase before it is. */
  ghost predicate InOrder(ps: seq<Phase>, done: seq<PhaseName>) {
    forall i, j | 0 <= i < j < |ps| && ps[j].name in done :: ps[i].name in done || PhaseUnits(ps[i]) == 0
  }

  ghost predicate AccountedFor(ps: seq<Phase>, s: Snapshot) {
    && s.units == DoneUnits(ps, s.done)
    && InOrder(ps, s.done)
    && (s.checkpointApplied <==> CheckpointCandidate in s.done)
  }

  /** The resume state of one manifest. */
  ghost predicate Accounted(m: Manifest, s: Snapshot) {
    AccountedFor(Phases(m), s)
  }

  lemma {:induction false} DoneUnitsConcat(a: seq<Phase>, b: seq<Phase>, done: seq<PhaseName>)
    ensures DoneUnits(a + b, done) == DoneUnits(a, done) + DoneUnits(b, done)
  {
    if a == [] {
      assert a + b == b;
    } else {
      assert (a + b)[1..] == a[1..] + b;
      DoneUnitsConcat(a[1..], b, done);
    }
  }

  lemma {:induction false} AllDoneUnits(ps: seq<Phase>, done: seq<PhaseName>)
    requires forall i | 0 <= i < |ps| :: ps[i].name in done || PhaseUnits(ps[i]) == 0
    ensures DoneUnits(ps, done) == TotalUnits(ps)
  {
    if ps == [] {
    } else {
      AllDoneUnits(ps[1..], done);
    }
  }

  lemma {:induction false} OldAndNewUnits(ps: seq<Phase>, done: seq<PhaseName>)
    ensures DoneUnits(ps, done) + NewUnits(ps, done) == TotalUnits(ps)
  {
    if ps == [] {
    } else {
      OldAndNewUnits(ps[1..], done);
    }
  }

  lemma {:induction false} SameDoneSameUnits(ps: seq<Phase>, done: seq<PhaseName>, done': seq<PhaseName>)
    requires forall i | 0 <= i < |ps| :: ps[i].name in done <==> ps[i].name in done'
    ensures DoneUnits(ps, done) == DoneUnits(ps, done')
  {
    if ps == [] {
    } else {
      SameDoneSameUnits(ps[1..], done, done');
    }
  }

  /** Completing the first n phases adds exactly their missing units and keeps the order. */
  lemma {:induction false} CompletingIsAccounted(ps: seq<Phase>, n: nat, done: seq<PhaseName>)
    requires n <= |ps| && DistinctNames(ps) && InOrder(ps, done)
    ensures
      var done' := done + Completes(ps[..n], done);
      DoneUnits(ps, done') == DoneUnits(ps, done) + NewUnits(ps[..n], done)
      && InOrder(ps, done')
      && (forall i | 0 <= i < n :: ps[i].name in done' || PhaseUnits(ps[i]) == 0)
  {
    var before, rest := ps[..n], ps[n..];
    var done' := done + Completes(before, done);
    assert ps == before + rest;
    forall i | 0 <= i < n
      ensures ps[i].name in done' || PhaseUnits(ps[i]) == 0
    {
      CompletesMembers(before, done, before[i].name);
    }
    forall i | 0 <= i < |rest|
      ensures rest[i].name in done <==> rest[i].name in done'
    {
      CompletesMembers(before, done, rest[i].name);
      assert rest[i] == ps[n + i];
    }
    forall j | n <= j < |ps|
      ensures ps[j].name in done <==> ps[j].name in done'
    {
      assert rest[j - n] == ps[j];
    }
    DoneUnitsConcat(before, rest, done);
    DoneUnitsConcat(before, rest, done');
    SameDoneSameUnits(rest, done, done');
    AllDoneUnits(before, done');
    OldAndNewUnits(before, done);
  }

  lemma AfterIsAccounted(cfg: Config, c: Checkpoint, size: nat, ps: seq<Phase>, n: nat, s: Snapshot)
    requires size > 0 && n <= |ps| && DistinctNames(ps) && AccountedFor(ps, s)
    ensures AccountedFor(ps, After(cfg, c, size, ps[..n], s))
  {
    CompletingIsAccounted(ps, n, s.done);
  }

  lemma FailureIsAccounted(
    cfg: Config, c: Checkpoint, size: nat, ps: seq<Phase>, n: nat, s: Snapshot, s': Snapshot)
    requires size > 0 && DistinctNames(ps) && AccountedFor(ps, s) && FailsAt(cfg, c, size, ps, s, s', n)
    ensures AccountedFor(ps, s')
  {
    AfterIsAccounted(cfg, c, size, ps, n, s);
  }

  lemma {:induction false} FailuresAreAccounted(cfg: Config, m: Manifest, size: nat, trace: seq<Snapshot>, i: nat)
    requires size > 0 && i < |trace| && Accounted(m, trace[0])
    requires forall j | 0 <= j < i :: FailedRun(cfg, m, size, trace[j], trace[j + 1])
    ensures Accounted(m, trace[i])
  {
    if i == 0 {
    } else {
      FailuresAreAccounted(cfg, m, size, trace, i - 1);
      assert FailedRun(cfg, m, size, trace[i - 1], trace[i - 1 + 1]);
      var n: nat :| FailsIn(cfg, m, size, trace[i - 1], trace[i], n);
      PhaseOrder(m);
      FailureIsAccounted(cfg, m.checkpoint, size, Phases(m), n, trace[i - 1], trace[i]);
    }
  }

  lemma {:induction false} NothingDone(ps: seq<Phase>)
    ensures DoneUnits(ps, []) == 0
  {
    if ps == [] {
    } else {
      NothingDone(ps[1..]);
    }
  }

  /**
   * Over all retries: `completed_units` is the sum over `completed_phases`, the checkpoint counts as
   * applied only when every non-empty phase before it is complete, and success completes every unit.
   */
  lemma RetriesAreAccounted(cfg: Config, m: Manifest, size: nat, trace: seq<Snapshot>, i: nat)
    requires size > 0 && Retries(cfg, m, size, trace) && i < |trace|
    ensures trace[i].units == DoneUnits(Phases(m), trace[i].done)
    ensures trace[i].checkpointApplied ==>
              forall p | p in Phases(m) :: p.name in trace[i].done || PhaseUnits(p) == 0
    ensures i == |trace| - 1 ==> trace[i].checkpointApplied && trace[i].units == TotalUnits(Phases(m))
  {
    var ps, last := Phases(m), |trace| - 2;
    PhaseOrder(m);
    NothingDone(ps);
    assert Accounted(m, trace[0]);
    FailuresAreAccounted(cfg, m, size, trace, if i <= last then i else last);
    if i == |trace| - 1 {
      assert ps[..|ps|] == ps;
      AfterIsAccounted(cfg, m.checkpoint, size, ps, |ps|, trace[last]);
      CompletingIsAccounted(ps, |ps|, trace[last].done);
      AllDoneUnits(ps, trace[i].done);
      assert ps[12].name in trace[i].done;
      assert Position(ps[12].name) == 12;
    }
    if trace[i].checkpointApplied {
      assert Accounted(m, trace[i]);
      assert Position(ps[12].name) == 12 && ps[12].name in trace[i].done;
    }
  }

  /**
   * One state for several manifests: after a first manifest has finished, a run of a second one applies
   * exactly the phases that were empty in the first. In particular its checkpoint is never written, and
   * nothing is written at all when the second manifest uses no further section.
   */
  lemma SharedStateSuppressesPhases(
    cfg: Config, first: Manifest, second: Manifest, size: nat, s0: Snapshot, s1: Snapshot, s2: Snapshot)
    requires size > 0 && s0.done == []
    requires FinishedRun(cfg, first, size, s0, s1)
    requires FinishedRun(cfg, second, size, s1, s2)
    ensures |Phases(first)| == 13 && |Phases(second)| == 13
    ensures |s1.done| <= |s2.done| && s2.done[..|s1.done|] == s1.done
    ensures forall i | 0 <= i < 13 ::
              Phases(second)[i].name in s2.done[|s1.done|..] <==>
              PhaseUnits(Phases(second)[i]) > 0 && PhaseUnits(Phases(first)[i]) == 0
    ensures CheckpointCandidate !in s2.done[|s1.done|..]
    ensures (forall i | 0 <= i < 13 ::
              PhaseUnits(Phases(first)[i]) == 0 ==> PhaseUnits(Phases(second)[i]) == 0)
            ==> s2.store == s1.store
  {
    var ps, qs := Phases(first), Phases(second);
    PhaseOrder(first);
    PhaseOrder(second);
    assert ps[..|ps|] == ps && qs[..|qs|] == qs;
    DoneByOther(cfg, first, second, size, s0, s1);
    forall i | 0 <= i < 13
      ensures qs[i].name in Completes(qs, s1.done) <==> PhaseUnits(qs[i]) > 0 && PhaseUnits(ps[i]) == 0
    {
      CompletesMembers(qs, s1.done, qs[i].name);
    }
    assert s2.done[|s1.done|..] == Completes(qs, s1.done);
    assert qs[12].name == CheckpointCandidate && PhaseUnits(ps[12]) == 1 by {
      SameNames(first, second, 12);
      assert Position(qs[12].name) == 12;
    }
    if forall i | 0 <= i < 13 :: PhaseUnits(ps[i]) == 0 ==> PhaseUnits(qs[i]) == 0 {
      DonePhasesDoNothing(cfg, second.checkpoint, size, qs, s1.done, s1.store);
    }
  }

  /** A phase of the second manifest is done already where the first had units for it. */
  lemma DoneByOther(cfg: Config, first: Manifest, second: Manifest, size: nat, s0: Snapshot, s1: Snapshot)
    requires size > 0 && s0.done == [] && FinishedRun(cfg, first, size, s0, s1)
    ensures |Phases(first)| == 13 && |Phases(second)| == 13
    ensures forall i | 0 <= i < 13 :: Phases(second)[i].name in s1.done <==> PhaseUnits(Phases(first)[i]) > 0
  {
    var ps, qs := Phases(first), Phases(second);
    PhaseOrder(first);
    PhaseOrder(second);
    assert ps[..|ps|] == ps;
    forall i | 0 <= i < 13
      ensures qs[i].name in s1.done <==> PhaseUnits(ps[i]) > 0
    {
      SameNames(first, second, i);
      CompletesMembers(ps, [], ps[i].name);
    }
  }

  lemma SameNames(first: Manifest, second: Manifest, i: nat)
    requires i < 13
    ensures |Phases(first)| == |Phases(second)| == 13
    ensures Phases(first)[i].name == Phases(second)[i].name
  {
    PhaseOrder(first);
    PhaseOrder(second);
    assert Names(Phases(first))[i] == Names(Phases(second))[i];
  }
}
