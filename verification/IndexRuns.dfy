/** Runs of the filesystem index: edits, deletions, indexing, rebinds, deactivations, purges and crashes. */
module IndexRuns {
  import opened FileTracking
  import opened ChunkTables
  import opened IncrementalIndex
  import opened IndexCommits
  import opened Wrappers

  /**
   * What can happen to the disk and the index. Indexing and purging die after the given number of commits,
   * or complete if they have no more; a rebind lookup that several bindings match may find any.
   */
  datatype Step =
    | Edit(path: Path, file: File)
    | Remove(path: Path)
    | Index(path: Path, found: Option<Path>, commits: nat)
    | Unbind(path: Path)
    | PurgePath(path: Path, commits: nat)

  function Next(cfg: Config, db: Db, step: Step): Db {
    match step
    case Edit(p, f) => db.(disk := db.disk[p := f])
    case Remove(p) => db.(disk := db.disk - {p})
    case Index(p, found, n) => StateAfter(db, Commits(cfg, db, p, found), n)
    case Unbind(p) => Deactivate(db, p)
    case PurgePath(p, n) => StateAfter(db, PurgeCommits(db, p), n)
  }

  /** The step is carried through. */
  predicate Completes(cfg: Config, db: Db, step: Step) {
    match step
    case Index(p, found, n) => n >= |Commits(cfg, db, p, found)|
    case PurgePath(p, n) => n >= |PurgeCommits(db, p)|
    case _ => true
  }

  /** The paths a crash may have left wrong and no later step has put right. */
  ghost function Torn(cfg: Config, db: Db, torn: set<Path>, step: Step): set<Path> {
    match step
    case Index(p, found, n) => if p in db.disk then TornByIndex(cfg, db, p, found, n, torn) else torn
    case PurgePath(p, n) => TornByPurge(p, n, torn)
    case _ => torn
  }

  ghost predicate Allowed(cfg: Config, db: Db, step: Step) {
    match step
    case Edit(p, f) => HonestAt(db.chunkPrints, p, BodyStat(f))
    case Index(p, found, _) => p in db.disk ==> Candidate(db, p, db.disk[p], found)
    case _ => true
  }

  ghost predicate Allows(cfg: Config, db: Db, steps: seq<Step>)
    decreases |steps|
  {
    steps == [] || (Allowed(cfg, db, steps[0]) && Allows(cfg, Next(cfg, db, steps[0]), steps[1..]))
  }

  ghost function RunSteps(cfg: Config, db: Db, steps: seq<Step>): Db
    decreases |steps|
  {
    if steps == [] then db else RunSteps(cfg, Next(cfg, db, steps[0]), steps[1..])
  }

  ghost function TornAfter(cfg: Config, db: Db, torn: set<Path>, steps: seq<Step>): set<Path>
    decreases |steps|
  {
    if steps == [] then torn
    else TornAfter(cfg, Next(cfg, db, steps[0]), Torn(cfg, db, torn, steps[0]), steps[1..])
  }

  ghost predicate AllComplete(cfg: Config, db: Db, steps: seq<Step>)
    decreases |steps|
  {
    steps == [] || (Completes(cfg, db, steps[0]) && AllComplete(cfg, Next(cfg, db, steps[0]), steps[1..]))
  }

  /** The steps keep the invariant but for torn paths, and none but an edit could make the clock dishonest. */
  lemma StepKeepsInv(cfg: Config, db: Db, torn: set<Path>, step: Step)
    requires Inv(cfg, db, torn) && HonestClock(db) && Allowed(cfg, db, step)
    ensures Inv(cfg, Next(cfg, db, step), Torn(cfg, db, torn, step)) && HonestClock(Next(cfg, db, step))
  {
    match step
    case Edit(p, f) => LaterInv(cfg, db, db.(disk := db.disk[p := f]), torn);
    case Remove(p) => LaterInv(cfg, db, db.(disk := db.disk - {p}), torn);
    case Index(p, found, n) =>
      if p in db.disk {
        CommitMeaning(cfg, db, p, found, n, torn);
        assert HonestAt(db.chunkPrints, p, BodyStat(db.disk[p]));
      }
    case Unbind(p) =>
      DeactivateKeepsInv(cfg, db, p, torn);
      assert Next(cfg, db, step).chunkPrints == db.chunkPrints;
    case PurgePath(p, n) =>
      PurgeCommit(cfg, db, p, n, torn);
      PurgePrints(db, p, n);
  }

  lemma PurgePrints(db: Db, p: Path, n: nat)
    ensures
      var db' := StateAfter(db, PurgeCommits(db, p), n);
      db'.disk == db.disk && db'.chunkPrints in {db.chunkPrints, db.chunkPrints - {p}}
  {
  }

  /** An index with nothing stored. */
  predicate Empty(db: Db) {
    db.chunkPrints == map[] && db.metaPrints == map[] && db.docs == map[] && db.bindings == map[]
    && db.tables == map[]
  }

  lemma {:induction false} RunsKeepInv(cfg: Config, db: Db, torn: set<Path>, steps: seq<Step>)
    requires Inv(cfg, db, torn) && HonestClock(db) && Allows(cfg, db, steps)
    ensures Inv(cfg, RunSteps(cfg, db, steps), TornAfter(cfg, db, torn, steps))
    ensures HonestClock(RunSteps(cfg, db, steps))
    decreases |steps|
  {
    if steps == [] {
    } else {
      StepKeepsInv(cfg, db, torn, steps[0]);
      RunsKeepInv(cfg, Next(cfg, db, steps[0]), Torn(cfg, db, torn, steps[0]), steps[1..]);
    }
  }

  lemma EmptyInv(cfg: Config, db: Db)
    requires Empty(db)
    ensures Inv(cfg, db, {}) && HonestClock(db)
  {
    assert forall p :: RefsOf(NO_TABLES, p) == {};
  }

  /**
   * Over every run from an empty index, crashes included: each path with a stored fingerprint that no
   * crash has torn has exactly the refs that chunking the fingerprinted content gives, and a filesystem
   * chunk exists exactly while some file holds it, each holder with its provenance row.
   */
  lemma ReachableIndexIsFromScratch(cfg: Config, db: Db, steps: seq<Step>)
    requires Empty(db) && Allows(cfg, db, steps)
    ensures
      var end, torn := RunSteps(cfg, db, steps), TornAfter(cfg, db, {}, steps);
      && (forall p | p in end.chunkPrints && p !in torn ::
            RefsOf(Active(cfg, end), p) == Scratch(cfg, end.chunkPrints[p].sum))
      && (forall s | s in end.tables :: Consistent(end.tables[s]))
      && (AllComplete(cfg, db, steps) ==> torn == {})
  {
    var end, torn := RunSteps(cfg, db, steps), TornAfter(cfg, db, {}, steps);
    EmptyInv(cfg, db);
    RunsKeepInv(cfg, db, {}, steps);
    forall p | p in end.chunkPrints && p !in torn
      ensures RefsOf(Active(cfg, end), p) == Scratch(cfg, end.chunkPrints[p].sum)
    {
      assert PathInv(cfg, end, p);
    }
    if AllComplete(cfg, db, steps) {
      CompleteRunsTearNothing(cfg, db, steps);
    }
  }

  lemma {:induction false} CompleteRunsTearNothing(cfg: Config, db: Db, steps: seq<Step>)
    requires AllComplete(cfg, db, steps)
    ensures TornAfter(cfg, db, {}, steps) == {}
    decreases |steps|
  {
    if steps == [] {
    } else {
      CompleteStepTearsNothing(cfg, db, steps[0]);
      CompleteRunsTearNothing(cfg, Next(cfg, db, steps[0]), steps[1..]);
    }
  }

  lemma CompleteStepTearsNothing(cfg: Config, db: Db, step: Step)
    requires Completes(cfg, db, step)
    ensures Torn(cfg, db, {}, step) == {}
  {
    if step.Index? && step.path in db.disk {
      EnoughCommits(cfg, db, step.path, step.found);
    }
  }

  lemma EnoughCommits(cfg: Config, db: Db, p: Path, found: Option<Path>)
    requires p in db.disk
    ensures
      var f, n := db.disk[p], |Commits(cfg, db, p, found)|;
      && (Rebinds(cfg, db, found) ==> n > 1)
      && (!Rebinds(cfg, db, found) && TwoStage(db.chunkPrints, p, BodyStat(f)) != Unchanged ==>
            n == if cfg.chunk(f.sum) == [] then 2 else 5)
  {
  }

  /** A completed purge, or a completed re-chunking, puts a torn path right. */
  lemma TornPathsAreRepaired(cfg: Config, db: Db, torn: set<Path>, step: Step)
    requires Completes(cfg, db, step)
    requires step.PurgePath?
          || (step.Index? && step.path in db.disk && !Rebinds(cfg, db, step.found)
              && TwoStage(db.chunkPrints, step.path, BodyStat(db.disk[step.path])) != Unchanged)
    ensures Torn(cfg, db, torn, step) == torn - {step.path}
  {
    if step.Index? {
      EnoughCommits(cfg, db, step.path, step.found);
    }
  }

  // ---- instances ----

  /** A sound index that last saw p with the content of f and has it bound. */
  ghost predicate IndexedWith(cfg: Config, db: Db, p: Path, f: File) {
    && Inv(cfg, db, {}) && HonestClock(db)
    && p in db.chunkPrints && db.chunkPrints[p].sum == f.sum
    && p in db.bindings && db.bindings[p].active
  }

  /**
   * A file indexed with f is edited to g, its indexing dies after n commits, and it is edited back: the
   * next `index_file` leaves it without chunks after one commit and with the chunks of g after two.
   */
  lemma RevertAfterCrash(cfg: Config, db: Db, p: Path, f: File, g: File, f': File, n: nat)
    requires IndexedWith(cfg, db, p, f) && g.sum != f.sum && f'.sum == f.sum && cfg.chunk(g.sum) != []
    requires HonestAt(db.chunkPrints, p, BodyStat(g)) && 0 < n <= 2
    ensures
      var steps := [Edit(p, g), Index(p, None, n), Edit(p, f'), Index(p, None, 5)];
      && Allows(cfg, db, steps)
      && RefsOf(Active(cfg, RunSteps(cfg, db, steps)), p) == if n == 1 then {} else Scratch(cfg, g.sum)
  {
    var edited := db.(disk := db.disk[p := g]);
    var crashed := StateAfter(edited, Commits(cfg, edited, p, None), n);
    var reverted := crashed.(disk := crashed.disk[p := f']);
    LaterInv(cfg, db, edited, {});
    CrashLeavesPrint(cfg, edited, p, n);
    BoundFileAfterCrash(cfg, edited, p, None, n, f', None, {});
    FewCommits(cfg, reverted, p);
    IndexFileIsAllCommits(cfg, reverted, p, None, 5);
    FourSteps(cfg, db, Edit(p, g), Index(p, None, n), Edit(p, f'), Index(p, None, 5));
  }

  lemma CrashLeavesPrint(cfg: Config, db: Db, p: Path, n: nat)
    requires p in db.disk && cfg.chunk(db.disk[p].sum) != [] && 0 < n <= 2
    requires TwoStage(db.chunkPrints, p, BodyStat(db.disk[p])) != Unchanged
    ensures
      var crashed := StateAfter(db, Commits(cfg, db, p, None), n);
      crashed.chunkPrints == db.chunkPrints && crashed.bindings == db.bindings
  {
  }

  /** A sound index that has never seen p and retains the content of f at q, but not that of g. */
  ghost predicate Retains(cfg: Config, db: Db, p: Path, q: Path, f: File, g: File) {
    && Inv(cfg, db, {}) && HonestClock(db) && p !in db.chunkPrints && p !in db.bindings
    && q in db.bindings && Matches(db.bindings[q], f) && RefsOf(Active(cfg, db), q) != {}
    && forall r | r in db.bindings :: !Matches(db.bindings[r], g)
  }

  /**
   * A new file's first indexing, with content g, dies after the chunk commit, and the file becomes one that
   * was retained elsewhere: the rebind adds the retained chunks to those of g, which stay.
   */
  lemma FirstIndexingDies(cfg: Config, db: Db, p: Path, q: Path, f: File, g: File)
    requires Retains(cfg, db, p, q, f, g) && g.sum != f.sum && cfg.chunk(g.sum) != []
    ensures
      var steps := [Edit(p, g), Index(p, None, 2), Edit(p, f), Index(p, Some(q), 8)];
      && Allows(cfg, db, steps)
      && RefsOf(Active(cfg, RunSteps(cfg, db, steps)), p) == Scratch(cfg, g.sum) + Scratch(cfg, f.sum)
      && Scratch(cfg, g.sum) + Scratch(cfg, f.sum) != Scratch(cfg, f.sum)
  {
    var edited := db.(disk := db.disk[p := g]);
    var later := Later(cfg, edited, p, None, 2, f);
    RetainedLater(cfg, db, edited, p, q, f, g);
    ReindexAfterCrashExactly(cfg, edited, p, None, 2, f, Some(q), {});
    EightCommits(cfg, later, p, Some(q));
    IndexFileIsAllCommits(cfg, later, p, Some(q), 8);
    FourSteps(cfg, db, Edit(p, g), Index(p, None, 2), Edit(p, f), Index(p, Some(q), 8));
    OtherChunks(cfg, g.sum, f.sum);
  }

  /** After the crash the retained binding is found and still has its refs. */
  lemma RetainedLater(cfg: Config, db: Db, edited: Db, p: Path, q: Path, f: File, g: File)
    requires Retains(cfg, db, p, q, f, g) && cfg.chunk(g.sum) != [] && edited == db.(disk := db.disk[p := g])
    ensures CrashesThenReindexes(cfg, edited, p, None, 2, f, Some(q), {})
    ensures
      var later := Later(cfg, edited, p, None, 2, f);
      Rebinds(cfg, later, Some(q)) && RefsOf(Active(cfg, later), q) == Scratch(cfg, f.sum)
    ensures StateAfter(edited, Commits(cfg, edited, p, None), 2).chunkPrints == db.chunkPrints
  {
    LaterInv(cfg, db, edited, {});
    CrashLeavesPrint(cfg, edited, p, 2);
    assert Candidate(db, p, f, Some(q));
    RetainedRefs(cfg, db, p, f, q, {});
    LaterIsSound(cfg, edited, p, None, 2, f, {});
  }

  lemma OtherChunks(cfg: Config, a: BodySum, b: BodySum)
    requires a != b && cfg.chunk(a) != []
    ensures Scratch(cfg, a) + Scratch(cfg, b) != Scratch(cfg, b)
  {
    var r := (ChunkId(a, 0, cfg.strategy), 0);
    assert r in Scratch(cfg, a) && r !in Scratch(cfg, b);
  }

  lemma EightCommits(cfg: Config, db: Db, p: Path, found: Option<Path>)
    ensures |Commits(cfg, db, p, found)| <= 8
  {
    if p in db.disk {
      var f := db.disk[p];
      assert |RebindCommits(cfg, db, p, f, found)| <= 3;
    }
  }

  lemma FewCommits(cfg: Config, db: Db, p: Path)
    ensures |Commits(cfg, db, p, None)| <= 5
  {
  }

  lemma FourSteps(cfg: Config, db: Db, a: Step, b: Step, c: Step, d: Step)
    ensures
      var db1 := Next(cfg, db, a);
      var db2 := Next(cfg, db1, b);
      var db3 := Next(cfg, db2, c);
      && RunSteps(cfg, db, [a, b, c, d]) == Next(cfg, db3, d)
      && (Allows(cfg, db, [a, b, c, d]) <==>
          Allowed(cfg, db, a) && Allowed(cfg, db1, b) && Allowed(cfg, db2, c) && Allowed(cfg, db3, d))
  {
    var db1 := Next(cfg, db, a);
    var db2 := Next(cfg, db1, b);
    assert [a, b, c, d] == [a] + [b, c, d] && [b, c, d] == [b] + [c, d] && [c, d] == [c] + [d] && [d] == [d] + [];
    FirstStep(cfg, db, a, [b, c, d]);
    FirstStep(cfg, db1, b, [c, d]);
    FirstStep(cfg, db2, c, [d]);
    FirstStep(cfg, Next(cfg, db2, c), d, []);
  }

  lemma FirstStep(cfg: Config, db: Db, step: Step, steps: seq<Step>)
    ensures RunSteps(cfg, db, [step] + steps) == RunSteps(cfg, Next(cfg, db, step), steps)
    ensures Allows(cfg, db, [step] + steps) <==>
            Allowed(cfg, db, step) && Allows(cfg, Next(cfg, db, step), steps)
  {
    assert ([step] + steps)[1..] == steps;
  }
}
