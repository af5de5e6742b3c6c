/** The schema sentinel and the wipe it guards, with a crash possible between any two commits. */
module SchemaWipe {
  import opened Wrappers

  const WIPE_IN_PROGRESS := "WIPE_IN_PROGRESS"

  /**
   * The sentinel, and for each derived store the schema versions its rows were written under. Versions
   * are as the code names them.
   */
  datatype Db = Db(
    sentinel: Option<string>, embeddingCache: set<string>, vectors: set<string>, graph: set<string>,
    chunkPrints: set<string>, metaPrints: set<string>, weightsUsed: bool)

  /** One commit of the check. */
  datatype Commit =
    | SetSentinel(value: string) | ClearEmbeddingCache | ClearVectors | ClearGraph
    | ClearChunkPrints | ClearMetaPrints | ClearWeights

  function Apply(c: Commit, db: Db): Db {
    match c
    case SetSentinel(v) => db.(sentinel := Some(v))
    case ClearEmbeddingCache => db.(embeddingCache := {})
    case ClearVectors => db.(vectors := {})
    case ClearGraph => db.(graph := {})
    case ClearChunkPrints => db.(chunkPrints := {})
    case ClearMetaPrints => db.(metaPrints := {})
    case ClearWeights => db.(weightsUsed := false)
  }

  function Run(cs: seq<Commit>, db: Db): Db {
    if cs == [] then db else Apply(cs[|cs| - 1], Run(cs[..|cs| - 1], db))
  }

  function WipeCommits(version: string): seq<Commit> {
    [SetSentinel(WIPE_IN_PROGRESS), ClearEmbeddingCache, ClearVectors, ClearGraph, ClearChunkPrints, ClearMetaPrints,
     ClearWeights, SetSentinel(version)]
  }

  /** What the check commits, crash aside. */
  function CheckCommits(db: Db, version: string): seq<Commit> {
    if db.sentinel == Some(version) then []
    else if db.sentinel.None? && db.chunkPrints == {} && db.vectors == {} then [SetSentinel(version)]
    else WipeCommits(version)
  }

  // ---- the check ----

  class Pipeline {
    const version: string
    var db: Db
    /** How many commits still go through before the process dies. */
    var commitsLeft: nat

    constructor (version: string, db: Db, commitsLeft: nat)
      ensures this.version == version && this.db == db && this.commitsLeft == commitsLeft
    {
      this.version, this.db, this.commitsLeft := version, db, commitsLeft;
    }

    method CommitOne(c: Commit) returns (ok: bool)
      modifies this
      ensures ok <==> old(commitsLeft) > 0
      ensures commitsLeft == if ok then old(commitsLeft) - 1 else 0
      ensures db == if ok then Apply(c, old(db)) else old(db)
    {
      ok := commitsLeft > 0;
      if ok {
        db, commitsLeft := Apply(c, db), commitsLeft - 1;
      }
    }

    /** `_check_schema_version`: dies after some prefix of the commits, or performs them all. */
    method CheckSchemaVersion() returns (ok: bool)
      modifies this
      ensures ok <==> old(commitsLeft) >= |CheckCommits(old(db), version)|
      ensures db == Crashed(old(db), version, old(commitsLeft))
    {
      ghost var was, budget := db, commitsLeft;
      if db.sentinel == Some(version) {
        return true;
      }
      if db.sentinel.None? && db.chunkPrints == {} && db.vectors == {} {
        ok := CommitOne(SetSentinel(version));
        RunOne(SetSentinel(version), was);
        return;
      }
      var step := 0;
      while step < |WipeCommits(version)|
        invariant 0 <= step <= |WipeCommits(version)| && step <= budget && commitsLeft == budget - step
        invariant db == Run(WipeCommits(version)[..step], was)
      {
        RunNext(WipeCommits(version), step, was);
        ok := CommitOne(WipeCommits(version)[step]);
        if !ok { return; }
        step := step + 1;
      }
      assert WipeCommits(version)[..step] == WipeCommits(version);
      ok := true;
    }
  }

  lemma RunNext(cs: seq<Commit>, i: nat, db: Db)
    requires i < |cs|
    ensures Run(cs[..i + 1], db) == Apply(cs[i], Run(cs[..i], db))
  {
    assert cs[..i + 1][..i] == cs[..i];
  }

  lemma RunOne(c: Commit, db: Db)
    ensures Run([c], db) == Apply(c, db) && Run([c][..0], db) == db
  {
    assert [c][..0] == [];
  }

  /** The store after a check that had `budget` commits to live. */
  function Crashed(db: Db, version: string, budget: nat): Db {
    var cs := CheckCommits(db, version);
    Run(if budget < |cs| then cs[..budget] else cs, db)
  }

  // ---- what a prefix of the wipe leaves ----

  /** The store after n of the wipe's eight commits, slot by slot. */
  lemma WipePrefix(version: string, n: nat, db: Db)
    requires n <= 8
    ensures
      var now := Run(WipeCommits(version)[..n], db);
      && now.sentinel == (if n == 0 then db.sentinel else if n < 8 then Some(WIPE_IN_PROGRESS) else Some(version))
      && now.embeddingCache == (if n < 2 then db.embeddingCache else {})
      && now.vectors == (if n < 3 then db.vectors else {})
      && now.graph == (if n < 4 then db.graph else {})
      && now.chunkPrints == (if n < 5 then db.chunkPrints else {})
      && now.metaPrints == (if n < 6 then db.metaPrints else {})
      && now.weightsUsed == (n < 7 && db.weightsUsed)
      && (n == 8 ==> now == Db(Some(version), {}, {}, {}, {}, {}, false))
  {
    if n > 0 {
      WipePrefix(version, n - 1, db);
      RunNext(WipeCommits(version), n - 1, db);
      if n == 8 {
        WholeWipe(version, db);
      }
    }
  }

  lemma WholeWipe(version: string, db: Db)
    ensures Run(WipeCommits(version)[..8], db) == Db(Some(version), {}, {}, {}, {}, {}, false)
  {
    var cs := WipeCommits(version);
    assert cs[..0] == [];
    RunNext(cs, 0, db);
    RunNext(cs, 1, db);
    RunNext(cs, 2, db);
    RunNext(cs, 3, db);
    RunNext(cs, 4, db);
    RunNext(cs, 5, db);
    RunNext(cs, 6, db);
    RunNext(cs, 7, db);
  }

  // ---- what the check keeps ----

  /** A store that is marked with the running version, or is unmarked and shows no sign of another. */
  predicate UpToDate(db: Db, version: string) {
    db.sentinel == Some(version) || (db.sentinel.None? && db.chunkPrints == {} && db.vectors == {})
  }

  /**
   * A finished check, for every sentinel: an up-to-date store keeps every row it has, any other loses all of
   * them, a wipe in progress included; afterwards the sentinel names the running version.
   */
  lemma CheckKeepsExactly(db: Db, version: string, budget: nat)
    requires budget >= 8
    ensures
      var now := Crashed(db, version, budget);
      && now.sentinel == Some(version)
      && now.embeddingCache == (if UpToDate(db, version) then db.embeddingCache else {})
      && now.vectors == (if UpToDate(db, version) then db.vectors else {})
      && now.graph == (if UpToDate(db, version) then db.graph else {})
      && now.chunkPrints == (if UpToDate(db, version) then db.chunkPrints else {})
      && now.metaPrints == (if UpToDate(db, version) then db.metaPrints else {})
      && now.weightsUsed == (UpToDate(db, version) && db.weightsUsed)
  {
    if UpToDate(db, version) {
      RunOne(SetSentinel(version), db);
    } else {
      assert WipeCommits(version)[..8] == WipeCommits(version);
      WholeWipe(version, db);
    }
  }

  /** A boot of the version the sentinel names leaves the whole store as it was, wherever it dies. */
  lemma OwnBootKeepsAll(db: Db, version: string, budget: nat)
    requires db.sentinel == Some(version)
    ensures Crashed(db, version, budget) == db
  {
    assert CheckCommits(db, version) == [];
  }

  /** An up-to-date store is never emptied, not even by a check that dies. */
  lemma UpToDateIsSafe(db: Db, version: string, budget: nat)
    requires UpToDate(db, version)
    ensures Crashed(db, version, budget).(sentinel := db.sentinel) == db
    ensures UpToDate(Crashed(db, version, budget), version)
  {
    RunOne(SetSentinel(version), db);
  }

  // ---- runs of processes ----

  /**
   * The stores that one piece of indexing writes to: all of them for a file with chunks, the fingerprints
   * alone for an empty file, any others for indexing that is cut short.
   */
  datatype Writes = Writes(embeddingCache: bool, vectors: bool, graph: bool, chunkPrints: bool, metaPrints: bool)

  /** A process of some code version starts, with or without the check; or the running one indexes. */
  datatype Event = Boot(version: string, checked: bool, budget: nat) | Index(writes: Writes)

  datatype Machine = Machine(db: Db, running: Option<string>)

  function Marked(versions: set<string>, written: bool, version: string): set<string> {
    if written then versions + {version} else versions
  }

  /** Indexing leaves rows of the running version. */
  function Indexed(db: Db, w: Writes, version: string): Db {
    db.(embeddingCache := Marked(db.embeddingCache, w.embeddingCache, version),
        vectors := Marked(db.vectors, w.vectors, version),
        graph := Marked(db.graph, w.graph, version),
        chunkPrints := Marked(db.chunkPrints, w.chunkPrints, version),
        metaPrints := Marked(db.metaPrints, w.metaPrints, version))
  }

  /** A boot that dies in the check leaves nothing running. */
  function Next(m: Machine, e: Event): Machine {
    match e
    case Boot(v, checked, budget) =>
      if !checked then Machine(m.db, Some(v))
      else
        Machine(Crashed(m.db, v, budget), if budget < |CheckCommits(m.db, v)| then None else Some(v))
    case Index(w) =>
      match m.running
      case Some(v) => Machine(Indexed(m.db, w, v), m.running)
      case None => m
  }

  function Play(m: Machine, es: seq<Event>): Machine {
    if es == [] then m else Next(Play(m, es[..|es| - 1]), es[|es| - 1])
  }

  /** No store has lost anything. */
  predicate Within(a: Db, b: Db) {
    && a.embeddingCache <= b.embeddingCache && a.vectors <= b.vectors && a.graph <= b.graph
    && a.chunkPrints <= b.chunkPrints && a.metaPrints <= b.metaPrints
  }

  /** The version has rows in all the stores that were written to. */
  predicate HasWritten(db: Db, w: Writes, version: string) {
    && (w.embeddingCache ==> version in db.embeddingCache) && (w.vectors ==> version in db.vectors)
    && (w.graph ==> version in db.graph) && (w.chunkPrints ==> version in db.chunkPrints)
    && (w.metaPrints ==> version in db.metaPrints)
  }

  ghost predicate BootsOf(es: seq<Event>, version: string) {
    forall e | e in es && e.Boot? :: e.version == version
  }

  /**
   * Restarts of the version the sentinel names, checked or not and wherever they die, lose nothing: every
   * row that was there, and every row that indexing wrote since, is there at the end.
   */
  lemma {:induction false} OwnBootsLoseNothing(m: Machine, es: seq<Event>, version: string, i: nat)
    requires m.db.sentinel == Some(version) && m.running in {None, Some(version)} && BootsOf(es, version)
    requires i <= |es|
    ensures Play(m, es).db.sentinel == Some(version) && Play(m, es).running in {None, Some(version)}
    ensures Within(Play(m, es[..i]).db, Play(m, es).db)
    ensures i < |es| && es[i].Index? && Play(m, es[..i]).running.Some? ==>
              HasWritten(Play(m, es).db, es[i].writes, version)
  {
    if i == |es| {
      assert es[..i] == es;
      if es != [] {
        OwnBootsLoseNothing(m, es[..|es| - 1], version, 0);
        OwnBootStep(m, es, version);
      }
    } else {
      var init := es[..|es| - 1];
      assert init[..i] == es[..i];
      OwnBootsLoseNothing(m, init, version, i);
      OwnBootStep(m, es, version);
      if i == |init| {
        assert es[..i] == init;
      }
    }
  }

  lemma OwnBootStep(m: Machine, es: seq<Event>, version: string)
    requires es != [] && BootsOf(es, version)
    requires
      var before := Play(m, es[..|es| - 1]);
      before.db.sentinel == Some(version) && before.running in {None, Some(version)}
    ensures
      var before, after, last := Play(m, es[..|es| - 1]), Play(m, es), es[|es| - 1];
      && after.db.sentinel == Some(version) && after.running in {None, Some(version)}
      && Within(before.db, after.db)
      && (last.Index? && before.running.Some? ==> HasWritten(after.db, last.writes, version))
  {
    var before, last := Play(m, es[..|es| - 1]), es[|es| - 1];
    assert last in es;
    if last.Boot? && last.checked {
      OwnBootKeepsAll(before.db, version, last.budget);
    }
  }

  /** What a boot leaves running: its version, unless the check dies on the way. */
  lemma BootRunsUnlessItDies(m: Machine, version: string, checked: bool, budget: nat)
    ensures Next(m, Boot(version, checked, budget)).running ==
            if !checked || m.db.sentinel == Some(version) || budget >= 8
               || (UpToDate(m.db, version) && budget > 0)
            then Some(version) else None
  {
  }

  /** The schema versions of all stored rows. */
  function Versions(db: Db): set<string> {
    db.embeddingCache + db.vectors + db.graph + db.chunkPrints + db.metaPrints
  }

  /**
   * A sentinel that names a version speaks the truth about every store; and where there is no sentinel,
   * the two stores the check looks at betray the others.
   */
  ghost predicate Honest(db: Db) {
    && (db.sentinel.Some? && db.sentinel.value != WIPE_IN_PROGRESS ==> Versions(db) <= {db.sentinel.value})
    && (db.sentinel.None? && db.chunkPrints == {} && db.vectors == {} ==> Versions(db) == {})
  }

  /** Honest, and what runs is what the sentinel names. */
  ghost predicate Sound(m: Machine) {
    Honest(m.db) && (m.running.Some? ==> m.db.sentinel == m.running && m.running.value != WIPE_IN_PROGRESS)
  }

  ghost predicate AllChecked(es: seq<Event>) {
    forall e | e in es && e.Boot? :: e.checked && e.version != WIPE_IN_PROGRESS
  }

  lemma CheckKeepsHonest(db: Db, version: string, budget: nat)
    requires Honest(db) && version != WIPE_IN_PROGRESS
    ensures Honest(Crashed(db, version, budget))
    ensures budget >= |CheckCommits(db, version)| ==> Crashed(db, version, budget).sentinel == Some(version)
  {
    var cs := CheckCommits(db, version);
    if cs == WipeCommits(version) {
      var n := if budget < 8 then budget else 8;
      assert WipeCommits(version)[..8] == WipeCommits(version);
      WipePrefix(version, n, db);
    } else if cs == [SetSentinel(version)] {
      RunOne(SetSentinel(version), db);
    }
  }

  /**
   * With a crash allowed after any commit, any number of restarts by any code versions and any indexing in
   * between: whenever the sentinel names a version, no row of another schema is left in any store, meta
   * fingerprints, embedding cache and graph included.
   */
  lemma {:induction false} SentinelIsHonest(m: Machine, es: seq<Event>)
    requires Sound(m) && AllChecked(es)
    ensures Sound(Play(m, es))
    ensures
      var db := Play(m, es).db;
      db.sentinel.Some? && db.sentinel.value != WIPE_IN_PROGRESS ==> Versions(db) <= {db.sentinel.value}
  {
    if es == [] {
    } else {
      var init, last := es[..|es| - 1], es[|es| - 1];
      assert forall e | e in init :: e in es;
      SentinelIsHonest(m, init);
      assert last in es;
      if last.Boot? {
        CheckKeepsHonest(Play(m, init).db, last.version, last.budget);
      }
    }
  }

  /**
   * A wipe that was interrupted always resumes: from any store whose sentinel says so, however many boots
   * die in between, the first one that lives long enough ends with everything wiped and the sentinel set.
   */
  lemma {:induction false} InterruptedWipeResumes(db: Db, version: string, deaths: seq<nat>, budget: nat)
    requires db.sentinel == Some(WIPE_IN_PROGRESS) && version != WIPE_IN_PROGRESS
    requires (forall d | d in deaths :: d < 8) && budget >= 8
    ensures Crashed(AfterDeaths(db, version, deaths), version, budget) == Db(Some(version), {}, {}, {}, {}, {}, false)
    ensures AfterDeaths(db, version, deaths).sentinel == Some(WIPE_IN_PROGRESS)
  {
    if deaths == [] {
      assert WipeCommits(version)[..8] == WipeCommits(version);
      WholeWipe(version, db);
    } else {
      var init, last := deaths[..|deaths| - 1], deaths[|deaths| - 1];
      assert forall d | d in init :: d in deaths;
      InterruptedWipeResumes(db, version, init, budget);
      assert last in deaths;
      var now := AfterDeaths(db, version, init);
      WipePrefix(version, last, now);
      assert WipeCommits(version)[..8] == WipeCommits(version);
      WholeWipe(version, AfterDeaths(db, version, deaths));
    }
  }

  /** Boots of one version, each dying after the given number of commits. */
  function AfterDeaths(db: Db, version: string, deaths: seq<nat>): Db {
    if deaths == [] then db
    else Crashed(AfterDeaths(db, version, deaths[..|deaths| - 1]), version, deaths[|deaths| - 1])
  }

  /**
   * Without a sentinel the check looks at chunk fingerprints and vectors only. Once it has finished, the
   * other stores hold no rows from before exactly when it wiped or they were empty.
   */
  lemma UnmarkedStoreKeepsTheRest(db: Db, version: string)
    requires db.sentinel.None?
    ensures
      var now := Crashed(db, version, 8);
      && now.sentinel == Some(version)
      && (now.metaPrints == {} && now.embeddingCache == {} && now.graph == {} <==>
          db.chunkPrints != {} || db.vectors != {}
          || (db.metaPrints == {} && db.embeddingCache == {} && db.graph == {}))
  {
    if db.chunkPrints == {} && db.vectors == {} {
      RunOne(SetSentinel(version), db);
    } else {
      assert WipeCommits(version)[..8] == WipeCommits(version);
      WholeWipe(version, db);
    }
  }

  // ---- boots without the check ----

  /** The check is off by default; what runs then need not be what the sentinel names. */
  ghost predicate Tolerable(m: Machine) {
    && Honest(m.db)
    && (m.running.Some? ==>
          m.running.value != WIPE_IN_PROGRESS && m.db.sentinel in {None, Some(WIPE_IN_PROGRESS), m.running})
  }

  /**
   * An unchecked boot may find no sentinel, a wipe in progress or its own version. While there is no
   * sentinel, indexing leaves a chunk fingerprint or a vector when it leaves anything.
   */
  ghost predicate Permitted(m: Machine, e: Event) {
    match e
    case Boot(v, checked, _) =>
      v != WIPE_IN_PROGRESS && (checked || m.db.sentinel in {None, Some(WIPE_IN_PROGRESS), Some(v)})
    case Index(w) =>
      m.db.sentinel.None? && w != Writes(false, false, false, false, false) ==> w.vectors || w.chunkPrints
  }

  ghost predicate AllPermitted(m: Machine, es: seq<Event>) {
    forall i | 0 <= i < |es| :: Permitted(Play(m, es[..i]), es[i])
  }

  /** Over every run whose unchecked boots find what they may, the sentinel stays honest. */
  lemma {:induction false} PermittedRunsStayHonest(m: Machine, es: seq<Event>)
    requires Tolerable(m) && AllPermitted(m, es)
    ensures Tolerable(Play(m, es))
  {
    if es == [] {
    } else {
      var init, last := es[..|es| - 1], es[|es| - 1];
      forall i | 0 <= i < |init|
        ensures Permitted(Play(m, init[..i]), init[i])
      {
        assert init[..i] == es[..i];
        assert Permitted(Play(m, es[..i]), es[i]);
      }
      PermittedRunsStayHonest(m, init);
      assert Permitted(Play(m, es[..|es| - 1]), es[|es| - 1]);
      PermittedStep(Play(m, init), last);
    }
  }

  lemma PermittedStep(m: Machine, e: Event)
    requires Tolerable(m) && Permitted(m, e)
    ensures Tolerable(Next(m, e))
  {
    if e.Boot? && e.checked {
      CheckKeepsHonest(m.db, e.version, e.budget);
    }
  }

  /** Any other unchecked boot is one that indexing makes a liar of. */
  lemma UncheckedIndexing(db: Db, version: string, w: Writes)
    requires Honest(db) && version != WIPE_IN_PROGRESS
    requires w.vectors || w.chunkPrints
    ensures Honest(Indexed(db, w, version)) <==> db.sentinel in {None, Some(WIPE_IN_PROGRESS), Some(version)}
  {
    assert version in Versions(Indexed(db, w, version));
  }
}
