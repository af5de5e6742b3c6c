/** The states `index_file` and a purge commit on their way, and what a crash between two of them leaves. */
module IndexCommits {
  import opened FileTracking
  import opened ChunkTables
  import opened IncrementalIndex
  import opened Wrappers

  // ---- the commits ----

  /** The rebind lookup found a binding, and the binding has refs. */
  predicate Rebinds(cfg: Config, db: Db, found: Option<Path>) {
    found.Some? && RefsOf(Active(cfg, db), found.value) != {}
  }

  /** A path whose refs, document and binding are stored, with or without its fingerprints. */
  function Bound(cfg: Config, db: Db, t: Tables, p: Path, f: File, chunkPrint: bool, metaPrint: bool): Db {
    Db(db.disk,
       if chunkPrint then db.chunkPrints[p := Print(f.mtime, f.size, f.sum)] else db.chunkPrints,
       if metaPrint then db.metaPrints[p := Print(f.mtime, f.size, f.meta)] else db.metaPrints,
       db.docs[p := Doc(f.sum, f.meta)],
       db.bindings[p := Binding(true, Some(f.sum), Some(f.meta))],
       db.tables[cfg.strategy := t])
  }

  /** The refs, document and binding in one transaction, then the two fingerprints. */
  function RebindCommits(cfg: Config, db: Db, p: Path, f: File, found: Option<Path>): seq<Db> {
    if !Rebinds(cfg, db, found) then []
    else
      var t := Attached(cfg, db, p, found.value);
      [Bound(cfg, db, t, p, f, false, false), Bound(cfg, db, t, p, f, true, false),
       Bound(cfg, db, t, p, f, true, true)]
  }

  /** A path whose chunks and document are stored, but not yet its binding. */
  function Saved(cfg: Config, db: Db, t: Tables, p: Path, f: File, chunkPrint: bool): Db {
    Bound(cfg, db, t, p, f, chunkPrint, false).(bindings := db.bindings)
  }

  /**
   * The cleanup; the chunks with the document row; the chunk fingerprint; the binding (the document row,
   * upserted once more before it, stays as it is); the metadata fingerprint. For a file without chunks only
   * the first and the third.
   */
  function RechunkCommits(cfg: Config, db: Db, p: Path, f: File): seq<Db> {
    var clean := Clean(db, p);
    if cfg.chunk(f.sum) == [] then
      [clean, clean.(chunkPrints := db.chunkPrints[p := Print(f.mtime, f.size, f.sum)])]
    else
      var t := Rechunked(cfg, db, p, f.sum);
      [clean, Saved(cfg, clean, t, p, f, false), Saved(cfg, clean, t, p, f, true),
       Bound(cfg, clean, t, p, f, true, false), Bound(cfg, clean, t, p, f, true, true)]
  }

  /** A path whose content is unchanged, with its stats as they are now. */
  function Restated(db: Db, p: Path, f: File): Db {
    db.(chunkPrints := Refreshed(db.chunkPrints, p, BodyStat(f)),
        metaPrints := Refreshed(db.metaPrints, p, MetaStat(f)))
  }

  /** Drifted stats, the document, the binding, the metadata fingerprint: each is a commit of its own. */
  function RefreshCommits(cfg: Config, db: Db, p: Path, f: File): seq<Db> {
    var seen := Restated(db, p, f);
    var stats := [seen.(metaPrints := db.metaPrints), seen];
    if TwoStage(db.metaPrints, p, MetaStat(f)) == Unchanged || RefsOf(Active(cfg, db), p) == {} then stats
    else
      var bound := UpsertActive(seen, p, f);
      stats + [bound.(bindings := db.bindings), bound,
               bound.(metaPrints := seen.metaPrints[p := Print(f.mtime, f.size, f.meta)])]
  }

  /** Every state `index_file` commits, in order. */
  function Commits(cfg: Config, db: Db, p: Path, found: Option<Path>): seq<Db> {
    if p !in db.disk then []
    else
      var f := db.disk[p];
      var bound := Rebind(cfg, db, p, f, found);
      RebindCommits(cfg, db, p, f, found)
      + (if TwoStage(bound.chunkPrints, p, BodyStat(f)) != Unchanged then RechunkCommits(cfg, bound, p, f)
         else RefreshCommits(cfg, bound, p, f))
  }

  /** The cascade, then the two fingerprints. */
  function PurgeCommits(db: Db, p: Path): seq<Db> {
    var clean := Clean(db, p);
    [clean, clean.(chunkPrints := db.chunkPrints - {p}), Purge(db, p)]
  }

  /** What an operation leaves that dies after n commits, or completes if it has no more. */
  function StateAfter(db: Db, commits: seq<Db>, n: nat): Db {
    if n == 0 || commits == [] then db else if n < |commits| then commits[n - 1] else commits[|commits| - 1]
  }

  /** An `index_file` that does not die does all of this. */
  lemma IndexFileIsAllCommits(cfg: Config, db: Db, p: Path, found: Option<Path>, n: nat)
    requires n >= |Commits(cfg, db, p, found)|
    ensures StateAfter(db, Commits(cfg, db, p, found), n) == IndexFile(cfg, db, p, found)
  {
    if p in db.disk {
      var f := db.disk[p];
      var bound := Rebind(cfg, db, p, f, found);
      if TwoStage(bound.chunkPrints, p, BodyStat(f)) != Unchanged {
        RechunkIsAllCommits(cfg, bound, p, f);
      } else {
        RefreshIsAllCommits(cfg, bound, p, f);
      }
    }
  }

  lemma RechunkIsAllCommits(cfg: Config, db: Db, p: Path, f: File)
    ensures
      var commits := RechunkCommits(cfg, db, p, f);
      commits != [] && commits[|commits| - 1] == Rechunk(cfg, db, p, f)
  {
  }

  lemma RefreshIsAllCommits(cfg: Config, db: Db, p: Path, f: File)
    ensures
      var commits := RefreshCommits(cfg, db, p, f);
      var stated := db.(chunkPrints := Refreshed(db.chunkPrints, p, BodyStat(f)));
      commits != [] && commits[|commits| - 1] == RefreshMeta(cfg, stated, p, f)
  {
  }

  // ---- what a commit leaves ----

  /** The refs p has after n commits. */
  ghost function LeftRefs(cfg: Config, db: Db, p: Path, found: Option<Path>, n: nat): set<Ref>
    requires p in db.disk
  {
    var t, f := Active(cfg, db), db.disk[p];
    if n == 0 then RefsOf(t, p)
    else if Rebinds(cfg, db, found) then RefsOf(t, p) + RefsOf(t, found.value)
    else if TwoStage(db.chunkPrints, p, BodyStat(f)) == Unchanged then RefsOf(t, p)
    else if n == 1 then {} else Scratch(cfg, f.sum)
  }

  /** A rebind may leave p wrong if it died before the fingerprint, or if p or the path it is taken from was. */
  ghost function TornByRebind(p: Path, q: Path, n: nat, torn: set<Path>): set<Path> {
    if n == 1 || p in torn || q in torn then torn + {p} else torn
  }

  /** Re-chunking puts p right once its binding is stored, or its fingerprint when there are no chunks. */
  ghost function TornByRechunk(cfg: Config, p: Path, f: File, n: nat, torn: set<Path>): set<Path> {
    if n < (if cfg.chunk(f.sum) == [] then 2 else 4) then torn + {p} else torn - {p}
  }

  /** The paths that may be wrong once `index_file` died after n commits, given those that may be before. */
  ghost function TornByIndex(
    cfg: Config, db: Db, p: Path, found: Option<Path>, n: nat, torn: set<Path>): set<Path>
    requires p in db.disk
  {
    var f := db.disk[p];
    if n == 0 then torn
    else if Rebinds(cfg, db, found) then TornByRebind(p, found.value, n, torn)
    else if TwoStage(db.chunkPrints, p, BodyStat(f)) == Unchanged then torn
    else TornByRechunk(cfg, p, f, n, torn)
  }

  /** What a state on the way has in common with the state before: only p differs. */
  ghost predicate OnlyPath(cfg: Config, db: Db, db': Db, p: Path, refs: set<Ref>) {
    && db'.disk == db.disk
    && (forall q | q != p :: RefsOf(Active(cfg, db'), q) == RefsOf(Active(cfg, db), q))
    && RefsOf(Active(cfg, db'), p) == refs
  }

  /** What the state on the way to indexing f at p is worth. */
  ghost predicate Leaves(cfg: Config, db: Db, db': Db, p: Path, f: File, refs: set<Ref>, torn': set<Path>) {
    && Inv(cfg, db', torn') && OnlyPath(cfg, db, db', p, refs)
    && db'.chunkPrints in {db.chunkPrints, db.chunkPrints[p := Print(f.mtime, f.size, f.sum)]}
  }

  /** A state with other tables and rows for p, whose row of p fits or is counted as torn. */
  lemma OtherTables(
    cfg: Config, db: Db, db': Db, t: Tables, p: Path, refs: set<Ref>, torn: set<Path>, torn': set<Path>)
    requires Inv(cfg, db, torn) && TablesFor(cfg, db, t, p, refs) && SameElsewhere(db, db', p)
    requires db'.disk == db.disk && Active(cfg, db') == t
    requires forall s | s in db'.tables && s != cfg.strategy :: Consistent(db'.tables[s])
    requires torn - {p} <= torn'
    requires p in torn' || PathOk(cfg, refs, Lookup(db'.chunkPrints, p), Lookup(db'.docs, p), Lookup(db'.bindings, p))
    ensures Inv(cfg, db', torn') && OnlyPath(cfg, db, db', p, refs)
  {
    TablesChanged(cfg, db, db', t, p, torn, torn');
  }

  lemma BoundLeaves(
    cfg: Config, db: Db, t: Tables, p: Path, f: File, chunkPrint: bool, metaPrint: bool, refs: set<Ref>,
    torn: set<Path>, torn': set<Path>)
    requires Inv(cfg, db, torn) && TablesFor(cfg, db, t, p, refs) && torn - {p} <= torn'
    requires p in torn' || (chunkPrint && refs == Scratch(cfg, f.sum))
    ensures Leaves(cfg, db, Bound(cfg, db, t, p, f, chunkPrint, metaPrint), p, f, refs, torn')
  {
    OtherTables(cfg, db, Bound(cfg, db, t, p, f, chunkPrint, metaPrint), t, p, refs, torn, torn');
  }

  lemma SavedLeaves(
    cfg: Config, db: Db, t: Tables, p: Path, f: File, chunkPrint: bool, refs: set<Ref>, torn: set<Path>)
    requires Inv(cfg, db, torn) && TablesFor(cfg, db, t, p, refs)
    ensures Leaves(cfg, db, Saved(cfg, db, t, p, f, chunkPrint), p, f, refs, torn + {p})
  {
    OtherTables(cfg, db, Saved(cfg, db, t, p, f, chunkPrint), t, p, refs, torn, torn + {p});
  }

  lemma RebindLeaves(cfg: Config, db: Db, p: Path, f: File, q: Path, i: nat, torn: set<Path>)
    requires Inv(cfg, db, torn) && Candidate(db, p, f, Some(q)) && RefsOf(Active(cfg, db), q) != {} && i < 3
    ensures
      var t := Active(cfg, db);
      Leaves(cfg, db, RebindCommits(cfg, db, p, f, Some(q))[i], p, f, RefsOf(t, p) + RefsOf(t, q),
             TornByRebind(p, q, i + 1, torn))
  {
    var t, t' := Active(cfg, db), Attached(cfg, db, p, q);
    AttachedMeaning(cfg, db, p, q, torn);
    if p !in torn && q !in torn {
      RetainedRefs(cfg, db, p, f, q, torn);
    }
    BoundLeaves(cfg, db, t', p, f, i > 0, i == 2, RefsOf(t, p) + RefsOf(t, q), torn, TornByRebind(p, q, i + 1, torn));
  }

  /** Tables for p that stand next to a cleaned index stand next to the index before. */
  lemma CleanedFirst(cfg: Config, db: Db, db': Db, p: Path, f: File, refs: set<Ref>, torn: set<Path>, torn': set<Path>)
    requires Inv(cfg, db, torn) && Leaves(cfg, Clean(db, p), db', p, f, refs, torn')
    ensures Leaves(cfg, db, db', p, f, refs, torn')
  {
    CleanMeaning(cfg, db, p, torn);
  }

  lemma RechunkLeaves(cfg: Config, db: Db, p: Path, f: File, i: nat, torn: set<Path>)
    requires Inv(cfg, db, torn) && i < |RechunkCommits(cfg, db, p, f)|
    ensures Leaves(cfg, db, RechunkCommits(cfg, db, p, f)[i], p, f, if i == 0 then {} else Scratch(cfg, f.sum),
                   TornByRechunk(cfg, p, f, i + 1, torn))
  {
    var clean, t := Clean(db, p), Rechunked(cfg, db, p, f.sum);
    CleanMeaning(cfg, db, p, torn);
    CleanTears(cfg, db, p, torn);
    RechunkedMeaning(cfg, db, p, f.sum, torn);
    if i > 0 && cfg.chunk(f.sum) == [] {
      EmptyLeaves(cfg, db, p, f, torn);
    } else if i > 0 {
      RechunkedAfterClean(cfg, db, p, f, torn);
      if i < 3 {
        SavedLeaves(cfg, clean, t, p, f, i > 1, Scratch(cfg, f.sum), torn + {p});
        assert torn + {p} + {p} == torn + {p};
      } else {
        BoundLeaves(cfg, clean, t, p, f, true, i == 4, Scratch(cfg, f.sum), torn + {p}, torn - {p});
      }
      CleanedFirst(cfg, db, RechunkCommits(cfg, db, p, f)[i], p, f, Scratch(cfg, f.sum), torn,
                   TornByRechunk(cfg, p, f, i + 1, torn));
    }
  }

  lemma RechunkedAfterClean(cfg: Config, db: Db, p: Path, f: File, torn: set<Path>)
    requires Inv(cfg, db, torn)
    ensures TablesFor(cfg, Clean(db, p), Rechunked(cfg, db, p, f.sum), p, Scratch(cfg, f.sum))
  {
    CleanMeaning(cfg, db, p, torn);
    RechunkedMeaning(cfg, db, p, f.sum, torn);
  }

  lemma EmptyLeaves(cfg: Config, db: Db, p: Path, f: File, torn: set<Path>)
    requires Inv(cfg, db, torn) && cfg.chunk(f.sum) == []
    ensures
      var db' := Clean(db, p).(chunkPrints := db.chunkPrints[p := Print(f.mtime, f.size, f.sum)]);
      Leaves(cfg, db, db', p, f, Scratch(cfg, f.sum), torn - {p})
  {
    var clean := Clean(db, p);
    var db' := clean.(chunkPrints := db.chunkPrints[p := Print(f.mtime, f.size, f.sum)]);
    CleanMeaning(cfg, db, p, torn);
    RechunkedMeaning(cfg, db, p, f.sum, torn);
    OtherTables(cfg, db, db', Active(cfg, clean), p, {}, torn, torn - {p});
  }

  lemma RefreshLeaves(cfg: Config, db: Db, p: Path, f: File, i: nat, torn: set<Path>)
    requires Inv(cfg, db, torn) && i < |RefreshCommits(cfg, db, p, f)|
    requires p in db.chunkPrints && db.chunkPrints[p].sum == f.sum
    ensures Leaves(cfg, db, RefreshCommits(cfg, db, p, f)[i], p, f, RefsOf(Active(cfg, db), p), torn)
  {
    var db' := RefreshCommits(cfg, db, p, f)[i];
    assert p !in torn ==> PathInv(cfg, db, p);
    assert db'.tables == db.tables;
    RefreshedRows(cfg, db, p, f, i);
    OnePathChanged(cfg, db, db', p, torn, torn);
  }

  lemma RefreshedRows(cfg: Config, db: Db, p: Path, f: File, i: nat)
    requires i < |RefreshCommits(cfg, db, p, f)| && p in db.chunkPrints && db.chunkPrints[p].sum == f.sum
    ensures
      var db' := RefreshCommits(cfg, db, p, f)[i];
      && SameElsewhere(db, db', p) && db'.disk == db.disk && db'.tables == db.tables
      && db'.chunkPrints in {db.chunkPrints, db.chunkPrints[p := Print(f.mtime, f.size, f.sum)]}
      && (PathInv(cfg, db, p) ==> PathInv(cfg, db', p))
  {
    RestatedPrints(db, p, f);
    RestatedRows(cfg, db, RefreshCommits(cfg, db, p, f)[i], p, f, i >= 2, i >= 3);
  }

  lemma RestatedRows(cfg: Config, db: Db, db': Db, p: Path, f: File, documented: bool, bound: bool)
    requires p in db.chunkPrints && db.chunkPrints[p].sum == f.sum
    requires db'.chunkPrints in {db.chunkPrints, db.chunkPrints[p := Print(f.mtime, f.size, f.sum)]}
    requires db'.tables == db.tables
    requires db'.docs == if documented then db.docs[p := Doc(f.sum, f.meta)] else db.docs
    requires db'.bindings == if bound then db.bindings[p := Binding(true, Some(f.sum), Some(f.meta))] else db.bindings
    ensures SameElsewhere(db, db', p) && (PathInv(cfg, db, p) ==> PathInv(cfg, db', p))
  {
    assert Active(cfg, db') == Active(cfg, db);
    assert p in db'.chunkPrints && db'.chunkPrints[p].sum == f.sum;
  }

  lemma RestatedPrints(db: Db, p: Path, f: File)
    requires p in db.chunkPrints && db.chunkPrints[p].sum == f.sum
    ensures Restated(db, p, f).chunkPrints in {db.chunkPrints, db.chunkPrints[p := Print(f.mtime, f.size, f.sum)]}
  {
  }

  /** After any number of commits: the refs, the other paths, the fingerprint, and who may be wrong. */
  lemma CommitMeaning(cfg: Config, db: Db, p: Path, found: Option<Path>, n: nat, torn: set<Path>)
    requires Inv(cfg, db, torn) && HonestClock(db)
    requires p in db.disk && Candidate(db, p, db.disk[p], found)
    ensures Leaves(cfg, db, StateAfter(db, Commits(cfg, db, p, found), n), p, db.disk[p],
                   LeftRefs(cfg, db, p, found, n), TornByIndex(cfg, db, p, found, n, torn))
  {
    var f := db.disk[p];
    if n == 0 {
    } else if Rebinds(cfg, db, found) {
      RebindCommitMeaning(cfg, db, p, found, n, torn);
    } else if TwoStage(db.chunkPrints, p, BodyStat(f)) != Unchanged {
      var i := StateInConcat(db, [], RechunkCommits(cfg, db, p, f), n);
      RechunkLeaves(cfg, db, p, f, i, torn);
      RechunkedMeaning(cfg, db, p, f.sum, torn);
    } else {
      var i := StateInConcat(db, [], RefreshCommits(cfg, db, p, f), n);
      assert HonestAt(db.chunkPrints, p, BodyStat(f));
      RefreshLeaves(cfg, db, p, f, i, torn);
    }
  }

  /** Where in the second of two lists of commits a state is found. */
  lemma StateInConcat(db: Db, a: seq<Db>, b: seq<Db>, n: nat) returns (i: nat)
    requires n > |a| && b != []
    ensures i < |b| && StateAfter(db, a + b, n) == b[i] && (i == n - |a| - 1 || (i == |b| - 1 && n > |a + b|))
  {
    i := if n <= |a + b| then n - |a| - 1 else |b| - 1;
  }

  lemma RebindCommitMeaning(cfg: Config, db: Db, p: Path, found: Option<Path>, n: nat, torn: set<Path>)
    requires Inv(cfg, db, torn) && n > 0
    requires p in db.disk && Candidate(db, p, db.disk[p], found) && Rebinds(cfg, db, found)
    ensures
      var t := Active(cfg, db);
      Leaves(cfg, db, StateAfter(db, Commits(cfg, db, p, found), n), p, db.disk[p],
             RefsOf(t, p) + RefsOf(t, found.value), TornByRebind(p, found.value, n, torn))
  {
    var f, q, t := db.disk[p], found.value, Active(cfg, db);
    var bound := Bound(cfg, db, Attached(cfg, db, p, q), p, f, true, true);
    var first, rest := RebindCommits(cfg, db, p, f, found), RefreshCommits(cfg, bound, p, f);
    CommitsOfRebind(cfg, db, p, found);
    if n <= 3 {
      RebindLeaves(cfg, db, p, f, q, n - 1, torn);
    } else {
      var i := StateInConcat(db, first, rest, n);
      RebindLeaves(cfg, db, p, f, q, 2, torn);
      RefreshAfterRebind(cfg, db, bound, i, p, f, RefsOf(t, p) + RefsOf(t, q), TornByRebind(p, q, n, torn));
    }
  }

  lemma CommitsOfRebind(cfg: Config, db: Db, p: Path, found: Option<Path>)
    requires p in db.disk && Rebinds(cfg, db, found)
    ensures
      var f := db.disk[p];
      var bound := Bound(cfg, db, Attached(cfg, db, p, found.value), p, f, true, true);
      && |RebindCommits(cfg, db, p, f, found)| == 3 && RebindCommits(cfg, db, p, f, found)[2] == bound
      && Commits(cfg, db, p, found) == RebindCommits(cfg, db, p, f, found) + RefreshCommits(cfg, bound, p, f)
  {
  }

  lemma RefreshAfterRebind(
    cfg: Config, db: Db, bound: Db, i: nat, p: Path, f: File, refs: set<Ref>, torn': set<Path>)
    requires Leaves(cfg, db, bound, p, f, refs, torn') && i < |RefreshCommits(cfg, bound, p, f)|
    requires bound.chunkPrints == db.chunkPrints[p := Print(f.mtime, f.size, f.sum)]
    ensures Leaves(cfg, db, RefreshCommits(cfg, bound, p, f)[i], p, f, refs, torn')
  {
    var stamp := Print(f.mtime, f.size, f.sum);
    RefreshLeaves(cfg, bound, p, f, i, torn');
    assert db.chunkPrints[p := stamp][p := stamp] == db.chunkPrints[p := stamp];
  }

  /** A purge that died: only its first commit leaves the path torn. */
  function TornByPurge(p: Path, n: nat, torn: set<Path>): set<Path> {
    if n == 0 then torn else if n == 1 then torn + {p} else torn - {p}
  }

  lemma PurgeCommit(cfg: Config, db: Db, p: Path, n: nat, torn: set<Path>)
    requires Inv(cfg, db, torn)
    ensures Inv(cfg, StateAfter(db, PurgeCommits(db, p), n), TornByPurge(p, n, torn))
  {
    CleanMeaning(cfg, db, p, torn);
    if n > 0 {
      OnePathChanged(cfg, db, StateAfter(db, PurgeCommits(db, p), n), p, torn, TornByPurge(p, n, torn));
    }
  }

  // ---- incremental against from scratch ----

  /**
   * What `index_file` leaves, whatever was torn before: a rebind adds the refs of the binding it found to
   * those already there; content that is the fingerprinted one keeps its refs; any other is chunked from
   * scratch. No other file's refs change.
   */
  lemma IndexedRefs(cfg: Config, db: Db, p: Path, found: Option<Path>, torn: set<Path>)
    requires Inv(cfg, db, torn) && HonestClock(db)
    requires p in db.disk && Candidate(db, p, db.disk[p], found)
    ensures
      var f, t, t' := db.disk[p], Active(cfg, db), Active(cfg, IndexFile(cfg, db, p, found));
      && RefsOf(t', p) == (if Rebinds(cfg, db, found) then RefsOf(t, p) + RefsOf(t, found.value)
                           else if p in db.chunkPrints && db.chunkPrints[p].sum == f.sum then RefsOf(t, p)
                           else Scratch(cfg, f.sum))
      && (forall q | q != p :: RefsOf(t', q) == RefsOf(t, q))
  {
    var n := |Commits(cfg, db, p, found)| + 2;
    assert HonestAt(db.chunkPrints, p, BodyStat(db.disk[p]));
    IndexFileIsAllCommits(cfg, db, p, found, n);
    CommitMeaning(cfg, db, p, found, n, torn);
  }

  /**
   * Incremental equals from scratch: on an honest clock, and with nothing torn at the path or at the
   * binding it is rebound from, the file's refs are exactly those of chunking its current content.
   */
  lemma IndexFileMeaning(cfg: Config, db: Db, p: Path, found: Option<Path>, torn: set<Path>)
    requires Inv(cfg, db, torn) && HonestClock(db) && p !in torn && (found.Some? ==> found.value !in torn)
    requires p in db.disk && Candidate(db, p, db.disk[p], found)
    ensures
      var db' := IndexFile(cfg, db, p, found);
      && Inv(cfg, db', torn)
      && RefsOf(Active(cfg, db'), p) == Scratch(cfg, db.disk[p].sum)
      && (forall q | q != p :: RefsOf(Active(cfg, db'), q) == RefsOf(Active(cfg, db), q))
  {
    var n, f := |Commits(cfg, db, p, found)| + 5, db.disk[p];
    IndexFileIsAllCommits(cfg, db, p, found, n);
    CommitMeaning(cfg, db, p, found, n, torn);
    IndexedRefs(cfg, db, p, found, torn);
    assert torn - {p} == torn;
    if Rebinds(cfg, db, found) {
      RetainedRefs(cfg, db, p, f, found.value, torn);
    } else {
      assert PathInv(cfg, db, p);
    }
  }

  // ---- a crash while re-chunking ----

  /** The refs a crash leaves: none before the chunks are committed, then those of the content it indexed. */
  ghost function RefsLeftByCrash(cfg: Config, g: BodySum, n: nat): set<Ref> {
    if n == 1 then {} else Scratch(cfg, g)
  }

  /** The index after a crash n commits into indexing p, once the content of p is that of f. */
  function Later(cfg: Config, db: Db, p: Path, found: Option<Path>, n: nat, f: File): Db {
    var crashed := StateAfter(db, Commits(cfg, db, p, found), n);
    crashed.(disk := crashed.disk[p := f])
  }

  /** `index_file` is about to re-chunk p, dies after n commits, and runs again for content f. */
  ghost predicate CrashesThenReindexes(
    cfg: Config, db: Db, p: Path, found: Option<Path>, n: nat, f: File, again: Option<Path>, torn: set<Path>) {
    && Inv(cfg, db, torn) && HonestClock(db)
    && p in db.disk && Candidate(db, p, db.disk[p], found) && !Rebinds(cfg, db, found)
    && TwoStage(db.chunkPrints, p, BodyStat(db.disk[p])) != Unchanged && n > 0
    && HonestAt(Later(cfg, db, p, found, n, f).chunkPrints, p, BodyStat(f))
    && Candidate(Later(cfg, db, p, found, n, f), p, f, again)
  }

  predicate Differs(db: Db, p: Path, f: File) {
    p !in db.chunkPrints || db.chunkPrints[p].sum != f.sum
  }

  /**
   * A crash while `index_file` re-chunks a file with content g, after n of its commits, and the next
   * `index_file`, for content f. If that finds a retained binding with refs, it is right iff these and the
   * refs the crash left make up those of f; else it is right iff f has the refs the crash left or differs
   * from the fingerprinted content. Otherwise the file ends with the refs the crash left and those found.
   */
  lemma ReindexAfterCrashExactly(
    cfg: Config, db: Db, p: Path, found: Option<Path>, n: nat, f: File, again: Option<Path>, torn: set<Path>)
    requires CrashesThenReindexes(cfg, db, p, found, n, f, again, torn)
    ensures
      var later := Later(cfg, db, p, found, n, f);
      var refs := RefsOf(Active(cfg, IndexFile(cfg, later, p, again)), p);
      var left := RefsLeftByCrash(cfg, db.disk[p].sum, n);
      if Rebinds(cfg, later, again) then
        && (refs == Scratch(cfg, f.sum) <==> left + RefsOf(Active(cfg, later), again.value) == Scratch(cfg, f.sum))
        && refs == left + RefsOf(Active(cfg, later), again.value)
      else
        && (refs == Scratch(cfg, f.sum) <==> left == Scratch(cfg, f.sum) || Differs(later, p, f))
        && (!Differs(later, p, f) ==> refs == left)
  {
    LaterIsSound(cfg, db, p, found, n, f, torn);
    IndexedRefs(cfg, Later(cfg, db, p, found, n, f), p, again, TornByIndex(cfg, db, p, found, n, torn));
  }

  /**
   * A file that has a binding row can only be taken back from that binding, and keeps its refs then: it is
   * right iff f has the refs the crash left, or differs from the fingerprinted content and is not taken back.
   */
  lemma BoundFileAfterCrash(
    cfg: Config, db: Db, p: Path, found: Option<Path>, n: nat, f: File, again: Option<Path>, torn: set<Path>)
    requires CrashesThenReindexes(cfg, db, p, found, n, f, again, torn) && p in db.bindings
    ensures
      var later := Later(cfg, db, p, found, n, f);
      var refs := RefsOf(Active(cfg, IndexFile(cfg, later, p, again)), p);
      var left := RefsLeftByCrash(cfg, db.disk[p].sum, n);
      var takenBack := left != {} && p in later.bindings && Matches(later.bindings[p], f);
      && (refs == Scratch(cfg, f.sum) <==> left == Scratch(cfg, f.sum) || (Differs(later, p, f) && !takenBack))
      && (!Differs(later, p, f) || takenBack ==> refs == left)
  {
    var left := RefsLeftByCrash(cfg, db.disk[p].sum, n);
    LaterIsSound(cfg, db, p, found, n, f, torn);
    CrashKeepsBinding(cfg, db, p, found, n);
    ReindexAfterCrashExactly(cfg, db, p, found, n, f, again, torn);
    assert left + left == left;
  }

  lemma LaterInv(cfg: Config, db: Db, db': Db, torn: set<Path>)
    requires Inv(cfg, db, torn) && db' == db.(disk := db'.disk)
    ensures Inv(cfg, db', torn)
  {
    forall p | p !in torn
      ensures PathInv(cfg, db', p)
    {
      assert PathInv(cfg, db, p);
    }
  }

  lemma LaterIsSound(
    cfg: Config, db: Db, p: Path, found: Option<Path>, n: nat, f: File, torn: set<Path>)
    requires Inv(cfg, db, torn) && HonestClock(db) && p in db.disk && Candidate(db, p, db.disk[p], found)
    requires HonestAt(Later(cfg, db, p, found, n, f).chunkPrints, p, BodyStat(f))
    ensures
      var later := Later(cfg, db, p, found, n, f);
      && HonestClock(later) && Inv(cfg, later, TornByIndex(cfg, db, p, found, n, torn))
      && RefsOf(Active(cfg, later), p) == LeftRefs(cfg, db, p, found, n)
      && (forall q | q != p :: RefsOf(Active(cfg, later), q) == RefsOf(Active(cfg, db), q))
  {
    var crashed := StateAfter(db, Commits(cfg, db, p, found), n);
    CommitMeaning(cfg, db, p, found, n, torn);
    LaterInv(cfg, crashed, Later(cfg, db, p, found, n, f), TornByIndex(cfg, db, p, found, n, torn));
  }

  lemma CrashKeepsBinding(cfg: Config, db: Db, p: Path, found: Option<Path>, n: nat)
    requires p in db.disk && p in db.bindings && !Rebinds(cfg, db, found)
    ensures p in StateAfter(db, Commits(cfg, db, p, found), n).bindings
  {
    var f := db.disk[p];
    if n == 0 {
    } else if TwoStage(db.chunkPrints, p, BodyStat(f)) != Unchanged {
      var i := StateInConcat(db, [], RechunkCommits(cfg, db, p, f), n);
      RechunkKeepsBinding(cfg, db, p, f, i);
    } else {
      var i := StateInConcat(db, [], RefreshCommits(cfg, db, p, f), n);
      RefreshKeepsBinding(cfg, db, p, f, i);
    }
  }

  lemma RechunkKeepsBinding(cfg: Config, db: Db, p: Path, f: File, i: nat)
    requires p in db.bindings && i < |RechunkCommits(cfg, db, p, f)|
    ensures p in RechunkCommits(cfg, db, p, f)[i].bindings
  {
  }

  lemma RefreshKeepsBinding(cfg: Config, db: Db, p: Path, f: File, i: nat)
    requires p in db.bindings && i < |RefreshCommits(cfg, db, p, f)|
    ensures p in RefreshCommits(cfg, db, p, f)[i].bindings
  {
  }
}
