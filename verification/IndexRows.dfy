/** What indexing, unbinding and purging leave in a path's document, binding and fingerprint rows. */
module IndexRows {
  import opened FileTracking
  import opened ChunkTables
  import opened IncrementalIndex
  import opened IndexCommits
  import opened IndexRuns
  import opened Wrappers

  /** The rows the index has for one path, chunks aside. */
  datatype PathRows = PathRows(
    doc: Option<Doc>, binding: Option<Binding>, chunkPrint: Option<Print<BodySum>>, metaPrint: Option<Print<string>>)

  function RowsAt(db: Db, p: Path): PathRows {
    PathRows(Lookup(db.docs, p), Lookup(db.bindings, p), Lookup(db.chunkPrints, p), Lookup(db.metaPrints, p))
  }

  /** The rows of a path whose file is indexed as it is. */
  function Current(f: File): PathRows {
    PathRows(Some(Doc(f.sum, f.meta)), Some(Binding(true, Some(f.sum), Some(f.meta))),
             Some(Print(f.mtime, f.size, f.sum)), Some(Print(f.mtime, f.size, f.meta)))
  }

  predicate ContentDiffers(db: Db, p: Path, f: File) {
    p !in db.chunkPrints || db.chunkPrints[p].sum != f.sum
  }

  predicate MetaDiffers(db: Db, p: Path, f: File) {
    p !in db.metaPrints || db.metaPrints[p].sum != f.meta
  }

  /** The clock is honest about this file's body and metadata. */
  predicate HonestFile(db: Db, p: Path, f: File) {
    HonestAt(db.chunkPrints, p, BodyStat(f)) && HonestAt(db.metaPrints, p, MetaStat(f))
  }

  /** The binding found is inactive, was deactivated with this very content and metadata, and retains chunks. */
  predicate Retaken(cfg: Config, db: Db, f: File, found: Option<Path>) {
    && found.Some? && found.value in db.bindings
    && db.bindings[found.value] == Binding(false, Some(f.sum), Some(f.meta))
    && RefsOf(Active(cfg, db), found.value) != {}
  }

  /** `index_file` writes all rows of the path: it rebinds, re-chunks into chunks, or sees new metadata of some. */
  ghost predicate WritesRows(cfg: Config, db: Db, p: Path, f: File, found: Option<Path>) {
    || Retaken(cfg, db, f, found)
    || (ContentDiffers(db, p, f) && cfg.chunk(f.sum) != [])
    || (!ContentDiffers(db, p, f) && MetaDiffers(db, p, f) && RefsOf(Active(cfg, db), p) != {})
  }

  /** A lookup that finds something finds a binding to retake, unless that has no chunks left. */
  lemma RebindsIsRetaken(cfg: Config, db: Db, p: Path, f: File, found: Option<Path>)
    requires Candidate(db, p, f, found)
    ensures Rebinds(cfg, db, found) <==> Retaken(cfg, db, f, found)
  {
  }

  /** Only the rows of p differ. */
  ghost predicate OnlyRows(db: Db, db': Db, p: Path) {
    db'.disk == db.disk && forall q | q != p :: RowsAt(db', q) == RowsAt(db, q)
  }

  lemma RowsAfterRebind(cfg: Config, db: Db, p: Path, f: File, found: Option<Path>)
    ensures OnlyRows(db, Rebind(cfg, db, p, f, found), p)
    ensures if Rebinds(cfg, db, found) then RowsAt(Rebind(cfg, db, p, f, found), p) == Current(f)
            else Rebind(cfg, db, p, f, found) == db
  {
  }

  lemma OnlyRowsRechunked(cfg: Config, db: Db, p: Path, f: File)
    ensures OnlyRows(db, Rechunk(cfg, db, p, f), p)
  {
  }

  lemma RowsAfterRechunk(cfg: Config, db: Db, p: Path, f: File)
    ensures RowsAt(Rechunk(cfg, db, p, f), p) ==
            if cfg.chunk(f.sum) != [] then Current(f)
            else PathRows(None, RowsAt(db, p).binding, Current(f).chunkPrint, RowsAt(db, p).metaPrint)
  {
  }

  /** The rows of a file whose content is that of its fingerprint. */
  function RefreshedRows(cfg: Config, db: Db, p: Path, f: File): PathRows {
    var rows := RowsAt(db, p);
    if TwoStage(db.metaPrints, p, MetaStat(f)) != Unchanged && RefsOf(Active(cfg, db), p) != {} then Current(f)
    else rows.(chunkPrint := Current(f).chunkPrint, metaPrint := Lookup(Refreshed(db.metaPrints, p, MetaStat(f)), p))
  }

  lemma RowsAfterRefresh(cfg: Config, db: Db, p: Path, f: File)
    requires p in db.chunkPrints && db.chunkPrints[p].sum == f.sum
    ensures
      var stated := db.(chunkPrints := Refreshed(db.chunkPrints, p, BodyStat(f)));
      && OnlyRows(db, RefreshMeta(cfg, stated, p, f), p)
      && RowsAt(RefreshMeta(cfg, stated, p, f), p) == RefreshedRows(cfg, db, p, f)
  {
    var stated := db.(chunkPrints := Refreshed(db.chunkPrints, p, BodyStat(f)));
    assert Lookup(stated.chunkPrints, p) == Current(f).chunkPrint;
  }

  lemma RefreshOfCurrentRows(cfg: Config, db: Db, p: Path, f: File)
    requires RowsAt(db, p) == Current(f)
    ensures RefreshedRows(cfg, db, p, f) == Current(f)
  {
  }

  /** The rows after `index_file` in terms of the two-stage tests it makes. */
  lemma RowsByTest(cfg: Config, db: Db, p: Path, found: Option<Path>)
    requires p in db.disk && HonestAt(db.chunkPrints, p, BodyStat(db.disk[p]))
    ensures OnlyRows(db, IndexFile(cfg, db, p, found), p)
    ensures
      var f, after := db.disk[p], RowsAt(IndexFile(cfg, db, p, found), p);
      if Rebinds(cfg, db, found) then after == Current(f)
      else if !ContentDiffers(db, p, f) then after == RefreshedRows(cfg, db, p, f)
      else if cfg.chunk(f.sum) != [] then after == Current(f)
      else after == PathRows(None, RowsAt(db, p).binding, Current(f).chunkPrint, RowsAt(db, p).metaPrint)
  {
    var f := db.disk[p];
    var bound := Rebind(cfg, db, p, f, found);
    RowsAfterRebind(cfg, db, p, f, found);
    if Rebinds(cfg, db, found) {
      assert Lookup(bound.chunkPrints, p) == Current(f).chunkPrint;
      RowsAfterRefresh(cfg, bound, p, f);
      RefreshOfCurrentRows(cfg, bound, p, f);
    } else if ContentDiffers(db, p, f) {
      OnlyRowsRechunked(cfg, db, p, f);
      RowsAfterRechunk(cfg, db, p, f);
    } else {
      RowsAfterRefresh(cfg, db, p, f);
    }
  }

  /**
   * A path's rows after `index_file`, in every branch. All are current when it writes them; a file whose
   * content gives no chunks loses its document and keeps binding and metadata fingerprint; otherwise the
   * document and the binding stay, and fingerprints of what has not changed carry the current stat.
   */
  lemma RowsAfterIndex(cfg: Config, db: Db, p: Path, found: Option<Path>)
    requires p in db.disk && HonestFile(db, p, db.disk[p]) && Candidate(db, p, db.disk[p], found)
    ensures
      var f, rows, after := db.disk[p], RowsAt(db, p), RowsAt(IndexFile(cfg, db, p, found), p);
      if WritesRows(cfg, db, p, f, found) then after == Current(f)
      else if ContentDiffers(db, p, f) then
        after == PathRows(None, rows.binding, Current(f).chunkPrint, rows.metaPrint)
      else
        after == PathRows(rows.doc, rows.binding, Current(f).chunkPrint,
                          if MetaDiffers(db, p, f) then rows.metaPrint else Current(f).metaPrint)
    ensures forall q | q != p :: RowsAt(IndexFile(cfg, db, p, found), q) == RowsAt(db, q)
  {
    RebindsIsRetaken(cfg, db, p, db.disk[p], found);
    RowsByTest(cfg, db, p, found);
  }

  /** Deactivating keeps what the document row says, or what the binding said, and forgets nothing else. */
  lemma RowsAfterUnbind(db: Db, p: Path)
    ensures
      var rows, after := RowsAt(db, p), RowsAt(Deactivate(db, p), p);
      && after == rows.(binding := after.binding) && after.binding.Some? && !after.binding.value.active
      && (rows.doc.Some? ==>
            after.binding == Some(Binding(false, Some(rows.doc.value.content), Some(rows.doc.value.meta))))
      && (rows.doc.None? && rows.binding.Some? ==> after.binding == Some(rows.binding.value.(active := false)))
      && (rows.doc.None? && rows.binding.None? ==> after.binding == Some(Binding(false, None, None)))
    ensures forall q | q != p :: RowsAt(Deactivate(db, p), q) == RowsAt(db, q)
  {
  }

  /** Purging removes the document and both fingerprints, and keeps the binding row. */
  lemma RowsAfterPurge(db: Db, p: Path)
    ensures RowsAt(Purge(db, p), p) == PathRows(None, RowsAt(db, p).binding, None, None)
    ensures forall q | q != p :: RowsAt(Purge(db, p), q) == RowsAt(db, q)
  {
  }

  // ---- rows that agree ----

  /**
   * A path with chunks has a document and a binding that retains just what the document says, and a metadata
   * fingerprint, if it has one, of the document's metadata.
   */
  ghost predicate InStep(cfg: Config, db: Db, p: Path) {
    var rows := RowsAt(db, p);
    RefsOf(Active(cfg, db), p) != {} ==>
      && rows.doc.Some? && rows.binding.Some?
      && rows.binding.value.content == Some(rows.doc.value.content)
      && rows.binding.value.meta == Some(rows.doc.value.meta)
      && (rows.metaPrint.Some? ==> rows.metaPrint.value.sum == rows.doc.value.meta)
  }

  ghost predicate AllInStep(cfg: Config, db: Db) {
    forall p :: InStep(cfg, db, p)
  }

  /** A metadata fingerprint that a diff refreshes keeps its checksum. */
  lemma RowsAfterIndexAnyClock(cfg: Config, db: Db, p: Path, found: Option<Path>)
    requires p in db.disk && HonestAt(db.chunkPrints, p, BodyStat(db.disk[p]))
    requires Candidate(db, p, db.disk[p], found)
    ensures
      var f, rows, after := db.disk[p], RowsAt(db, p), RowsAt(IndexFile(cfg, db, p, found), p);
      || after == Current(f)
      || (!Rebinds(cfg, db, found) && ContentDiffers(db, p, f) && cfg.chunk(f.sum) == [])
      || (&& !Rebinds(cfg, db, found) && !ContentDiffers(db, p, f)
          && after.doc == rows.doc && after.binding == rows.binding
          && (after.metaPrint.Some? ==>
                rows.metaPrint.Some? && after.metaPrint.value.sum == rows.metaPrint.value.sum))
    ensures forall q | q != p :: RowsAt(IndexFile(cfg, db, p, found), q) == RowsAt(db, q)
  {
    RowsByTest(cfg, db, p, found);
  }

  lemma IndexStaysInStep(cfg: Config, db: Db, p: Path, found: Option<Path>)
    requires Inv(cfg, db, {}) && HonestClock(db) && AllInStep(cfg, db)
    requires p in db.disk && Candidate(db, p, db.disk[p], found)
    ensures AllInStep(cfg, IndexFile(cfg, db, p, found))
  {
    var db' := IndexFile(cfg, db, p, found);
    IndexedRefs(cfg, db, p, found, {});
    assert HonestAt(db.chunkPrints, p, BodyStat(db.disk[p]));
    RowsAfterIndexAnyClock(cfg, db, p, found);
    OneMoreRef(db.disk[p].sum, cfg.strategy, 0);
    assert InStep(cfg, db, p);
    forall q
      ensures InStep(cfg, db', q)
    {
      assert InStep(cfg, db, q);
    }
  }

  lemma UnbindStaysInStep(cfg: Config, db: Db, p: Path)
    requires AllInStep(cfg, db)
    ensures AllInStep(cfg, Deactivate(db, p))
  {
    RowsAfterUnbind(db, p);
    forall q
      ensures InStep(cfg, Deactivate(db, p), q)
    {
      assert InStep(cfg, db, q);
    }
  }

  lemma PurgeStaysInStep(cfg: Config, db: Db, p: Path)
    requires Inv(cfg, db, {}) && AllInStep(cfg, db)
    ensures AllInStep(cfg, Purge(db, p))
  {
    CleanMeaning(cfg, db, p, {});
    RowsAfterPurge(db, p);
    forall q
      ensures InStep(cfg, Purge(db, p), q)
    {
      assert InStep(cfg, db, q);
    }
  }

  lemma StepStaysInStep(cfg: Config, db: Db, step: Step)
    requires Inv(cfg, db, {}) && HonestClock(db) && AllInStep(cfg, db)
    requires Allowed(cfg, db, step) && Completes(cfg, db, step)
    ensures AllInStep(cfg, Next(cfg, db, step))
  {
    match step
    case Edit(p, f) => SameRows(cfg, db, Next(cfg, db, step));
    case Remove(p) => SameRows(cfg, db, Next(cfg, db, step));
    case Index(p, found, n) =>
      IndexFileIsAllCommits(cfg, db, p, found, n);
      if p in db.disk {
        IndexStaysInStep(cfg, db, p, found);
      }
    case Unbind(p) => UnbindStaysInStep(cfg, db, p);
    case PurgePath(p, n) => PurgeStaysInStep(cfg, db, p);
  }

  lemma SameRows(cfg: Config, db: Db, db': Db)
    requires AllInStep(cfg, db) && db' == db.(disk := db'.disk)
    ensures AllInStep(cfg, db')
  {
    forall p
      ensures InStep(cfg, db', p)
    {
      assert InStep(cfg, db, p);
    }
  }

  lemma {:induction false} RunsStayInStep(cfg: Config, db: Db, steps: seq<Step>)
    requires Inv(cfg, db, {}) && HonestClock(db) && AllInStep(cfg, db)
    requires Allows(cfg, db, steps) && AllComplete(cfg, db, steps)
    ensures AllInStep(cfg, RunSteps(cfg, db, steps))
    decreases |steps|
  {
    if steps == [] {
    } else {
      StepKeepsInv(cfg, db, {}, steps[0]);
      CompleteStepTearsNothing(cfg, db, steps[0]);
      StepStaysInStep(cfg, db, steps[0]);
      RunsStayInStep(cfg, Next(cfg, db, steps[0]), steps[1..]);
    }
  }

  /**
   * Over every run without crashes: the rows of each path with chunks agree, its binding, active or not,
   * with its document, and its metadata fingerprint with the document's metadata.
   */
  lemma ReachableRowsAgree(cfg: Config, db: Db, steps: seq<Step>, p: Path)
    requires Empty(db) && Allows(cfg, db, steps) && AllComplete(cfg, db, steps)
    ensures InStep(cfg, RunSteps(cfg, db, steps), p)
  {
    EmptyInv(cfg, db);
    forall q
      ensures InStep(cfg, db, q)
    {
      assert RefsOf(NO_TABLES, q) == {};
    }
    RunsStayInStep(cfg, db, steps);
  }

  // ---- at every commit ----

  /** The metadata fingerprint has not moved on, its stat aside. */
  predicate SameMeta(before: Option<Print<string>>, after: Option<Print<string>>) {
    if before.None? then after.None? else after.Some? && after.value.sum == before.value.sum
  }

  /**
   * Wherever `index_file` dies, a metadata fingerprint that has moved on finds the document, the binding and
   * the chunk fingerprint current: new metadata is never taken as stored before it is.
   */
  lemma MetaPrintComesLast(cfg: Config, db: Db, p: Path, found: Option<Path>, n: nat)
    requires p in db.disk && HonestAt(db.chunkPrints, p, BodyStat(db.disk[p]))
    ensures
      var after := RowsAt(StateAfter(db, Commits(cfg, db, p, found), n), p);
      SameMeta(RowsAt(db, p).metaPrint, after.metaPrint) || after == Current(db.disk[p])
  {
    var f := db.disk[p];
    if n == 0 {
    } else if Rebinds(cfg, db, found) {
      RebindMetaLast(cfg, db, p, found, n);
    } else if TwoStage(db.chunkPrints, p, BodyStat(f)) != Unchanged {
      var i := StateInConcat(db, [], RechunkCommits(cfg, db, p, f), n);
      RechunkMetaLast(cfg, db, p, f, i);
    } else {
      var i := StateInConcat(db, [], RefreshCommits(cfg, db, p, f), n);
      RefreshMetaLast(cfg, db, p, f, i);
    }
  }

  lemma RebindMetaLast(cfg: Config, db: Db, p: Path, found: Option<Path>, n: nat)
    requires p in db.disk && Rebinds(cfg, db, found) && n > 0
    ensures
      var after := RowsAt(StateAfter(db, Commits(cfg, db, p, found), n), p);
      SameMeta(RowsAt(db, p).metaPrint, after.metaPrint) || after == Current(db.disk[p])
  {
    var f, bound := db.disk[p], Bound(cfg, db, Attached(cfg, db, p, found.value), p, db.disk[p], true, true);
    CommitsOfRebind(cfg, db, p, found);
    if n > 3 {
      var i := StateInConcat(db, RebindCommits(cfg, db, p, f, found), RefreshCommits(cfg, bound, p, f), n);
      RefreshOfCurrent(cfg, bound, p, f, i);
    }
  }

  lemma RechunkMetaLast(cfg: Config, db: Db, p: Path, f: File, i: nat)
    requires i < |RechunkCommits(cfg, db, p, f)|
    ensures
      var after := RowsAt(RechunkCommits(cfg, db, p, f)[i], p);
      SameMeta(RowsAt(db, p).metaPrint, after.metaPrint) || after == Current(f)
  {
  }

  lemma RefreshMetaLast(cfg: Config, db: Db, p: Path, f: File, i: nat)
    requires i < |RefreshCommits(cfg, db, p, f)| && p in db.chunkPrints && db.chunkPrints[p].sum == f.sum
    ensures
      var after := RowsAt(RefreshCommits(cfg, db, p, f)[i], p);
      SameMeta(RowsAt(db, p).metaPrint, after.metaPrint) || after == Current(f)
  {
  }

  lemma RefreshOfCurrent(cfg: Config, db: Db, p: Path, f: File, i: nat)
    requires i < |RefreshCommits(cfg, db, p, f)| && RowsAt(db, p) == Current(f)
    ensures RowsAt(RefreshCommits(cfg, db, p, f)[i], p) == Current(f)
  {
  }

  // ---- unbinding and indexing again ----

  /**
   * A file that is unbound and indexed again unchanged is taken back as it was: the same chunks, the same
   * rows, the binding active again.
   */
  lemma UnboundFileIsTakenBack(cfg: Config, db: Db, p: Path)
    requires Inv(cfg, db, {}) && HonestClock(db) && p in db.disk && RefsOf(Active(cfg, db), p) != {}
    requires RowsAt(db, p) == Current(db.disk[p])
    ensures
      var unbound := Deactivate(db, p);
      && Candidate(unbound, p, db.disk[p], Some(p))
      && RowsAt(IndexFile(cfg, unbound, p, Some(p)), p) == RowsAt(db, p)
      && Active(cfg, IndexFile(cfg, unbound, p, Some(p))) == Active(cfg, db)
  {
    var f, unbound, t := db.disk[p], Deactivate(db, p), Active(cfg, db);
    RowsAfterUnbind(db, p);
    assert unbound.bindings[p] == Binding(false, Some(f.sum), Some(f.meta));
    AttachAgain(t, p);
    ActiveIsConsistent(cfg, db, {});
    assert Active(cfg, unbound) == t;
    assert HonestFile(unbound, p, f);
    RowsAfterIndex(cfg, unbound, p, Some(p));
    AttachAgain(t, p);
  }

  /** Attaching the refs a path has already changes nothing. */
  lemma AttachAgain(t: Tables, p: Path)
    ensures Consistent(t) ==> Attach(t, map[], RefsOf(t, p), p) == t
  {
    if Consistent(t) {
      var t' := Attach(t, map[], RefsOf(t, p), p);
      assert map[] + t.chunks == t.chunks;
      forall h | h in HoldersFor(RefsOf(t, p), p)
        ensures h in t.holders
      {
      }
      assert t'.holders == t.holders;
      forall r | r in ProvenanceFor(RefsOf(t, p), p)
        ensures r in t.provenance
      {
        assert p in PathsOf(t, r.0);
        assert (r.0, p) in t.provenance;
      }
      assert t'.provenance == t.provenance;
    }
  }
}
