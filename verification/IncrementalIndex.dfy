/** The filesystem index: re-chunking, rebinding, deactivating and purging, against chunking from scratch. */
module IncrementalIndex {
  import opened FileTracking
  import opened ChunkTables
  import opened Wrappers

  /** A file on disk: its stat, the part that decides its chunks and the title-and-tags part. */
  datatype File = File(mtime: int, size: nat, sum: BodySum, meta: string)

  /** `source_documents`. */
  datatype Doc = Doc(content: BodySum, meta: string)

  /** `resource_bindings`; a binding deactivated without a known document has no fingerprints. */
  datatype Binding = Binding(active: bool, content: Option<BodySum>, meta: Option<string>)

  /** Everything the index stores about the filesystem, and the disk it watches. */
  datatype Db = Db(
    disk: map<Path, File>,
    chunkPrints: map<Path, Print<BodySum>>,
    metaPrints: map<Path, Print<string>>,
    docs: map<Path, Doc>,
    bindings: map<Path, Binding>,
    tables: map<string, Tables>)

  /** The active strategy and what the chunker makes of a body. */
  datatype Config = Config(strategy: string, chunk: BodySum -> seq<ChunkBody>)

  function BodyStat(f: File): Stat<BodySum> {
    Stat(f.mtime, f.size, f.sum)
  }

  function MetaStat(f: File): Stat<string> {
    Stat(f.mtime, f.size, f.meta)
  }

  function Active(cfg: Config, db: Db): Tables {
    if cfg.strategy in db.tables then db.tables[cfg.strategy] else NO_TABLES
  }

  /** The refs chunking a body from scratch gives. */
  function Scratch(cfg: Config, sum: BodySum): set<Ref> {
    ChunkRefs(sum, cfg.strategy, |cfg.chunk(sum)|)
  }

  // ---- the operations ----

  /** `_holder_aware_chunk_cleanup` over every strategy present. */
  function Clean(db: Db, p: Path): Db {
    db.(docs := db.docs - {p}, tables := map s | s in db.tables :: CleanTables(db.tables[s], p))
  }

  /** `_purge_file`, local branch. */
  function Purge(db: Db, p: Path): Db {
    Clean(db, p).(chunkPrints := db.chunkPrints - {p}, metaPrints := db.metaPrints - {p})
  }

  /** `_deactivate_filesystem_binding`. */
  function Deactivate(db: Db, p: Path): Db {
    var content :=
      if p in db.docs then Some(db.docs[p].content)
      else if p in db.bindings then db.bindings[p].content else None;
    var meta :=
      if p in db.docs then Some(db.docs[p].meta)
      else if p in db.bindings then db.bindings[p].meta else None;
    db.(bindings := db.bindings[p := Binding(false, content, meta)])
  }

  /** The retained binding a rebind may use: the path's own, else some inactive one with these fingerprints. */
  predicate Matches(b: Binding, f: File) {
    !b.active && b.content == Some(f.sum) && b.meta == Some(f.meta)
  }

  ghost predicate Candidate(db: Db, p: Path, f: File, found: Option<Path>) {
    if p in db.bindings then found == (if Matches(db.bindings[p], f) then Some(p) else None)
    else match found
      case Some(q) => q in db.bindings && Matches(db.bindings[q], f)
      case None => forall q | q in db.bindings :: !Matches(db.bindings[q], f)
  }

  function SavePrints(db: Db, p: Path, f: File): Db {
    db.(chunkPrints := db.chunkPrints[p := Print(f.mtime, f.size, f.sum)],
        metaPrints := db.metaPrints[p := Print(f.mtime, f.size, f.meta)])
  }

  function UpsertActive(db: Db, p: Path, f: File): Db {
    db.(docs := db.docs[p := Doc(f.sum, f.meta)],
        bindings := db.bindings[p := Binding(true, Some(f.sum), Some(f.meta))])
  }

  /** `_rebind_retained_filesystem_document`, given the binding its lookup found. */
  function Rebind(cfg: Config, db: Db, p: Path, f: File, found: Option<Path>): Db {
    if found.None? then db
    else
      var refs := RefsOf(Active(cfg, db), found.value);
      if refs == {} then db
      else
        var t := Attach(Active(cfg, db), map[], refs, p);
        SavePrints(UpsertActive(db.(tables := db.tables[cfg.strategy := t]), p, f), p, f)
  }

  /** Re-chunking and saving a changed file. */
  function Rechunk(cfg: Config, db: Db, p: Path, f: File): Db {
    var clean := Clean(db, p);
    var bodies := cfg.chunk(f.sum);
    if bodies == [] then clean.(chunkPrints := db.chunkPrints[p := Print(f.mtime, f.size, f.sum)])
    else
      var t := SaveFirst(Active(cfg, clean), f.sum, cfg.strategy, bodies, p, |bodies|);
      SavePrints(UpsertActive(clean.(tables := clean.tables[cfg.strategy := t]), p, f), p, f)
  }

  /** The metadata-only branch: nothing happens for a file without chunks. */
  function RefreshMeta(cfg: Config, db: Db, p: Path, f: File): Db {
    var seen := db.(metaPrints := Refreshed(db.metaPrints, p, MetaStat(f)));
    if TwoStage(db.metaPrints, p, MetaStat(f)) == Unchanged || RefsOf(Active(cfg, db), p) == {} then seen
    else UpsertActive(seen, p, f).(metaPrints := seen.metaPrints[p := Print(f.mtime, f.size, f.meta)])
  }

  /** `index_file`. */
  function IndexFile(cfg: Config, db: Db, p: Path, found: Option<Path>): Db {
    if p !in db.disk then db
    else
      var f := db.disk[p];
      var bound := Rebind(cfg, db, p, f, found);
      if TwoStage(bound.chunkPrints, p, BodyStat(f)) != Unchanged then Rechunk(cfg, bound, p, f)
      else RefreshMeta(cfg, bound.(chunkPrints := Refreshed(bound.chunkPrints, p, BodyStat(f))), p, f)
  }

  // ---- the invariant ----

  /** What every reachable index keeps, except at the paths an operation has torn. */
  ghost predicate Inv(cfg: Config, db: Db, torn: set<Path>) {
    && (forall s | s in db.tables :: Consistent(db.tables[s]))
    && RowsAreChunks(cfg, Active(cfg, db))
    && forall p | p !in torn :: PathInv(cfg, db, p)
  }

  /** Stored chunk rows are what the chunker gives for their id. */
  ghost predicate RowsAreChunks(cfg: Config, t: Tables) {
    forall c | c in t.chunks ::
      c.strategy == cfg.strategy && c.index < |cfg.chunk(c.sum)| && t.chunks[c] == cfg.chunk(c.sum)[c.index]
  }

  function Lookup<T>(m: map<Path, T>, p: Path): Option<T> {
    if p in m then Some(m[p]) else None
  }

  /**
   * A stored fingerprint names exactly the refs the path has; a path with refs has its document and
   * binding; and what an inactive binding retains is what its fingerprint says.
   */
  ghost predicate PathOk(
    cfg: Config, refs: set<Ref>, stored: Option<Print<BodySum>>, doc: Option<Doc>, binding: Option<Binding>) {
    && (stored.Some? ==> refs == Scratch(cfg, stored.value.sum))
    && (refs != {} ==> doc.Some? && binding.Some? && refs == Scratch(cfg, doc.value.content))
    && (refs != {} && !binding.value.active ==>
          binding.value.content.Some? && refs == Scratch(cfg, binding.value.content.value))
  }

  ghost predicate PathInv(cfg: Config, db: Db, p: Path) {
    PathOk(cfg, RefsOf(Active(cfg, db), p),
           Lookup(db.chunkPrints, p), Lookup(db.docs, p), Lookup(db.bindings, p))
  }

  ghost predicate HonestClock(db: Db) {
    forall p | p in db.disk :: HonestAt(db.chunkPrints, p, BodyStat(db.disk[p]))
  }

  /** Nothing but path p may differ in the per-path tables. */
  ghost predicate SameElsewhere(db: Db, db': Db, p: Path) {
    forall q | q != p ::
      && Lookup(db'.chunkPrints, q) == Lookup(db.chunkPrints, q)
      && Lookup(db'.docs, q) == Lookup(db.docs, q)
      && Lookup(db'.bindings, q) == Lookup(db.bindings, q)
  }

  /** Sound tables that differ from those of db in the refs of p alone. */
  ghost predicate TablesFor(cfg: Config, db: Db, t: Tables, p: Path, refs: set<Ref>) {
    && Consistent(t) && RowsAreChunks(cfg, t) && RefsOf(t, p) == refs
    && forall q | q != p :: RefsOf(t, q) == RefsOf(Active(cfg, db), q)
  }

  /** To keep the invariant, an operation on p need only be right about p and leave the others alone. */
  lemma OnePathChanged(cfg: Config, db: Db, db': Db, p: Path, torn: set<Path>, torn': set<Path>)
    requires Inv(cfg, db, torn) && SameElsewhere(db, db', p)
    requires forall s | s in db'.tables :: Consistent(db'.tables[s])
    requires RowsAreChunks(cfg, Active(cfg, db'))
    requires forall q | q != p :: RefsOf(Active(cfg, db'), q) == RefsOf(Active(cfg, db), q)
    requires torn - {p} <= torn' && (p in torn' || PathInv(cfg, db', p))
    ensures Inv(cfg, db', torn')
  {
    forall q | q !in torn'
      ensures PathInv(cfg, db', q)
    {
      assert q != p ==> PathInv(cfg, db, q);
    }
  }

  /** The same when the active strategy's tables are replaced. */
  lemma TablesChanged(cfg: Config, db: Db, db': Db, t: Tables, p: Path, torn: set<Path>, torn': set<Path>)
    requires Inv(cfg, db, torn) && SameElsewhere(db, db', p) && TablesFor(cfg, db, t, p, RefsOf(t, p))
    requires forall s | s in db'.tables && s != cfg.strategy :: Consistent(db'.tables[s])
    requires Active(cfg, db') == t
    requires torn - {p} <= torn' && (p in torn' || PathInv(cfg, db', p))
    ensures Inv(cfg, db', torn')
  {
    OnePathChanged(cfg, db, db', p, torn, torn');
  }

  /** Cleaning one path empties its refs and leaves every other path as it was. */
  lemma CleanMeaning(cfg: Config, db: Db, p: Path, torn: set<Path>)
    requires Inv(cfg, db, torn)
    ensures
      var clean := Clean(db, p);
      && (forall s | s in clean.tables :: Consistent(clean.tables[s]))
      && TablesFor(cfg, db, Active(cfg, clean), p, {})
      && SameElsewhere(db, clean, p)
  {
    var clean := Clean(db, p);
    forall s | s in clean.tables
      ensures Consistent(clean.tables[s])
    {
      CleaningIsSafe(db.tables[s], p);
    }
    ActiveIsConsistent(cfg, db, torn);
    CleanActive(cfg, db, p);
    CleaningIsSafe(Active(cfg, db), p);
  }

  lemma CleanActive(cfg: Config, db: Db, p: Path)
    ensures Active(cfg, Clean(db, p)) == CleanTables(Active(cfg, db), p)
  {
    if cfg.strategy !in db.tables {
      assert CleanTables(NO_TABLES, p) == NO_TABLES;
    }
  }

  lemma ActiveIsConsistent(cfg: Config, db: Db, torn: set<Path>)
    requires Inv(cfg, db, torn)
    ensures Consistent(Active(cfg, db))
  {
  }

  lemma CleanTears(cfg: Config, db: Db, p: Path, torn: set<Path>)
    requires Inv(cfg, db, torn)
    ensures Inv(cfg, Clean(db, p), torn + {p})
  {
    CleanMeaning(cfg, db, p, torn);
    OnePathChanged(cfg, db, Clean(db, p), p, torn, torn + {p});
  }

  /** A purged path is sound again, whatever was wrong with it. */
  lemma PurgeKeepsInv(cfg: Config, db: Db, p: Path, torn: set<Path>)
    requires Inv(cfg, db, torn)
    ensures Inv(cfg, Purge(db, p), torn - {p})
  {
    CleanMeaning(cfg, db, p, torn);
    OnePathChanged(cfg, db, Purge(db, p), p, torn, torn - {p});
  }

  /** A purge takes the path's refs away in every strategy, and no other path's in any. */
  lemma PurgeCleansEveryStrategy(cfg: Config, db: Db, p: Path, torn: set<Path>, s: string)
    requires Inv(cfg, db, torn) && s in db.tables
    ensures
      var before, after := db.tables[s], Purge(db, p).tables;
      && s in after && RefsOf(after[s], p) == {}
      && (forall q | q != p :: RefsOf(after[s], q) == RefsOf(before, q))
      && (forall c :: c in after[s].chunks <==> c in before.chunks && PathsOf(before, c) != {p})
  {
    CleaningIsSafe(db.tables[s], p);
  }

  /** Deactivating a binding retains every derived row and keeps the invariant. */
  lemma DeactivateKeepsInv(cfg: Config, db: Db, p: Path, torn: set<Path>)
    requires Inv(cfg, db, torn)
    ensures
      var db' := Deactivate(db, p);
      && Inv(cfg, db', torn)
      && (forall q :: RefsOf(Active(cfg, db'), q) == RefsOf(Active(cfg, db), q))
      && db' == db.(bindings := db'.bindings) && p in db'.bindings && !db'.bindings[p].active
  {
    assert p !in torn ==> PathInv(cfg, db, p);
    OnePathChanged(cfg, db, Deactivate(db, p), p, torn, torn);
  }

  // ---- rebinding ----

  lemma RefsAreStored(t: Tables, p: Path)
    requires Consistent(t)
    ensures forall r | r in RefsOf(t, p) :: r.0 in t.chunks
  {
    forall r | r in RefsOf(t, p)
      ensures r.0 in t.chunks
    {
      var h :| h in t.holders && h.path == p && (h.chunk, h.index) == r;
      assert p in PathsOf(t, r.0);
    }
  }

  /** The tables once the refs of q are attached to p. */
  function Attached(cfg: Config, db: Db, p: Path, q: Path): Tables {
    Attach(Active(cfg, db), map[], RefsOf(Active(cfg, db), q), p)
  }

  lemma AttachedMeaning(cfg: Config, db: Db, p: Path, q: Path, torn: set<Path>)
    requires Inv(cfg, db, torn)
    ensures
      var t := Active(cfg, db);
      TablesFor(cfg, db, Attached(cfg, db, p, q), p, RefsOf(t, p) + RefsOf(t, q))
      && Attached(cfg, db, p, q).chunks == t.chunks
  {
    ActiveIsConsistent(cfg, db, torn);
    AttachStored(Active(cfg, db), p, q);
  }

  lemma AttachStored(t: Tables, p: Path, q: Path)
    requires Consistent(t)
    ensures
      var t' := Attach(t, map[], RefsOf(t, q), p);
      && Consistent(t') && t'.chunks == t.chunks && RefsOf(t', p) == RefsOf(t, p) + RefsOf(t, q)
      && (forall r | r != p :: RefsOf(t', r) == RefsOf(t, r))
  {
    RefsAreStored(t, q);
    AttachMeaning(t, map[], RefsOf(t, q), p);
  }

  /** What a sound retained binding holds is what the new content chunks to, and a sound path had no more. */
  lemma RetainedRefs(cfg: Config, db: Db, p: Path, f: File, q: Path, torn: set<Path>)
    requires Inv(cfg, db, torn) && Candidate(db, p, f, Some(q)) && RefsOf(Active(cfg, db), q) != {}
    requires p !in torn && q !in torn
    ensures
      var t := Active(cfg, db);
      && RefsOf(t, q) == Scratch(cfg, f.sum) == RefsOf(t, p) + RefsOf(t, q)
      && (p !in db.bindings ==> RefsOf(t, p) == {})
  {
    assert PathInv(cfg, db, q) && PathInv(cfg, db, p);
    if p !in db.bindings {
      assert RefsOf(Active(cfg, db), p) == {};
    }
  }

  // ---- re-chunking ----

  /** Rows saved from the chunker's output keep the stored rows right. */
  lemma SavedRowsAreChunks(cfg: Config, t: Tables, sum: BodySum, p: Path)
    requires RowsAreChunks(cfg, t)
    ensures RowsAreChunks(cfg, SaveFirst(t, sum, cfg.strategy, cfg.chunk(sum), p, |cfg.chunk(sum)|))
  {
  }

  lemma SavedTables(cfg: Config, t: Tables, sum: BodySum, p: Path)
    requires Consistent(t) && RowsAreChunks(cfg, t) && RefsOf(t, p) == {}
    ensures
      var t' := SaveFirst(t, sum, cfg.strategy, cfg.chunk(sum), p, |cfg.chunk(sum)|);
      && Consistent(t') && RowsAreChunks(cfg, t') && RefsOf(t', p) == Scratch(cfg, sum)
      && (forall q | q != p :: RefsOf(t', q) == RefsOf(t, q))
  {
    SavingMeaning(t, sum, cfg.strategy, cfg.chunk(sum), p);
    SavedRowsAreChunks(cfg, t, sum, p);
    assert {} + Scratch(cfg, sum) == Scratch(cfg, sum);
  }

  /** The tables once p is cleaned and re-chunked. */
  function Rechunked(cfg: Config, db: Db, p: Path, sum: BodySum): Tables {
    SaveFirst(Active(cfg, Clean(db, p)), sum, cfg.strategy, cfg.chunk(sum), p, |cfg.chunk(sum)|)
  }

  lemma RechunkedMeaning(cfg: Config, db: Db, p: Path, sum: BodySum, torn: set<Path>)
    requires Inv(cfg, db, torn)
    ensures TablesFor(cfg, db, Rechunked(cfg, db, p, sum), p, Scratch(cfg, sum))
    ensures cfg.chunk(sum) == [] ==> Scratch(cfg, sum) == {}
  {
    CleanMeaning(cfg, db, p, torn);
    SavedTables(cfg, Active(cfg, Clean(db, p)), sum, p);
    OneMoreRef(sum, cfg.strategy, 0);
  }

  // ---- rebinding is re-chunking ----

  /**
   * Rebinding a moved file is re-chunking it: chunk ids ignore the path, so when a retained binding
   * matches, attaching its refs leaves the very tables that cleaning and saving the file would leave.
   */
  lemma RebindEqualsRechunk(cfg: Config, db: Db, p: Path, f: File, q: Path, torn: set<Path>)
    requires Inv(cfg, db, torn) && Candidate(db, p, f, Some(q)) && p !in torn && q !in torn
    requires p !in db.bindings && RefsOf(Active(cfg, db), q) != {}
    ensures Active(cfg, Rebind(cfg, db, p, f, Some(q))) == Active(cfg, Rechunk(cfg, db, p, f))
  {
    RetainedRefs(cfg, db, p, f, q, torn);
    ActiveIsConsistent(cfg, db, torn);
    CleanActive(cfg, db, p);
    OneMoreRef(f.sum, cfg.strategy, 0);
    AttachingIsSaving(cfg, Active(cfg, db), f.sum, p, q);
  }

  lemma AttachingIsSaving(cfg: Config, t: Tables, sum: BodySum, p: Path, q: Path)
    requires Consistent(t) && RowsAreChunks(cfg, t) && RefsOf(t, p) == {} && RefsOf(t, q) == Scratch(cfg, sum)
    ensures SaveFirst(CleanTables(t, p), sum, cfg.strategy, cfg.chunk(sum), p, |cfg.chunk(sum)|)
         == Attach(t, map[], RefsOf(t, q), p)
  {
    NothingToClean(t, p);
    RefsAreStored(t, q);
    StoredRowsAreThere(cfg, t, sum);
  }

  lemma StoredRowsAreThere(cfg: Config, t: Tables, sum: BodySum)
    requires RowsAreChunks(cfg, t) && forall r | r in Scratch(cfg, sum) :: r.0 in t.chunks
    ensures ChunkRows(sum, cfg.strategy, cfg.chunk(sum), |cfg.chunk(sum)|) + t.chunks == t.chunks
  {
    var bodies := cfg.chunk(sum);
    var rows := ChunkRows(sum, cfg.strategy, bodies, |bodies|);
    forall c | c in rows
      ensures c in t.chunks
    {
      var i :| 0 <= i < |bodies| && c == ChunkId(sum, i, cfg.strategy);
      assert (c, i) in Scratch(cfg, sum);
    }
  }

  lemma NothingToClean(t: Tables, p: Path)
    requires Consistent(t) && RefsOf(t, p) == {}
    ensures CleanTables(t, p) == t
  {
    assert forall h | h in t.holders :: h.path == p ==> (h.chunk, h.index) in RefsOf(t, p);
    assert HeldBy(t, p) == {};
    forall r | r in t.provenance
      ensures r.1 != p
    {
      assert (r.0, r.1) in t.provenance;
      assert r.1 in PathsOf(t, r.0);
    }
  }
}
