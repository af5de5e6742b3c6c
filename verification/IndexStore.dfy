/** The indexing pipeline's filesystem operations, changing their tables row by row. */
module IndexStore {
  import opened FileTracking
  import opened ChunkTables
  import opened IncrementalIndex
  import opened Wrappers
  import opened IndexRuns

  lemma DiffOfOne<Sum>(p: Path, stored: map<Path, Print<Sum>>, s: Stat<Sum>, v: Verdict)
    ensures Select([p], stored, map[p := s], v) == if TwoStage(stored, p, s) == v then [p] else []
    ensures RefreshAll([p], stored, stored, map[p := s]) == Refreshed(stored, p, s)
  {
    assert [p][..0] == [];
  }

  /** `tracker.diff([file_info])` and the test whether the path came back as new or modified. */
  method Changed<Sum(==)>(tracker: FileTracker<Sum>, p: Path, s: Stat<Sum>) returns (changed: bool)
    modifies tracker
    ensures changed <==> TwoStage(old(tracker.stored), p, s) != Unchanged
    ensures tracker.stored == Refreshed(old(tracker.stored), p, s)
  {
    ghost var stored := tracker.stored;
    var diff := tracker.Diff([p], map[p := s]);
    DiffOfOne(p, stored, s, New);
    DiffOfOne(p, stored, s, Modified);
    changed := p in diff.added || p in diff.modified;
  }

  class Pipeline {
    const cfg: Config
    const chunkTracker: FileTracker<BodySum>
    const metaTracker: FileTracker<string>
    var docs: map<Path, Doc>
    var bindings: map<Path, Binding>
    var tables: map<string, Tables>

    constructor (cfg: Config)
      ensures this.cfg == cfg && fresh(chunkTracker) && fresh(metaTracker)
      ensures Empty(View(map[])) && View(map[]).disk == map[]
    {
      this.cfg := cfg;
      chunkTracker := new FileTracker<BodySum>();
      metaTracker := new FileTracker<string>();
      docs, bindings, tables := map[], map[], map[];
    }

    /** What is stored, next to the disk it describes. */
    ghost function View(disk: map<Path, File>): Db
      reads this, chunkTracker, metaTracker
    {
      Db(disk, chunkTracker.stored, metaTracker.stored, docs, bindings, tables)
    }

    function ActiveTables(): Tables
      reads this
    {
      if cfg.strategy in tables then tables[cfg.strategy] else NO_TABLES
    }

    /** `_holder_aware_chunk_cleanup`: every strategy with a holder table, one after another. */
    method HolderAwareCleanup(p: Path)
      modifies this
      ensures docs == old(docs) - {p} && bindings == old(bindings)
      ensures tables == map s | s in old(tables) :: CleanTables(old(tables)[s], p)
    {
      docs := docs - {p};
      ghost var before := tables;
      var todo := tables.Keys;
      while todo != {}
        invariant todo <= before.Keys == tables.Keys
        invariant forall s | s in before :: tables[s] == if s in todo then before[s] else CleanTables(before[s], p)
        invariant docs == old(docs) - {p} && bindings == old(bindings)
      {
        var s :| s in todo;
        var t := tables[s];
        // Provenance of the document, holder rows, then the orphans' provenance and chunk rows.
        var orphans := Orphans(t, p);
        var provenance := set r | r in t.provenance && r.1 != p;
        var holders := set h | h in t.holders && h.path != p;
        provenance := set r | r in provenance && r.0 !in orphans;
        tables := tables[s := Tables(t.chunks - orphans, holders, provenance)];
        assert tables[s] == CleanTables(before[s], p);
        todo := todo - {s};
      }
    }

    /** `_purge_file`, local branch: the cascade, then the fingerprints. */
    method PurgeFile(p: Path, ghost disk: map<Path, File>)
      modifies this, chunkTracker, metaTracker
      ensures View(disk) == Purge(old(View(disk)), p)
    {
      HolderAwareCleanup(p);
      chunkTracker.RemoveFingerprint(p);
      metaTracker.RemoveFingerprint(p);
    }

    /** `_deactivate_filesystem_binding`: derived rows are retained. */
    method DeactivateBinding(p: Path, ghost disk: map<Path, File>)
      modifies this
      ensures View(disk) == Deactivate(old(View(disk)), p)
    {
      var content, meta := None, None;
      if p in docs {
        content, meta := Some(docs[p].content), Some(docs[p].meta);
      } else if p in bindings {
        content, meta := bindings[p].content, bindings[p].meta;
      }
      bindings := bindings[p := Binding(false, content, meta)];
    }

    method UpsertDocument(p: Path, f: File)
      modifies this
      ensures docs == old(docs)[p := Doc(f.sum, f.meta)]
      ensures bindings == old(bindings)[p := Binding(true, Some(f.sum), Some(f.meta))]
      ensures tables == old(tables)
    {
      docs := docs[p := Doc(f.sum, f.meta)];
      bindings := bindings[p := Binding(true, Some(f.sum), Some(f.meta))];
    }

    method SaveFingerprints(p: Path, f: File)
      modifies chunkTracker, metaTracker
      ensures chunkTracker.stored == old(chunkTracker.stored)[p := Print(f.mtime, f.size, f.sum)]
      ensures metaTracker.stored == old(metaTracker.stored)[p := Print(f.mtime, f.size, f.meta)]
    {
      chunkTracker.SaveFingerprint(p, Print(f.mtime, f.size, f.sum));
      metaTracker.SaveFingerprint(p, Print(f.mtime, f.size, f.meta));
    }

    /** `_rebind_retained_filesystem_document`, given the binding its lookup found. */
    method RebindRetained(p: Path, f: File, found: Option<Path>, ghost disk: map<Path, File>)
      modifies this, chunkTracker, metaTracker
      ensures View(disk) == Rebind(cfg, old(View(disk)), p, f, found)
    {
      if found.None? { return; }
      var t := ActiveTables();
      var refs := RefsOf(t, found.value);
      if refs == {} { return; }
      var todo, holders, provenance := refs, t.holders, t.provenance;
      while todo != {}
        invariant todo <= refs
        invariant holders == t.holders + HoldersFor(refs - todo, p)
        invariant provenance == t.provenance + ProvenanceFor(refs - todo, p)
        invariant View(disk) == old(View(disk))
      {
        var r :| r in todo;
        OneMoreHolder(refs - todo, r, p);
        assert (refs - todo) + {r} == refs - (todo - {r});
        holders := holders + {Holder(r.0, p, r.1)};
        provenance := provenance + {(r.0, p)};
        todo := todo - {r};
      }
      assert refs - todo == refs;
      ghost var attached := Attach(t, map[], refs, p);
      assert attached.chunks == t.chunks;
      assert attached == Tables(t.chunks, holders, provenance);
      tables := tables[cfg.strategy := Tables(t.chunks, holders, provenance)];
      UpsertDocument(p, f);
      SaveFingerprints(p, f);
    }

    /** The write loop of `index_file`: insert-or-ignore each chunk with its holder and provenance rows. */
    method SaveChunks(p: Path, sum: BodySum, bodies: seq<ChunkBody>)
      modifies this
      ensures docs == old(docs) && bindings == old(bindings)
      ensures tables == old(tables)[cfg.strategy :=
                          SaveFirst(old(ActiveTables()), sum, cfg.strategy, bodies, p, |bodies|)]
    {
      ghost var start := ActiveTables();
      var t := ActiveTables();
      SaveNone(start, sum, cfg.strategy, bodies, p);
      for i := 0 to |bodies|
        invariant t == SaveFirst(start, sum, cfg.strategy, bodies, p, i)
        invariant docs == old(docs) && bindings == old(bindings) && tables == old(tables)
      {
        SaveNext(start, sum, cfg.strategy, bodies, p, i);
        t := AddChunk(t, ChunkId(sum, i, cfg.strategy), bodies[i], p, i);
      }
      tables := tables[cfg.strategy := t];
    }

    /** Phase 1 of `index_file` for a new or modified file, and the embedding phase it always triggers. */
    method RechunkFile(p: Path, f: File, ghost disk: map<Path, File>)
      modifies this, chunkTracker, metaTracker
      ensures View(disk) == Rechunk(cfg, old(View(disk)), p, f)
    {
      HolderAwareCleanup(p);
      var bodies := cfg.chunk(f.sum);
      if bodies == [] {
        chunkTracker.SaveFingerprint(p, Print(f.mtime, f.size, f.sum));
        return;
      }
      SaveChunks(p, f.sum, bodies);
      UpsertDocument(p, f);
      SaveFingerprints(p, f);
    }

    /** Phase 2 of `index_file` when the body is unchanged. */
    method RefreshMetadata(p: Path, f: File, ghost disk: map<Path, File>)
      modifies this, metaTracker
      ensures View(disk) == RefreshMeta(cfg, old(View(disk)), p, f)
    {
      var needsEmbed := Changed(metaTracker, p, MetaStat(f));
      if !needsEmbed || RefsOf(ActiveTables(), p) == {} { return; }
      UpsertDocument(p, f);
      metaTracker.SaveFingerprint(p, Print(f.mtime, f.size, f.meta));
    }

    /** `index_file`. */
    method IndexOne(p: Path, disk: map<Path, File>, found: Option<Path>)
      modifies this, chunkTracker, metaTracker
      ensures View(disk) == IndexFile(cfg, old(View(disk)), p, found)
    {
      if p !in disk { return; }
      var f := disk[p];
      RebindRetained(p, f, found, disk);
      var changed := Changed(chunkTracker, p, BodyStat(f));
      if changed {
        RechunkFile(p, f, disk);
      } else {
        RefreshMetadata(p, f, disk);
      }
    }
  }

  lemma OneMoreHolder(refs: set<Ref>, r: Ref, p: Path)
    ensures HoldersFor(refs + {r}, p) == HoldersFor(refs, p) + {Holder(r.0, p, r.1)}
    ensures ProvenanceFor(refs + {r}, p) == ProvenanceFor(refs, p) + {(r.0, p)}
  {
  }
}
