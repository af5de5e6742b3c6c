/** Chunks shared between files: the many-to-many holder table, its provenance rows and the cascade. */
module ChunkTables {
  import opened FileTracking

  /** The checksum of a file's kind and body; the hash is injective, so the pair stands for it. */
  datatype BodySum = BodySum(kind: string, body: string)

  /** `_make_chunk_id`: body checksum, position and strategy; the path is no part of it. */
  datatype ChunkId = ChunkId(sum: BodySum, index: nat, strategy: string)

  datatype ChunkBody = ChunkBody(headings: seq<string>, level: nat, text: string)

  datatype Holder = Holder(chunk: ChunkId, path: Path, index: nat)

  /** The tables of one strategy: `chunks_*`, `chunk_file_paths_*` and the filesystem provenance rows. */
  datatype Tables = Tables(chunks: map<ChunkId, ChunkBody>, holders: set<Holder>, provenance: set<(ChunkId, Path)>)

  const NO_TABLES := Tables(map[], {}, {})

  type Ref = (ChunkId, nat)

  /** `get_chunk_refs_by_file`. */
  function RefsOf(t: Tables, p: Path): set<Ref> {
    set h | h in t.holders && h.path == p :: (h.chunk, h.index)
  }

  function HeldBy(t: Tables, p: Path): set<ChunkId> {
    set h | h in t.holders && h.path == p :: h.chunk
  }

  /** `get_file_paths_by_chunk_id`. */
  function PathsOf(t: Tables, c: ChunkId): set<Path> {
    set h | h in t.holders && h.chunk == c :: h.path
  }

  /** Chunks exist exactly while some file holds them, and holders and provenance rows match. */
  ghost predicate Consistent(t: Tables) {
    && (forall c :: c in t.chunks <==> PathsOf(t, c) != {})
    && (forall c, p :: (c, p) in t.provenance <==> p in PathsOf(t, c))
  }

  // ---- cleaning one file ----

  /** `delete_m2m_for_file`: the chunks that no other file holds. */
  function Orphans(t: Tables, p: Path): set<ChunkId> {
    var left := set h | h in t.holders && h.path != p;
    var stillHeld := set h | h in left :: h.chunk;
    HeldBy(t, p) - stillHeld
  }

  /** One strategy's part of `_holder_aware_chunk_cleanup`. */
  function CleanTables(t: Tables, p: Path): Tables {
    var orphans := Orphans(t, p);
    Tables(t.chunks - orphans,
           set h | h in t.holders && h.path != p,
           set r | r in t.provenance && r.1 != p && r.0 !in orphans)
  }

  lemma OrphansAreHeldAlone(t: Tables, p: Path, c: ChunkId)
    ensures c in Orphans(t, p) <==> PathsOf(t, c) == {p}
  {
    if c in Orphans(t, p) {
      assert forall h | h in t.holders && h.chunk == c :: h.path == p;
    }
    if PathsOf(t, c) == {p} {
      assert p in PathsOf(t, c);
      forall h | h in t.holders && h.chunk == c
        ensures h.path == p
      {
        assert h.path in PathsOf(t, c);
      }
    }
  }

  /**
   * Cleaning a file deletes exactly the chunks it alone held, takes away its own refs and leaves those
   * of every other file, and keeps the tables consistent.
   */
  lemma CleaningIsSafe(t: Tables, p: Path)
    requires Consistent(t)
    ensures
      var t' := CleanTables(t, p);
      && Consistent(t')
      && (forall c :: c in t'.chunks <==> c in t.chunks && PathsOf(t, c) != {p})
      && RefsOf(t', p) == {}
      && (forall q | q != p :: RefsOf(t', q) == RefsOf(t, q))
  {
    var t' := CleanTables(t, p);
    forall c
      ensures PathsOf(t', c) == PathsOf(t, c) - {p}
      ensures c in t'.chunks <==> c in t.chunks && PathsOf(t, c) != {p}
    {
      OrphansAreHeldAlone(t, p, c);
    }
    forall q | q != p
      ensures RefsOf(t', q) == RefsOf(t, q)
    {
    }
    forall c, q
      ensures (c, q) in t'.provenance <==> q in PathsOf(t', c)
    {
      OrphansAreHeldAlone(t, p, c);
    }
  }

  /** The chunks a Surreal tombstone manifest names: those of the file with at most one distinct holder. */
  function TombstonedOrphans(t: Tables, p: Path): set<ChunkId> {
    set c | c in HeldBy(t, p) && |PathsOf(t, c)| <= 1
  }

  /** The orphans named remotely are exactly those the local cascade deletes, whatever the tables hold. */
  lemma TombstonesMatchCascade(t: Tables, p: Path)
    ensures TombstonedOrphans(t, p) == Orphans(t, p)
  {
    forall c
      ensures c in TombstonedOrphans(t, p) <==> c in Orphans(t, p)
    {
      OrphansAreHeldAlone(t, p, c);
      var paths := PathsOf(t, c);
      if c in HeldBy(t, p) {
        assert p in paths;
        assert paths == {p} <==> |paths| <= 1 by {
          if |paths| <= 1 {
            assert |paths - {p}| == 0;
            assert paths == {p} + (paths - {p});
          }
        }
      } else {
        assert p !in paths;
      }
    }
  }

  // ---- adding chunks ----

  /** Insert-or-ignore one chunk with its holder and provenance rows. */
  function AddChunk(t: Tables, c: ChunkId, body: ChunkBody, p: Path, index: nat): Tables {
    Tables(if c in t.chunks then t.chunks else t.chunks[c := body],
           t.holders + {Holder(c, p, index)}, t.provenance + {(c, p)})
  }

  function HoldersFor(refs: set<Ref>, p: Path): set<Holder> {
    set r | r in refs :: Holder(r.0, p, r.1)
  }

  function ProvenanceFor(refs: set<Ref>, p: Path): set<(ChunkId, Path)> {
    set r | r in refs :: (r.0, p)
  }

  /** Add missing chunks, and holder and provenance rows of a path for some refs. */
  function Attach(t: Tables, bodies: map<ChunkId, ChunkBody>, refs: set<Ref>, p: Path): Tables {
    Tables(bodies + t.chunks, t.holders + HoldersFor(refs, p), t.provenance + ProvenanceFor(refs, p))
  }

  /** The refs chunking a body gives. */
  function ChunkRefs(sum: BodySum, strategy: string, n: nat): set<Ref> {
    set i | 0 <= i < n :: (ChunkId(sum, i, strategy), i)
  }

  function ChunkIds(sum: BodySum, strategy: string, n: nat): set<ChunkId> {
    set i | 0 <= i < n :: ChunkId(sum, i, strategy)
  }

  function ChunkRows(sum: BodySum, strategy: string, bodies: seq<ChunkBody>, n: nat): map<ChunkId, ChunkBody>
    requires n <= |bodies|
  {
    map c | c in ChunkIds(sum, strategy, n) :: bodies[c.index]
  }

  /** Saving the first n chunks of a file. */
  function SaveFirst(t: Tables, sum: BodySum, strategy: string, bodies: seq<ChunkBody>, p: Path, n: nat): Tables
    requires n <= |bodies|
  {
    Attach(t, ChunkRows(sum, strategy, bodies, n), ChunkRefs(sum, strategy, n), p)
  }

  lemma OneMoreRef(sum: BodySum, strategy: string, n: nat)
    ensures ChunkRefs(sum, strategy, n + 1) == ChunkRefs(sum, strategy, n) + {(ChunkId(sum, n, strategy), n)}
    ensures ChunkIds(sum, strategy, n + 1) == ChunkIds(sum, strategy, n) + {ChunkId(sum, n, strategy)}
    ensures ChunkRefs(sum, strategy, 0) == {} && ChunkIds(sum, strategy, 0) == {}
  {
  }

  lemma OneMoreRow(sum: BodySum, strategy: string, bodies: seq<ChunkBody>, n: nat)
    requires n < |bodies|
    ensures ChunkRows(sum, strategy, bodies, n + 1) ==
            ChunkRows(sum, strategy, bodies, n)[ChunkId(sum, n, strategy) := bodies[n]]
  {
    OneMoreRef(sum, strategy, n);
  }

  lemma AttachOneMore(
    t: Tables, rows: map<ChunkId, ChunkBody>, refs: set<Ref>, c: ChunkId, body: ChunkBody, index: nat, p: Path)
    ensures Attach(t, rows[c := body], refs + {(c, index)}, p).holders
         == Attach(t, rows, refs, p).holders + {Holder(c, p, index)}
    ensures Attach(t, rows[c := body], refs + {(c, index)}, p).provenance
         == Attach(t, rows, refs, p).provenance + {(c, p)}
    ensures c !in rows ==>
              (Attach(t, rows[c := body], refs + {(c, index)}, p).chunks
               == AddChunk(Attach(t, rows, refs, p), c, body, p, index).chunks)
  {
    assert HoldersFor(refs + {(c, index)}, p) == HoldersFor(refs, p) + {Holder(c, p, index)};
    assert ProvenanceFor(refs + {(c, index)}, p) == ProvenanceFor(refs, p) + {(c, p)};
  }

  /** The write loop adds one chunk after another. */
  lemma SaveNext(t: Tables, sum: BodySum, strategy: string, bodies: seq<ChunkBody>, p: Path, n: nat)
    requires n < |bodies|
    ensures SaveFirst(t, sum, strategy, bodies, p, n + 1)
         == AddChunk(SaveFirst(t, sum, strategy, bodies, p, n), ChunkId(sum, n, strategy), bodies[n], p, n)
  {
    OneMoreRef(sum, strategy, n);
    OneMoreRow(sum, strategy, bodies, n);
    var c := ChunkId(sum, n, strategy);
    assert c !in ChunkIds(sum, strategy, n);
    AttachOneMore(t, ChunkRows(sum, strategy, bodies, n), ChunkRefs(sum, strategy, n), c, bodies[n], n, p);
  }

  lemma SaveNone(t: Tables, sum: BodySum, strategy: string, bodies: seq<ChunkBody>, p: Path)
    ensures SaveFirst(t, sum, strategy, bodies, p, 0) == t
  {
    OneMoreRef(sum, strategy, 0);
    assert HoldersFor({}, p) == {} && ProvenanceFor({}, p) == {};
    assert ChunkRows(sum, strategy, bodies, 0) == map[];
  }

  /** Attaching gives the path those refs, touches no other path and keeps the tables consistent. */
  lemma AttachMeaning(t: Tables, bodies: map<ChunkId, ChunkBody>, refs: set<Ref>, p: Path)
    requires Consistent(t)
    requires forall r | r in refs :: r.0 in bodies || r.0 in t.chunks
    requires forall c | c in bodies :: exists r :: r in refs && r.0 == c
    ensures
      var t' := Attach(t, bodies, refs, p);
      && Consistent(t')
      && RefsOf(t', p) == RefsOf(t, p) + refs
      && (forall q | q != p :: RefsOf(t', q) == RefsOf(t, q))
  {
    var t' := Attach(t, bodies, refs, p);
    forall q, r
      ensures r in RefsOf(t', q) <==> r in RefsOf(t, q) || (q == p && r in refs)
    {
      if r in RefsOf(t, q) {
        var h :| h in t.holders && h.path == q && (h.chunk, h.index) == r;
        assert h in t'.holders;
      }
      if q == p && r in refs {
        assert Holder(r.0, p, r.1) in t'.holders;
      }
    }
    assert RefsOf(t', p) == RefsOf(t, p) + refs;
    forall q | q != p
      ensures RefsOf(t', q) == RefsOf(t, q)
    {
    }
    AttachKeepsConsistent(t, bodies, refs, p);
  }

  lemma AttachedPaths(t: Tables, bodies: map<ChunkId, ChunkBody>, refs: set<Ref>, p: Path, c: ChunkId, q: Path)
    ensures q in PathsOf(Attach(t, bodies, refs, p), c) <==>
            q in PathsOf(t, c) || (q == p && exists r :: r in refs && r.0 == c)
  {
    var t' := Attach(t, bodies, refs, p);
    if q in PathsOf(t, c) {
      var h :| h in t.holders && h.chunk == c && h.path == q;
      assert h in t'.holders;
    }
    if q == p {
      if r :| r in refs && r.0 == c {
        assert Holder(r.0, p, r.1) in t'.holders;
      }
    }
  }

  lemma AttachKeepsConsistent(t: Tables, bodies: map<ChunkId, ChunkBody>, refs: set<Ref>, p: Path)
    requires Consistent(t)
    requires forall r | r in refs :: r.0 in bodies || r.0 in t.chunks
    requires forall c | c in bodies :: exists r :: r in refs && r.0 == c
    ensures Consistent(Attach(t, bodies, refs, p))
  {
    var t' := Attach(t, bodies, refs, p);
    forall c, q
      ensures (c, q) in t'.provenance <==> q in PathsOf(t', c)
    {
      AttachedPaths(t, bodies, refs, p, c, q);
    }
    forall c
      ensures c in t'.chunks <==> PathsOf(t', c) != {}
    {
      if PathsOf(t', c) != {} {
        var q :| q in PathsOf(t', c);
        AttachedPaths(t, bodies, refs, p, c, q);
      }
      if c in t.chunks {
        var q :| q in PathsOf(t, c);
        AttachedPaths(t, bodies, refs, p, c, q);
      } else if c in bodies {
        AttachedPaths(t, bodies, refs, p, c, p);
      }
    }
  }

  /** Saving a file's chunks gives it exactly their refs on top of what it had. */
  lemma SavingMeaning(t: Tables, sum: BodySum, strategy: string, bodies: seq<ChunkBody>, p: Path)
    requires Consistent(t)
    ensures
      var t' := SaveFirst(t, sum, strategy, bodies, p, |bodies|);
      && Consistent(t')
      && RefsOf(t', p) == RefsOf(t, p) + ChunkRefs(sum, strategy, |bodies|)
      && (forall q | q != p :: RefsOf(t', q) == RefsOf(t, q))
  {
    var rows, refs := ChunkRows(sum, strategy, bodies, |bodies|), ChunkRefs(sum, strategy, |bodies|);
    forall c | c in rows
      ensures exists r :: r in refs && r.0 == c
    {
      var i :| 0 <= i < |bodies| && c == ChunkId(sum, i, strategy);
      assert (c, i) in refs;
    }
    AttachMeaning(t, rows, refs, p);
  }
}
