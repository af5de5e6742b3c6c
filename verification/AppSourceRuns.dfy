/** What runs of application-source batches leave: exactly when each unit keeps its one chunk. */
module AppSourceRuns {
  import opened AppSource
  import opened Wrappers

  // ---- what the store means ----

  /** The unit a provenance row speaks of. */
  function UnitOf(p: Provenance): UnitKey {
    UnitKey(p.doc, p.chunk.unit)
  }

  function ChunksIn(ps: set<Provenance>): set<ChunkId> {
    set p | p in ps :: p.chunk
  }

  predicate Visible(db: Db, k: UnitKey) {
    k in db.units && !db.units[k].hidden
  }

  /** The row belongs to a recorded visible unit and to the chunk of its stored fingerprint. */
  predicate IsOwn(db: Db, p: Provenance) {
    Visible(db, UnitOf(p)) && p.chunk.fingerprint == db.units[UnitOf(p)].fingerprint
  }

  /**
   * The searchable state: each visible unit has exactly one chunk, that of its stored fingerprint, with one
   * provenance row; no other chunk or provenance row exists.
   */
  ghost predicate Indexed(db: Db) {
    && (forall p :: p in db.provenance <==> IsOwn(db, p))
    && db.chunks.Keys == ChunksIn(db.provenance)
  }

  /** The one chunk of a visible unit's stored fingerprint, or none for a hidden unit. */
  function ExpectedChunks(db: Db, k: UnitKey): set<ChunkId>
    requires k in db.units
  {
    if db.units[k].hidden then {} else {ChunkId(k.unit, db.units[k].fingerprint)}
  }

  /** What `Indexed` says unit by unit. */
  lemma UnitChunks(db: Db, k: UnitKey)
    requires Indexed(db) && k in db.units
    ensures ChunksOfUnit(db, k) == ExpectedChunks(db, k) <= db.chunks.Keys
  {
    var own := Provenance(ChunkId(k.unit, db.units[k].fingerprint), k.doc);
    assert own in db.provenance <==> IsOwn(db, own);
    forall p | p in db.provenance && p.doc == k.doc && p.chunk.unit == k.unit
      ensures p == own
    {
      assert IsOwn(db, p);
    }
  }

  // ---- what a batch does, in closed form ----

  /** The units with a change whose fingerprint is not the stored one. */
  function Changed(db: Db, cs: seq<UnitChange>): set<UnitKey> {
    set c | c in cs && Differs(db, c) :: c.key
  }

  function Row(db: Db, k: UnitKey): Option<UnitRow> {
    if k in db.units then Some(db.units[k]) else None
  }

  /** The row of a unit after a list of changes: each one that differs from the row before it replaces it. */
  function FinalRow(stored: Option<UnitRow>, cs: seq<UnitChange>, k: UnitKey): Option<UnitRow> {
    if cs == [] then stored
    else
      var row, c := FinalRow(stored, cs[..|cs| - 1], k), cs[|cs| - 1];
      if c.key == k && (row.None? || row.value.fingerprint != c.fingerprint) then Some(RowOf(c)) else row
  }

  /** The chunks with a provenance row of a changed unit. */
  function Dropped(db: Db, changed: set<UnitKey>): set<ChunkId> {
    set p | p in db.provenance && UnitOf(p) in changed :: p.chunk
  }

  lemma ChangedSnoc(db: Db, cs: seq<UnitChange>, c: UnitChange)
    ensures Changed(db, cs + [c]) == Changed(db, cs) + if Differs(db, c) then {c.key} else {}
  {
  }

  /** Units without a differing change keep their row. */
  lemma {:induction false} UnchangedRow(db: Db, cs: seq<UnitChange>, k: UnitKey)
    requires k !in Changed(db, cs)
    ensures FinalRow(Row(db, k), cs, k) == Row(db, k)
  {
    if cs == [] {
    } else {
      var init, last := cs[..|cs| - 1], cs[|cs| - 1];
      assert cs == init + [last];
      ChangedSnoc(db, init, last);
      UnchangedRow(db, init, k);
    }
  }

  lemma {:induction false} RowsAfterUpserts(db: Db, cs: seq<UnitChange>, k: UnitKey)
    ensures Row(UpsertUnits(db, cs), k) == FinalRow(Row(db, k), cs, k)
  {
    if cs == [] {
    } else {
      RowsAfterUpserts(db, cs[..|cs| - 1], k);
    }
  }

  lemma ChunksOfChanged(db: Db, k: UnitKey)
    ensures ChunksOfUnit(db, k) == Dropped(db, {k})
  {
    forall p | p in db.provenance
      ensures UnitOf(p) in {k} <==> p.doc == k.doc && p.chunk.unit == k.unit
    {
    }
  }

  /** The state after the changed units' chunks are gone. */
  ghost predicate IsDropped(db: Db, changed: set<UnitKey>, after: Db) {
    && after.provenance == (set p | p in db.provenance && p.chunk !in Dropped(db, changed))
    && after.chunks == db.chunks - Dropped(db, changed)
  }

  /** Dropping a unit whose chunks are gone already drops nothing. */
  lemma DropMore(db: Db, changed: set<UnitKey>, mid: Db, k: UnitKey)
    requires IsDropped(db, changed, mid)
    ensures IsDropped(db, changed + {k}, DropUnit(mid, k))
    ensures k in changed ==> changed + {k} == changed
  {
    ChunksOfChanged(mid, k);
    var gone := ChunksOfUnit(mid, k);
    forall c
      ensures c in Dropped(db, changed + {k}) <==> c in Dropped(db, changed) || c in gone
    {
      if c in Dropped(db, changed + {k}) && c !in Dropped(db, changed) {
        var p :| p in db.provenance && UnitOf(p) in changed + {k} && p.chunk == c;
        assert p in mid.provenance;
      }
      if c in gone {
        var p :| p in mid.provenance && p.doc == k.doc && p.chunk.unit == k.unit && p.chunk == c;
        assert UnitOf(p) in changed + {k};
      }
    }
  }

  /**
   * All upserts of a batch together: exactly the chunks stored for its changed units go, whichever documents
   * they are shared with and however often a unit occurs.
   */
  lemma {:induction false} UpsertsDrop(db: Db, cs: seq<UnitChange>)
    ensures IsDropped(db, Changed(db, cs), UpsertUnits(db, cs))
  {
    if cs == [] {
      assert Dropped(db, {}) == {};
    } else {
      var init, last := cs[..|cs| - 1], cs[|cs| - 1];
      var mid := UpsertUnits(db, init);
      assert cs == init + [last];
      UpsertsDrop(db, init);
      ChangedSnoc(db, init, last);
      RowsAfterUpserts(db, init, last.key);
      if last.key !in Changed(db, init) {
        UnchangedRow(db, init, last.key);
        assert Differs(mid, last) <==> Differs(db, last);
      }
      if Differs(mid, last) {
        var bound := mid.(bindings := mid.bindings[last.key.doc := true]);
        DropMore(db, Changed(db, init), bound.(units := mid.units[last.key := RowOf(last)]), last.key);
      }
    }
  }

  function Provenances(cs: seq<UnitChange>): set<Provenance> {
    set c | c in cs :: Provenance(IdOf(c), c.key.doc)
  }

  lemma ProvenancesSnoc(cs: seq<UnitChange>, c: UnitChange)
    ensures Provenances(cs + [c]) == Provenances(cs) + {Provenance(IdOf(c), c.key.doc)}
  {
  }

  /** All inserts of a batch together; a chunk that is there already, or is written twice, keeps its first text. */
  lemma {:induction false} InsertsAdd(db: Db, cs: seq<UnitChange>)
    ensures InsertChunks(db, cs).units == db.units
    ensures InsertChunks(db, cs).provenance == db.provenance + Provenances(cs)
    ensures InsertChunks(db, cs).chunks.Keys == db.chunks.Keys + ChunksIn(Provenances(cs))
    ensures forall id | id in db.chunks ::
              id in InsertChunks(db, cs).chunks && InsertChunks(db, cs).chunks[id] == db.chunks[id]
    ensures forall id | id in InsertChunks(db, cs).chunks && id !in db.chunks ::
              exists c :: c in cs && IdOf(c) == id && InsertChunks(db, cs).chunks[id] == c.text
  {
    InsertedTexts(db, cs);
    if cs == [] {
    } else {
      var init, last := cs[..|cs| - 1], cs[|cs| - 1];
      InsertsAdd(db, init);
      ProvenancesSnoc(init, last);
      assert cs == init + [last];
      var more := Provenances(cs);
      assert Provenance(IdOf(last), last.key.doc) in more;
      assert ChunksIn(more) == ChunksIn(Provenances(init)) + {IdOf(last)};
    }
  }

  /** A chunk that is there keeps its text, a new one has that of a change written under its id. */
  lemma {:induction false} InsertedTexts(db: Db, cs: seq<UnitChange>)
    ensures forall id | id in db.chunks ::
              id in InsertChunks(db, cs).chunks && InsertChunks(db, cs).chunks[id] == db.chunks[id]
    ensures forall id | id in InsertChunks(db, cs).chunks && id !in db.chunks ::
              exists c :: c in cs && IdOf(c) == id && InsertChunks(db, cs).chunks[id] == c.text
  {
    if cs == [] {
    } else {
      var init, last := cs[..|cs| - 1], cs[|cs| - 1];
      InsertedTexts(db, init);
      assert cs == init + [last];
    }
  }

  lemma {:induction false} ToIndexMembers(db: Db, cs: seq<UnitChange>)
    ensures forall c :: c in ToIndex(db, cs) <==> c in cs && Differs(db, c) && !c.hidden
  {
    if cs == [] {
    } else {
      ToIndexMembers(db, cs[..|cs| - 1]);
      assert cs == cs[..|cs| - 1] + [cs[|cs| - 1]];
    }
  }

  // ---- exactly when a batch keeps the store indexed ----

  /** The fingerprints under which a batch writes chunks for a unit. */
  function Written(db: Db, cs: seq<UnitChange>, k: UnitKey): set<string> {
    set c | c in cs && c.key == k && Differs(db, c) && !c.hidden :: c.fingerprint
  }

  function Shown(row: Option<UnitRow>): set<string> {
    if row.Some? && !row.value.hidden then {row.value.fingerprint} else {}
  }

  /** For every changed unit, the batch writes a chunk for the row it ends with and for no other. */
  ghost predicate Settled(db: Db, cs: seq<UnitChange>) {
    forall k | k in Changed(db, cs) :: Written(db, cs, k) == Shown(FinalRow(Row(db, k), cs, k))
  }

  /** Two stored visible units of different documents with one unit ref and one fingerprint have one chunk. */
  predicate ShareChunk(db: Db, j: UnitKey, k: UnitKey) {
    Visible(db, j) && Visible(db, k) && j.unit == k.unit && db.units[j].fingerprint == db.units[k].fingerprint
  }

  /** No changed unit shares its stored chunk with a unit the batch leaves as it is. */
  ghost predicate NoneOrphaned(db: Db, cs: seq<UnitChange>) {
    forall j, k | j in Changed(db, cs) && k in db.units && k !in Changed(db, cs) :: !ShareChunk(db, j, k)
  }

  /** What can be read off the stored rows and the batch before anything is written. */
  ghost predicate Keeps(db: Db, cs: seq<UnitChange>) {
    Settled(db, cs) && NoneOrphaned(db, cs)
  }

  lemma IngestedState(db: Db, b: Batch)
    ensures
      var end := Ingested(db, b);
      && end.provenance == (set p | p in db.provenance && p.chunk !in Dropped(db, Changed(db, b.changes)))
                           + Provenances(ToIndex(db, b.changes))
      && end.chunks.Keys == (db.chunks.Keys - Dropped(db, Changed(db, b.changes)))
                            + ChunksIn(Provenances(ToIndex(db, b.changes)))
      && forall k :: Row(end, k) == FinalRow(Row(db, k), b.changes, k)
  {
    var cs := b.changes;
    UpsertsDrop(db, cs);
    InsertsAdd(UpsertUnits(db, cs), ToIndex(db, cs));
    forall k
      ensures Row(Ingested(db, b), k) == FinalRow(Row(db, k), cs, k)
    {
      RowsAfterUpserts(db, cs, k);
    }
  }

  /** A changed unit's rows after the batch are those the batch wrote for it. */
  lemma ChangedUnit(db: Db, b: Batch, p: Provenance)
    requires UnitOf(p) in Changed(db, b.changes)
    ensures p in Ingested(db, b).provenance <==> p.chunk.fingerprint in Written(db, b.changes, UnitOf(p))
    ensures IsOwn(Ingested(db, b), p) <==>
            p.chunk.fingerprint in Shown(FinalRow(Row(db, UnitOf(p)), b.changes, UnitOf(p)))
  {
    var cs := b.changes;
    IngestedState(db, b);
    ToIndexMembers(db, cs);
    if p in db.provenance {
      assert p.chunk in Dropped(db, Changed(db, cs));
    }
    if p in Provenances(ToIndex(db, cs)) {
      var c :| c in ToIndex(db, cs) && Provenance(IdOf(c), c.key.doc) == p;
      assert c.key == UnitOf(p);
    }
    if c :| c in cs && c.key == UnitOf(p) && Differs(db, c) && !c.hidden && c.fingerprint == p.chunk.fingerprint {
      assert c in ToIndex(db, cs) && Provenance(IdOf(c), c.key.doc) == p;
    }
    assert Row(Ingested(db, b), UnitOf(p)) == FinalRow(Row(db, UnitOf(p)), cs, UnitOf(p));
  }

  /** An unchanged unit keeps its rows but those whose chunk is dropped with a changed unit. */
  lemma UnchangedUnit(db: Db, b: Batch, p: Provenance)
    requires Indexed(db) && UnitOf(p) !in Changed(db, b.changes)
    ensures p in Ingested(db, b).provenance <==> IsOwn(db, p) && p.chunk !in Dropped(db, Changed(db, b.changes))
    ensures IsOwn(Ingested(db, b), p) <==> IsOwn(db, p)
  {
    var cs := b.changes;
    IngestedState(db, b);
    ToIndexMembers(db, cs);
    UnchangedRow(db, cs, UnitOf(p));
    forall c | c in ToIndex(db, cs)
      ensures Provenance(IdOf(c), c.key.doc) != p
    {
      assert c.key in Changed(db, cs);
    }
    assert Row(Ingested(db, b), UnitOf(p)) == Row(db, UnitOf(p));
  }

  lemma DroppedIsShared(db: Db, cs: seq<UnitChange>, p: Provenance)
    requires Indexed(db) && IsOwn(db, p) && UnitOf(p) !in Changed(db, cs)
    ensures p.chunk in Dropped(db, Changed(db, cs)) <==>
            exists j :: j in Changed(db, cs) && ShareChunk(db, j, UnitOf(p))
  {
    if p.chunk in Dropped(db, Changed(db, cs)) {
      var q :| q in db.provenance && UnitOf(q) in Changed(db, cs) && q.chunk == p.chunk;
      assert IsOwn(db, q);
      assert ShareChunk(db, UnitOf(q), UnitOf(p));
    }
    if j :| j in Changed(db, cs) && ShareChunk(db, j, UnitOf(p)) {
      var q := Provenance(p.chunk, j.doc);
      assert UnitOf(q) == j && IsOwn(db, q);
    }
  }

  lemma ChunkRowsMatch(db: Db, b: Batch)
    requires Indexed(db)
    ensures Ingested(db, b).chunks.Keys == ChunksIn(Ingested(db, b).provenance)
  {
    IngestedState(db, b);
  }

  /**
   * A committed batch keeps every visible unit at exactly the chunk of its stored fingerprint if and only
   * if it writes, for each changed unit, a chunk for the row it ends with and no other, and no changed unit
   * shares its stored chunk with a unit that the batch leaves as it is.
   */
  lemma IngestIsIndexedExactly(db: Db, b: Batch)
    requires Indexed(db)
    ensures Indexed(Ingested(db, b)) <==> Keeps(db, b.changes)
  {
    var cs, end := b.changes, Ingested(db, b);
    ChunkRowsMatch(db, b);
    if Keeps(db, cs) {
      forall p
        ensures p in end.provenance <==> IsOwn(end, p)
      {
        KeptRow(db, b, p);
      }
    }
    if Indexed(end) {
      forall k | k in Changed(db, cs)
        ensures Written(db, cs, k) == Shown(FinalRow(Row(db, k), cs, k))
      {
        forall f
          ensures f in Written(db, cs, k) <==> f in Shown(FinalRow(Row(db, k), cs, k))
        {
          var p := Provenance(ChunkId(k.unit, f), k.doc);
          assert UnitOf(p) == k;
          ChangedUnit(db, b, p);
        }
      }
      forall j, k | j in Changed(db, cs) && k in db.units && k !in Changed(db, cs)
        ensures !ShareChunk(db, j, k)
      {
        if ShareChunk(db, j, k) {
          var p := Provenance(ChunkId(k.unit, db.units[k].fingerprint), k.doc);
          assert UnitOf(p) == k && IsOwn(db, p);
          UnchangedUnit(db, b, p);
          DroppedIsShared(db, cs, p);
        }
      }
    }
  }

  lemma KeptRow(db: Db, b: Batch, p: Provenance)
    requires Indexed(db) && Keeps(db, b.changes)
    ensures p in Ingested(db, b).provenance <==> IsOwn(Ingested(db, b), p)
  {
    var cs := b.changes;
    if UnitOf(p) in Changed(db, cs) {
      ChangedUnit(db, b, p);
    } else {
      UnchangedUnit(db, b, p);
      if IsOwn(db, p) {
        DroppedIsShared(db, cs, p);
      }
    }
  }

  /** The text of a chunk: as stored when it stays, else that of a change written under its id. */
  lemma ChunkTexts(db: Db, b: Batch, id: ChunkId)
    requires id in Ingested(db, b).chunks
    ensures
      var text := Ingested(db, b).chunks[id];
      if id in db.chunks && id !in Dropped(db, Changed(db, b.changes)) then text == db.chunks[id]
      else exists c :: c in b.changes && Differs(db, c) && !c.hidden && IdOf(c) == id && c.text == text
  {
    UpsertsDrop(db, b.changes);
    InsertsAdd(UpsertUnits(db, b.changes), ToIndex(db, b.changes));
    ToIndexMembers(db, b.changes);
  }

  // ---- batches that always do ----

  /** All changes of one unit carry one fingerprint and one visibility, as they do when units are distinct. */
  ghost predicate Alike(cs: seq<UnitChange>) {
    forall c, d | c in cs && d in cs && c.key == d.key :: RowOf(c) == RowOf(d)
  }

  /** Unit refs belong to one document each. */
  ghost predicate Owned(owner: string -> string, keys: set<UnitKey>) {
    forall k | k in keys :: k.doc == owner(k.unit)
  }

  lemma {:induction false} AlikeFinalRow(db: Db, cs: seq<UnitChange>, c: UnitChange)
    requires Alike(cs) && c in cs && Differs(db, c)
    ensures FinalRow(Row(db, c.key), cs, c.key) == Some(RowOf(c))
  {
    var init, last := cs[..|cs| - 1], cs[|cs| - 1];
    assert cs == init + [last];
    assert forall d | d in init :: d in cs;
    if d :| d in init && d.key == c.key {
      assert RowOf(d) == RowOf(c);
      AlikeFinalRow(db, init, d);
    } else {
      assert c == last;
      assert c.key !in Changed(db, init);
      UnchangedRow(db, init, c.key);
    }
  }

  lemma AlikeIsSettled(db: Db, cs: seq<UnitChange>)
    requires Alike(cs)
    ensures Settled(db, cs)
  {
    forall k | k in Changed(db, cs)
      ensures Written(db, cs, k) == Shown(FinalRow(Row(db, k), cs, k))
    {
      var c :| c in cs && Differs(db, c) && c.key == k;
      AlikeFinalRow(db, cs, c);
    }
  }

  lemma OwnedOrphansNone(owner: string -> string, db: Db, cs: seq<UnitChange>)
    requires Owned(owner, db.units.Keys)
    ensures NoneOrphaned(db, cs)
  {
    forall j, k | j in db.units && k in db.units && j.unit == k.unit
      ensures j == k
    {
      assert j.doc == owner(j.unit) == k.doc;
    }
  }

  // ---- what a commit leaves of its changes ----

  /** A skipped change leaves its unit's row as it was, any other change of a unit replaces it. */
  lemma CommittedRows(db: Db, b: Batch, c: UnitChange)
    requires Alike(b.changes) && c in b.changes
    ensures
      var end := Ingested(db, b);
      && c.key in end.units && end.units[c.key].fingerprint == c.fingerprint
      && end.units[c.key] == if c.key in db.units && db.units[c.key].fingerprint == c.fingerprint
                             then db.units[c.key] else UnitRow(c.fingerprint, c.hidden)
  {
    IngestedState(db, b);
    if Differs(db, c) {
      AlikeFinalRow(db, b.changes, c);
    } else {
      forall d | d in b.changes && d.key == c.key
        ensures !Differs(db, d)
      {
        assert RowOf(d) == RowOf(c);
      }
      assert c.key !in Changed(db, b.changes);
      UnchangedRow(db, b.changes, c.key);
    }
  }

  /** Units without a change keep their rows. */
  lemma OtherRowsStay(db: Db, b: Batch, k: UnitKey)
    requires forall c | c in b.changes :: c.key != k
    ensures Row(Ingested(db, b), k) == Row(db, k)
  {
    IngestedState(db, b);
    assert k !in Changed(db, b.changes);
    UnchangedRow(db, b.changes, k);
  }

  /** A batch all of whose changes carry the stored fingerprints touches no unit, chunk or provenance row. */
  lemma SkippedBatchChangesNothing(db: Db, b: Batch)
    requires forall c | c in b.changes :: c.key in db.units && db.units[c.key].fingerprint == c.fingerprint
    ensures
      var end := Ingested(db, b);
      end.units == db.units && end.chunks == db.chunks && end.provenance == db.provenance
  {
    NothingDiffers(db, b.changes);
    NothingToIndex(db, b.changes);
    assert InsertChunks(UpsertUnits(db, b.changes), []) == UpsertUnits(db, b.changes);
  }

  lemma {:induction false} NothingDiffers(db: Db, cs: seq<UnitChange>)
    requires forall c | c in cs :: c.key in db.units && db.units[c.key].fingerprint == c.fingerprint
    ensures UpsertUnits(db, cs) == db.(bindings := UpsertUnits(db, cs).bindings)
  {
    if cs == [] {
    } else {
      var init, last := cs[..|cs| - 1], cs[|cs| - 1];
      assert cs == init + [last];
      assert last in cs;
      NothingDiffers(db, init);
    }
  }

  lemma {:induction false} NothingToIndex(db: Db, cs: seq<UnitChange>)
    requires forall c | c in cs :: c.key in db.units && db.units[c.key].fingerprint == c.fingerprint
    ensures ToIndex(db, cs) == []
  {
    if cs == [] {
    } else {
      var init, last := cs[..|cs| - 1], cs[|cs| - 1];
      assert cs == init + [last];
      assert last in cs;
      NothingToIndex(db, init);
    }
  }

  /** A batch that is delivered again changes no unit, chunk or provenance row. */
  lemma IngestingAgainChangesNothing(db: Db, b: Batch)
    requires Alike(b.changes)
    ensures
      var once := Ingested(db, b);
      var twice := Ingested(once, b);
      twice.units == once.units && twice.chunks == once.chunks && twice.provenance == once.provenance
  {
    var once := Ingested(db, b);
    forall c | c in b.changes
      ensures c.key in once.units && once.units[c.key].fingerprint == c.fingerprint
    {
      CommittedRows(db, b, c);
    }
    SkippedBatchChangesNothing(once, b);
  }

  /** A commit binds the documents of its changes and no other, and clears the error. */
  lemma CommittedBindings(db: Db, b: Batch, doc: string)
    ensures Ingested(db, b).checkpoint.error == None
    ensures if exists c :: c in b.changes && c.key.doc == doc
            then doc in Ingested(db, b).bindings && Ingested(db, b).bindings[doc]
            else (doc in Ingested(db, b).bindings <==> doc in db.bindings)
                 && (doc in db.bindings ==> Ingested(db, b).bindings[doc] == db.bindings[doc])
  {
    InsertsKeepBindings(UpsertUnits(db, b.changes), ToIndex(db, b.changes));
    BindingsAfter(db, b.changes, doc);
    OtherBindingsStay(db, b.changes, doc);
  }

  lemma {:induction false} InsertsKeepBindings(db: Db, cs: seq<UnitChange>)
    ensures InsertChunks(db, cs).bindings == db.bindings
  {
    if cs == [] {
    } else {
      InsertsKeepBindings(db, cs[..|cs| - 1]);
    }
  }

  lemma {:induction false} OtherBindingsStay(db: Db, cs: seq<UnitChange>, doc: string)
    ensures (forall c | c in cs :: c.key.doc != doc) ==>
              (doc in UpsertUnits(db, cs).bindings <==> doc in db.bindings)
              && (doc in db.bindings ==> UpsertUnits(db, cs).bindings[doc] == db.bindings[doc])
  {
    if cs == [] {
    } else {
      var init, last := cs[..|cs| - 1], cs[|cs| - 1];
      assert cs == init + [last];
      OtherBindingsStay(db, init, doc);
    }
  }

  // ---- runs ----

  /** A batch that commits, or one whose transaction is rolled back and leaves its error behind. */
  datatype Step = Commits(batch: Batch) | RollsBack(error: string)

  function Apply(db: Db, step: Step): Db {
    match step
    case Commits(b) => Ingested(db, b)
    case RollsBack(e) => Failed(db, e)
  }

  function Play(db: Db, steps: seq<Step>): Db {
    if steps == [] then db else Apply(Play(db, steps[..|steps| - 1]), steps[|steps| - 1])
  }

  /** Every batch that commits keeps the store it meets. */
  ghost predicate AllKeep(steps: seq<Step>) {
    forall n | 0 <= n < |steps| && steps[n].Commits? :: KeepsAt(steps, n)
  }

  ghost predicate KeepsAt(steps: seq<Step>, n: nat)
    requires n < |steps| && steps[n].Commits?
  {
    Keeps(Play(EMPTY, steps[..n]), steps[n].batch.changes)
  }

  ghost predicate IndexedAt(steps: seq<Step>, n: nat)
    requires n <= |steps|
  {
    Indexed(Play(EMPTY, steps[..n]))
  }

  lemma NextState(steps: seq<Step>, n: nat)
    requires n < |steps|
    ensures Play(EMPTY, steps[..n + 1]) == Apply(Play(EMPTY, steps[..n]), steps[n])
  {
    assert steps[..n + 1][..n] == steps[..n];
  }

  lemma FailureKeepsIndexed(db: Db, error: string)
    ensures Indexed(Failed(db, error)) <==> Indexed(db)
  {
    assert forall p :: IsOwn(Failed(db, error), p) <==> IsOwn(db, p);
  }

  lemma {:induction false} IndexedUpTo(steps: seq<Step>, n: nat)
    requires n <= |steps| && AllKeep(steps)
    ensures IndexedAt(steps, n)
  {
    if n == 0 {
      assert steps[..0] == [];
    } else {
      IndexedUpTo(steps, n - 1);
      NextState(steps, n - 1);
      var db := Play(EMPTY, steps[..n - 1]);
      match steps[n - 1]
      case Commits(b) =>
        assert KeepsAt(steps, n - 1);
        IngestIsIndexedExactly(db, b);
      case RollsBack(e) => FailureKeepsIndexed(db, e);
    }
  }

  /**
   * Over whole runs of committed and rolled-back batches: the store is indexed after every step if and only
   * if every committed batch keeps the store it meets.
   */
  lemma RunsAreIndexedExactly(steps: seq<Step>)
    ensures (forall n | 0 <= n <= |steps| :: IndexedAt(steps, n)) <==> AllKeep(steps)
  {
    if AllKeep(steps) {
      forall n | 0 <= n <= |steps|
        ensures IndexedAt(steps, n)
      {
        IndexedUpTo(steps, n);
      }
    }
    if forall n | 0 <= n <= |steps| :: IndexedAt(steps, n) {
      forall n | 0 <= n < |steps| && steps[n].Commits?
        ensures KeepsAt(steps, n)
      {
        assert IndexedAt(steps, n) && IndexedAt(steps, n + 1);
        NextState(steps, n);
        IngestIsIndexedExactly(Play(EMPTY, steps[..n]), steps[n].batch);
      }
    }
  }

  /**
   * After every such run each recorded visible unit has exactly one live chunk, derived from its stored
   * fingerprint, and each hidden unit has none.
   */
  lemma ReachableHasOneChunkPerUnit(steps: seq<Step>, k: UnitKey)
    requires AllKeep(steps) && k in Play(EMPTY, steps).units
    ensures ChunksOfUnit(Play(EMPTY, steps), k) == ExpectedChunks(Play(EMPTY, steps), k)
    ensures ExpectedChunks(Play(EMPTY, steps), k) <= Play(EMPTY, steps).chunks.Keys
  {
    IndexedUpTo(steps, |steps|);
    assert steps[..|steps|] == steps;
    UnitChunks(Play(EMPTY, steps), k);
  }

  lemma {:induction false} StoredKeysAreOwned(owner: string -> string, steps: seq<Step>)
    requires forall s | s in steps && s.Commits? :: Owned(owner, set c | c in s.batch.changes :: c.key)
    ensures Owned(owner, Play(EMPTY, steps).units.Keys)
  {
    if steps == [] {
    } else {
      var init, last := steps[..|steps| - 1], steps[|steps| - 1];
      assert forall s | s in init :: s in steps;
      StoredKeysAreOwned(owner, init);
      assert last in steps;
      if last.Commits? {
        forall k | k in Play(EMPTY, steps).units
          ensures k.doc == owner(k.unit)
        {
          IngestedState(Play(EMPTY, init), last.batch);
          FinalRowFrom(Row(Play(EMPTY, init), k), last.batch.changes, k);
          if c :| c in last.batch.changes && c.key == k {
            assert k in set c | c in last.batch.changes :: c.key;
          }
        }
      }
    }
  }

  lemma {:induction false} FinalRowFrom(stored: Option<UnitRow>, cs: seq<UnitChange>, k: UnitKey)
    ensures FinalRow(stored, cs, k) == stored || exists c :: c in cs && c.key == k
  {
    if cs == [] {
    } else {
      FinalRowFrom(stored, cs[..|cs| - 1], k);
      assert cs == cs[..|cs| - 1] + [cs[|cs| - 1]];
    }
  }

  /** Batches whose changes of one unit are alike, over units whose ref belongs to one document, all keep. */
  lemma OrdinaryBatchesKeep(owner: string -> string, steps: seq<Step>)
    requires forall s | s in steps && s.Commits? ::
               Alike(s.batch.changes) && Owned(owner, set c | c in s.batch.changes :: c.key)
    ensures AllKeep(steps)
  {
    forall n | 0 <= n < |steps| && steps[n].Commits?
      ensures KeepsAt(steps, n)
    {
      assert steps[n] in steps;
      assert forall s | s in steps[..n] :: s in steps;
      StoredKeysAreOwned(owner, steps[..n]);
      AlikeIsSettled(Play(EMPTY, steps[..n]), steps[n].batch.changes);
      OwnedOrphansNone(owner, Play(EMPTY, steps[..n]), steps[n].batch.changes);
    }
  }

  // ---- rollbacks and the cursor ----

  function Commits(steps: seq<Step>): seq<Step> {
    if steps == [] then []
    else
      var last := steps[|steps| - 1];
      Commits(steps[..|steps| - 1]) + if last.Commits? then [last] else []
  }

  /** Alike but for the recorded error. */
  ghost predicate SameButError(a: Db, b: Db) {
    a == b.(checkpoint := b.checkpoint.(error := a.checkpoint.error))
  }

  lemma {:induction false} UpsertsIgnoreCheckpoint(db: Db, row: CheckpointRow, cs: seq<UnitChange>)
    ensures UpsertUnits(db.(checkpoint := row), cs) == UpsertUnits(db, cs).(checkpoint := row)
    ensures ToIndex(db.(checkpoint := row), cs) == ToIndex(db, cs)
  {
    if cs == [] {
    } else {
      UpsertsIgnoreCheckpoint(db, row, cs[..|cs| - 1]);
    }
  }

  lemma {:induction false} InsertsIgnoreCheckpoint(db: Db, row: CheckpointRow, cs: seq<UnitChange>)
    ensures InsertChunks(db.(checkpoint := row), cs) == InsertChunks(db, cs).(checkpoint := row)
  {
    if cs == [] {
    } else {
      InsertsIgnoreCheckpoint(db, row, cs[..|cs| - 1]);
    }
  }

  /** A recorded error makes no difference to the next batch that commits. */
  lemma ErrorIsOverwritten(a: Db, b: Db, batch: Batch)
    requires SameButError(a, b)
    ensures Ingested(a, batch) == Ingested(b, batch)
  {
    var cs := batch.changes;
    UpsertsIgnoreCheckpoint(b, a.checkpoint, cs);
    InsertsIgnoreCheckpoint(UpsertUnits(b, cs), a.checkpoint, ToIndex(b, cs));
  }

  /**
   * Rolled-back batches are as if they had never been tried, but for the error: units, chunks, bindings
   * and the cursor are those of the committed batches alone, and the error is gone after a commit.
   */
  lemma {:induction false} RollbacksAreInvisible(steps: seq<Step>)
    ensures SameButError(Play(EMPTY, steps), Play(EMPTY, Commits(steps)))
    ensures steps != [] && steps[|steps| - 1].Commits? ==> Play(EMPTY, steps) == Play(EMPTY, Commits(steps))
    ensures steps != [] && steps[|steps| - 1].RollsBack? ==>
              Play(EMPTY, steps).checkpoint.error == Some(steps[|steps| - 1].error)
  {
    if steps == [] {
    } else {
      var init, last := steps[..|steps| - 1], steps[|steps| - 1];
      RollbacksAreInvisible(init);
      if last.Commits? {
        var commits := Commits(init);
        assert (commits + [last])[..|commits|] == commits;
        ErrorIsOverwritten(Play(EMPTY, init), Play(EMPTY, commits), last.batch);
      } else {
        assert Commits(steps) == Commits(init);
      }
    }
  }

  /** Step n commits a batch that brings changes or a cursor. */
  predicate MovesCursor(steps: seq<Step>, n: nat)
    requires n < |steps|
  {
    steps[n].Commits? && (steps[n].batch.changes != [] || steps[n].batch.cursor.Some?)
  }

  /**
   * The stored cursor is that of the last committed batch that brought changes or a cursor of its own;
   * empty batches without one, and batches rolled back, leave it.
   */
  lemma {:induction false} CursorIsLastCommitted(steps: seq<Step>)
    ensures
      var cursor := Play(EMPTY, steps).checkpoint.cursor;
      || (exists n :: 0 <= n < |steps| && MovesCursor(steps, n) && cursor == steps[n].batch.cursor
                      && forall m | n < m < |steps| :: !MovesCursor(steps, m))
      || (cursor == None && forall m | 0 <= m < |steps| :: !MovesCursor(steps, m))
  {
    if steps == [] {
    } else {
      var init, last := steps[..|steps| - 1], steps[|steps| - 1];
      CursorIsLastCommitted(init);
      assert forall m | 0 <= m < |init| :: MovesCursor(steps, m) <==> MovesCursor(init, m);
      if MovesCursor(steps, |init|) {
        assert Play(EMPTY, steps).checkpoint.cursor == last.batch.cursor;
      } else {
        assert Play(EMPTY, steps).checkpoint.cursor == Play(EMPTY, init).checkpoint.cursor;
      }
    }
  }

  // ---- the smallest failures ----

  lemma OfOne(db: Db, c: UnitChange)
    ensures UpsertUnits(db, [c]) == UpsertUnit(db, c) && InsertChunks(db, [c]) == InsertChunk(db, c)
    ensures ToIndex(db, [c]) == if Differs(db, c) && !c.hidden then [c] else []
  {
    assert [c][..0] == [];
  }

  lemma UpsertsOfTwo(db: Db, c: UnitChange, d: UnitChange)
    ensures UpsertUnits(db, [c, d]) == UpsertUnit(UpsertUnit(db, c), d)
  {
    assert [c, d][..1] == [c];
    OfOne(db, c);
  }

  lemma InsertsOfTwo(db: Db, c: UnitChange, d: UnitChange)
    ensures InsertChunks(db, [c, d]) == InsertChunk(InsertChunk(db, c), d)
  {
    assert [c, d][..1] == [c];
    OfOne(db, c);
  }

  lemma ToIndexOfTwo(db: Db, c: UnitChange, d: UnitChange)
    ensures ToIndex(db, [c, d]) == ToIndex(db, [c]) + if Differs(db, d) && !d.hidden then [d] else []
  {
    assert [c, d][..1] == [c];
  }

  /** Two new visible units, or two changes of one. */
  lemma FirstBatch(c: UnitChange, d: UnitChange)
    requires !c.hidden && !d.hidden && (c.key == d.key ==> c.fingerprint != d.fingerprint)
    ensures
      var db := Ingested(EMPTY, Batch([c, d], None));
      && db.provenance == {Provenance(IdOf(c), c.key.doc), Provenance(IdOf(d), d.key.doc)}
      && db.units == map[c.key := RowOf(c)][d.key := RowOf(d)]
  {
    OfOne(EMPTY, c);
    UpsertsOfTwo(EMPTY, c, d);
    var mid := UpsertUnits(EMPTY, [c, d]);
    InsertsOfTwo(mid, c, d);
    ToIndexOfTwo(EMPTY, c, d);
    assert ToIndex(EMPTY, [c, d]) == [c, d];
    assert mid.provenance == {};
  }

  /** Two changes of one unit in a batch leave two live chunks. */
  lemma RepeatedUnitKeepsTwoChunks(key: UnitKey, f: string, g: string, text: string)
    requires f != g
    ensures
      var db := Ingested(EMPTY, Batch([UnitChange(key, f, false, text), UnitChange(key, g, false, text)], None));
      && key in db.units && db.units[key] == UnitRow(g, false)
      && ChunksOfUnit(db, key) == {ChunkId(key.unit, f), ChunkId(key.unit, g)}
  {
    var c, d := UnitChange(key, f, false, text), UnitChange(key, g, false, text);
    FirstBatch(c, d);
    var db := Ingested(EMPTY, Batch([c, d], None));
    assert Provenance(IdOf(c), key.doc) in db.provenance && Provenance(IdOf(d), key.doc) in db.provenance;
  }

  /** A unit ref used by two documents: changing the one deletes the chunk of the other. */
  lemma SharedUnitRefLosesChunk(a: string, b: string, unit: string, f: string, g: string, text: string)
    requires a != b && f != g
    ensures
      var first :=
        Batch([UnitChange(UnitKey(a, unit), f, false, text), UnitChange(UnitKey(b, unit), f, false, text)], None);
      var db := Ingested(Ingested(EMPTY, first), Batch([UnitChange(UnitKey(a, unit), g, false, text)], None));
      && UnitKey(b, unit) in db.units && !db.units[UnitKey(b, unit)].hidden
      && ChunksOfUnit(db, UnitKey(b, unit)) == {}
  {
    var c, d := UnitChange(UnitKey(a, unit), f, false, text), UnitChange(UnitKey(b, unit), f, false, text);
    FirstBatch(c, d);
    var db := Ingested(EMPTY, Batch([c, d], None));
    var e := UnitChange(UnitKey(a, unit), g, false, text);
    OfOne(db, e);
    OfOne(UpsertUnit(db, e), e);
    ChunkGoesForBoth(db, e, IdOf(c), b);
  }

  lemma ChunkGoesForBoth(db: Db, e: UnitChange, id: ChunkId, other: string)
    requires db.provenance == {Provenance(id, e.key.doc), Provenance(id, other)} && id.unit == e.key.unit
    requires Differs(db, e)
    ensures UpsertUnit(db, e).provenance == {}
  {
    assert Provenance(id, e.key.doc) in db.provenance;
    assert id in ChunksOfUnit(db, e.key);
  }
}
