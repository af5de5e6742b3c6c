/** Ingesting batches of application-source units, for one namespace and chunk strategy. */
module AppSource {
  import opened Wrappers

  /** The primary key of a unit. */
  datatype UnitKey = UnitKey(doc: string, unit: string)

  /** A changed unit; hidden ones are recorded but not searchable on their own. */
  datatype UnitChange = UnitChange(key: UnitKey, fingerprint: string, hidden: bool, text: string)

  /** A stored fingerprint row. */
  datatype UnitRow = UnitRow(fingerprint: string, hidden: bool)

  /** The hash of namespace, unit, fingerprint and strategy: the document is not part of it. */
  datatype ChunkId = ChunkId(unit: string, fingerprint: string)

  datatype Provenance = Provenance(chunk: ChunkId, doc: string)

  datatype CheckpointRow = CheckpointRow(cursor: Option<string>, error: Option<string>)

  datatype Db = Db(
    units: map<UnitKey, UnitRow>, bindings: map<string, bool>, chunks: map<ChunkId, string>,
    provenance: set<Provenance>, checkpoint: CheckpointRow)

  datatype Batch = Batch(changes: seq<UnitChange>, cursor: Option<string>)

  function IdOf(c: UnitChange): ChunkId {
    ChunkId(c.key.unit, c.fingerprint)
  }

  function RowOf(c: UnitChange): UnitRow {
    UnitRow(c.fingerprint, c.hidden)
  }

  /** New, or stored with another fingerprint. */
  predicate Differs(db: Db, c: UnitChange) {
    c.key !in db.units || db.units[c.key].fingerprint != c.fingerprint
  }

  // ---- the transaction, step by step ----

  /** Chunk ids with a provenance row of the unit. */
  function ChunksOfUnit(db: Db, key: UnitKey): set<ChunkId> {
    set p | p in db.provenance && p.doc == key.doc && p.chunk.unit == key.unit :: p.chunk
  }

  predicate Survives(p: Provenance, gone: set<ChunkId>) {
    p.chunk !in gone
  }

  /** `delete_chunks_for_source_unit`: the chunks go, with every provenance row they have. */
  function DropUnit(db: Db, key: UnitKey): Db {
    var gone := ChunksOfUnit(db, key);
    db.(chunks := db.chunks - gone, provenance := set p | p in db.provenance && Survives(p, gone))
  }

  /** Binding and fingerprint of one change; a changed fingerprint drops the unit's chunks. */
  function UpsertUnit(db: Db, c: UnitChange): Db {
    var bound := db.(bindings := db.bindings[c.key.doc := true]);
    if Differs(db, c) then DropUnit(bound.(units := db.units[c.key := RowOf(c)]), c.key) else bound
  }

  function UpsertUnits(db: Db, cs: seq<UnitChange>): Db {
    if cs == [] then db else UpsertUnit(UpsertUnits(db, cs[..|cs| - 1]), cs[|cs| - 1])
  }

  /** Insert-or-ignore of the chunk, insert-or-replace of its provenance. */
  function InsertChunk(db: Db, c: UnitChange): Db {
    db.(chunks := if IdOf(c) in db.chunks then db.chunks else db.chunks[IdOf(c) := c.text],
        provenance := db.provenance + {Provenance(IdOf(c), c.key.doc)})
  }

  function InsertChunks(db: Db, cs: seq<UnitChange>): Db {
    if cs == [] then db else InsertChunk(InsertChunks(db, cs[..|cs| - 1]), cs[|cs| - 1])
  }

  /** The visible changes that differ from what was stored when the batch arrived. */
  function ToIndex(db: Db, cs: seq<UnitChange>): seq<UnitChange> {
    if cs == [] then []
    else
      var c := cs[|cs| - 1];
      ToIndex(db, cs[..|cs| - 1]) + if Differs(db, c) && !c.hidden then [c] else []
  }

  function Committed(db: Db, cursor: Option<string>): Db {
    db.(checkpoint := CheckpointRow(cursor, None))
  }

  /** The cursor a batch commits: an empty batch without one keeps the old one. */
  function NextCursor(db: Db, b: Batch): Option<string> {
    if b.changes == [] && b.cursor.None? then db.checkpoint.cursor else b.cursor
  }

  /** A batch that is rolled back: only the error is recorded. */
  function Failed(db: Db, error: string): Db {
    db.(checkpoint := db.checkpoint.(error := Some(error)))
  }

  /** A batch that commits. */
  function Ingested(db: Db, b: Batch): Db {
    Committed(InsertChunks(UpsertUnits(db, b.changes), ToIndex(db, b.changes)), NextCursor(db, b))
  }

  const EMPTY := Db(map[], map[], map[], {}, CheckpointRow(None, None))

  // ---- the transaction against a connection that may fail ----

  datatype Report = Report(
    discovered: nat, newUnits: nat, changedUnits: nat, skippedUnits: nat, hiddenUnits: nat, reboundUnits: nat,
    chunksIndexed: nat)

  function CountIf(p: UnitChange -> bool, cs: seq<UnitChange>): nat {
    if cs == [] then 0 else CountIf(p, cs[..|cs| - 1]) + if p(cs[|cs| - 1]) then 1 else 0
  }

  function NewIn(db: Db): UnitChange -> bool {
    (c: UnitChange) => c.key !in db.units
  }

  function SkippedIn(db: Db): UnitChange -> bool {
    (c: UnitChange) => !Differs(db, c)
  }

  lemma PrefixSteps(db: Db, cs: seq<UnitChange>, i: nat)
    requires i < |cs|
    ensures UpsertUnits(db, cs[..i + 1]) == UpsertUnit(UpsertUnits(db, cs[..i]), cs[i])
    ensures InsertChunks(db, cs[..i + 1]) == InsertChunk(InsertChunks(db, cs[..i]), cs[i])
    ensures ToIndex(db, cs[..i + 1]) ==
            ToIndex(db, cs[..i]) + if Differs(db, cs[i]) && !cs[i].hidden then [cs[i]] else []
  {
    assert cs[..i + 1][..i] == cs[..i];
  }

  lemma CountStep(p: UnitChange -> bool, cs: seq<UnitChange>, i: nat)
    requires i < |cs|
    ensures CountIf(p, cs[..i + 1]) == CountIf(p, cs[..i]) + if p(cs[i]) then 1 else 0
  {
    assert cs[..i + 1][..i] == cs[..i];
  }

  /** Documents of the changes whose binding was stored inactive. */
  function Rebound(db: Db, cs: seq<UnitChange>): set<string> {
    set c | c in cs && c.key.doc in db.bindings && !db.bindings[c.key.doc] :: c.key.doc
  }

  predicate IsInactive(db: Db, doc: string) {
    doc in db.bindings && !db.bindings[doc]
  }

  /** A document is inactive after some changes if it was before and none of them is of it. */
  lemma {:induction false} BindingsAfter(db: Db, cs: seq<UnitChange>, doc: string)
    ensures IsInactive(UpsertUnits(db, cs), doc) <==> IsInactive(db, doc) && forall c | c in cs :: c.key.doc != doc
    ensures (exists c :: c in cs && c.key.doc == doc) ==>
              doc in UpsertUnits(db, cs).bindings && UpsertUnits(db, cs).bindings[doc]
  {
    if cs == [] {
    } else {
      var init, last := cs[..|cs| - 1], cs[|cs| - 1];
      assert cs == init + [last];
      BindingsAfter(db, init, doc);
    }
  }

  lemma ReboundStep(db: Db, cs: seq<UnitChange>, i: nat)
    requires i < |cs|
    ensures |Rebound(db, cs[..i + 1])| ==
            |Rebound(db, cs[..i])| + if IsInactive(UpsertUnits(db, cs[..i]), cs[i].key.doc) then 1 else 0
  {
    var c := cs[i];
    assert cs[..i + 1] == cs[..i] + [c];
    BindingsAfter(db, cs[..i], c.key.doc);
    if IsInactive(db, c.key.doc) {
      assert Rebound(db, cs[..i + 1]) == Rebound(db, cs[..i]) + {c.key.doc};
    } else {
      assert Rebound(db, cs[..i + 1]) == Rebound(db, cs[..i]);
    }
  }

  /** The places of the changes that meet a test. */
  ghost function Where(p: UnitChange -> bool, cs: seq<UnitChange>): set<nat> {
    set i: nat | i < |cs| && p(cs[i])
  }

  lemma {:induction false} CountIsNumberOfChanges(p: UnitChange -> bool, cs: seq<UnitChange>)
    ensures CountIf(p, cs) == |Where(p, cs)|
  {
    if cs == [] {
      assert Where(p, cs) == {};
    } else {
      var init, last := cs[..|cs| - 1], cs[|cs| - 1];
      CountIsNumberOfChanges(p, init);
      if p(last) {
        assert Where(p, cs) == Where(p, init) + {|init|};
      } else {
        assert Where(p, cs) == Where(p, init);
      }
    }
  }

  lemma SameTestSamePlaces(p: UnitChange -> bool, q: UnitChange -> bool, cs: seq<UnitChange>)
    requires forall c :: p(c) == q(c)
    ensures Where(p, cs) == Where(q, cs)
  {
  }

  /** The counts a committed batch reports, each change counted by what was stored for its unit. */
  ghost predicate Reports(db: Db, cs: seq<UnitChange>, r: Report) {
    var isNew := (c: UnitChange) => c.key !in db.units;
    var isSkipped := (c: UnitChange) => c.key in db.units && db.units[c.key].fingerprint == c.fingerprint;
    var isHidden := (c: UnitChange) => (isNew(c) || !isSkipped(c)) && c.hidden;
    && r.discovered == |cs| == r.newUnits + r.changedUnits + r.skippedUnits
    && r.newUnits == |Where(isNew, cs)|
    && r.skippedUnits == |Where(isSkipped, cs)|
    && r.hiddenUnits == |Where(isHidden, cs)|
    && r.hiddenUnits + r.chunksIndexed == r.newUnits + r.changedUnits
    && r.reboundUnits == |Rebound(db, cs)|
  }

  function HiddenIn(db: Db): UnitChange -> bool {
    (c: UnitChange) => Differs(db, c) && c.hidden
  }

  lemma CountsAreReported(db: Db, cs: seq<UnitChange>, r: Report)
    requires r.discovered == |cs| == r.newUnits + r.changedUnits + r.skippedUnits
    requires r.newUnits == CountIf(NewIn(db), cs) && r.skippedUnits == CountIf(SkippedIn(db), cs)
    requires r.hiddenUnits == CountIf(HiddenIn(db), cs)
    requires r.hiddenUnits + r.chunksIndexed == r.newUnits + r.changedUnits
    requires r.reboundUnits == |Rebound(db, cs)|
    ensures Reports(db, cs, r)
  {
    var isNew := (c: UnitChange) => c.key !in db.units;
    var isSkipped := (c: UnitChange) => c.key in db.units && db.units[c.key].fingerprint == c.fingerprint;
    var isHidden := (c: UnitChange) => (isNew(c) || !isSkipped(c)) && c.hidden;
    CountIsNumberOfChanges(NewIn(db), cs);
    CountIsNumberOfChanges(SkippedIn(db), cs);
    CountIsNumberOfChanges(HiddenIn(db), cs);
    SameTestSamePlaces(NewIn(db), isNew, cs);
    SameTestSamePlaces(SkippedIn(db), isSkipped, cs);
    SameTestSamePlaces(HiddenIn(db), isHidden, cs);
  }

  class AppStore {
    /** What is committed, and what the open transaction sees. */
    var db: Db
    var work: Db
    /** How many statements still go through before one raises. */
    var callsLeft: nat

    constructor (callsLeft: nat)
      ensures db == work == EMPTY && this.callsLeft == callsLeft
    {
      db, work, this.callsLeft := EMPTY, EMPTY, callsLeft;
    }

    method Call() returns (ok: bool)
      modifies this`callsLeft
      ensures ok <==> old(callsLeft) > 0
      ensures callsLeft == if ok then old(callsLeft) - 1 else 0
    {
      ok := callsLeft > 0;
      callsLeft := if ok then callsLeft - 1 else 0;
    }

    /** ROLLBACK, and the error diagnostic in a statement of its own. */
    method Rollback(error: string)
      modifies this`db, this`work
      ensures db == work == Failed(old(db), error)
    {
      db := db.(checkpoint := db.checkpoint.(error := Some(error)));
      work := db;
    }

    /** Which changes need indexing, counted against the committed store before anything is written. */
    method Classify(cs: seq<UnitChange>) returns (toIndex: seq<UnitChange>, r: Report)
      ensures toIndex == ToIndex(db, cs)
      ensures Reports(db, cs, r.(chunksIndexed := |toIndex|, reboundUnits := |Rebound(db, cs)|))
      ensures r.reboundUnits == 0
    {
      var d := db;
      toIndex := [];
      var newUnits, changed, skipped, hidden := 0, 0, 0, 0;
      for i := 0 to |cs|
        invariant toIndex == ToIndex(d, cs[..i]) && newUnits + changed + skipped == i
        invariant newUnits == CountIf(NewIn(d), cs[..i]) && skipped == CountIf(SkippedIn(d), cs[..i])
        invariant hidden == CountIf(HiddenIn(d), cs[..i])
        invariant changed >= 0 && hidden >= 0 && hidden + |toIndex| == newUnits + changed
      {
        var c := cs[i];
        PrefixSteps(d, cs, i);
        CountStep(NewIn(d), cs, i);
        CountStep(SkippedIn(d), cs, i);
        CountStep(HiddenIn(d), cs, i);
        if c.key !in db.units {
          newUnits := newUnits + 1;
        } else if Differs(db, c) {
          changed := changed + 1;
        } else {
          skipped := skipped + 1;
          continue;
        }
        if c.hidden {
          hidden := hidden + 1;
          continue;
        }
        toIndex := toIndex + [c];
      }
      assert cs[..|cs|] == cs;
      r := Report(|cs|, newUnits, changed, skipped, hidden, 0, 0);
      CountsAreReported(d, cs, r.(chunksIndexed := |toIndex|, reboundUnits := |Rebound(d, cs)|));
    }

    /** The write loop over all changes: bindings, fingerprints, and the chunks of changed units dropped. */
    method WriteUnits(cs: seq<UnitChange>) returns (ok: bool, rebound: nat)
      modifies this`work, this`callsLeft
      ensures ok <==> old(callsLeft) >= |cs|
      ensures ok ==> callsLeft == old(callsLeft) - |cs|
      ensures ok ==> work == UpsertUnits(old(work), cs) && rebound == |Rebound(old(work), cs)|
    {
      rebound := 0;
      for i := 0 to |cs|
        invariant db == old(db) && callsLeft == old(callsLeft) - i && work == UpsertUnits(old(work), cs[..i])
        invariant rebound == |Rebound(old(work), cs[..i])|
      {
        ok := Call();
        if !ok { return; }
        PrefixSteps(old(work), cs, i);
        ReboundStep(old(work), cs, i);
        if IsInactive(work, cs[i].key.doc) {
          rebound := rebound + 1;
        }
        work := UpsertUnit(work, cs[i]);
      }
      assert cs[..|cs|] == cs;
      ok := true;
    }

    /** The chunk and provenance rows of the indexed changes. */
    method WriteChunks(cs: seq<UnitChange>) returns (ok: bool)
      modifies this`work, this`callsLeft
      ensures ok <==> old(callsLeft) >= |cs|
      ensures ok ==> callsLeft == old(callsLeft) - |cs|
      ensures ok ==> work == InsertChunks(old(work), cs)
    {
      for i := 0 to |cs|
        invariant db == old(db) && callsLeft == old(callsLeft) - i && work == InsertChunks(old(work), cs[..i])
      {
        ok := Call();
        if !ok { return; }
        PrefixSteps(old(work), cs, i);
        work := InsertChunk(work, cs[i]);
      }
      assert cs[..|cs|] == cs;
      ok := true;
    }

    /** The checkpoint as the last write, then COMMIT. */
    method CommitCheckpoint(cursor: Option<string>) returns (ok: bool)
      modifies this
      ensures ok <==> old(callsLeft) >= 2
      ensures ok ==> db == work == Committed(old(work), cursor)
      ensures !ok ==> db == old(db)
    {
      ok := Call();
      if !ok { return; }
      work := Committed(work, cursor);
      ok := Call();
      if ok {
        db := work;
      }
    }

    /** BEGIN to COMMIT for a batch with changes. */
    method Transact(b: Batch, toIndex: seq<UnitChange>) returns (ok: bool, rebound: nat)
      requires work == db && b.changes != [] && toIndex == ToIndex(db, b.changes)
      modifies this
      ensures ok <==> old(callsLeft) >= |b.changes| + |toIndex| + 2
      ensures ok ==> db == work == Ingested(old(db), b) && rebound == |Rebound(old(db), b.changes)|
      ensures !ok ==> db == old(db)
    {
      ok, rebound := WriteUnits(b.changes);
      if !ok { return; }
      ok := WriteChunks(toIndex);
      if !ok { return; }
      ok := CommitCheckpoint(b.cursor);
    }

    /**
     * `_ingest_application_source`: the whole batch commits with its checkpoint, or nothing of it does and
     * only the error is recorded (not even that for an empty batch).
     */
    method Ingest(b: Batch, error: string) returns (ok: bool, r: Report)
      requires work == db
      modifies this
      ensures work == db
      ensures ok ==> db == Ingested(old(db), b) && Reports(old(db), b.changes, r)
      ensures !ok ==> db == if b.changes == [] then old(db) else Failed(old(db), error)
      ensures ok <==> old(callsLeft) >= |b.changes| + |ToIndex(old(db), b.changes)| + 2
    {
      if b.changes == [] {
        r := Report(0, 0, 0, 0, 0, 0, 0);
        CountsAreReported(db, [], r);
        ok := CommitCheckpoint(NextCursor(db, b));
        work := db;
        return;
      }
      var toIndex;
      toIndex, r := Classify(b.changes);
      var rebound;
      ok, rebound := Transact(b, toIndex);
      if !ok {
        Rollback(error);
        return;
      }
      r := r.(reboundUnits := rebound, chunksIndexed := |toIndex|);
    }
  }
}
