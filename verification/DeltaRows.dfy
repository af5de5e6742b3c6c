/** What a whole sync leaves at every record, in terms of the manifest's rows. */
module DeltaRows {
  import opened DeltaTypes
  import opened Wrappers
  import opened DeltaIdentifiers
  import opened DeltaOps
  import opened DeltaPlan
  import opened DeltaConvergence
  import opened DeltaGraph
  import opened DeltaMeaning
  import opened DeltaBatching
  import opened DeltaStoredRows
  import opened DeltaAccounting

  // ---- the rows of a section ----

  predicate Plain(name: PhaseName) {
    name !in {Tombstones, Graph, CheckpointCandidate}
  }

  function SectionOf(m: Manifest, name: PhaseName): Section
    requires Plain(name)
  {
    match name
    case Documents => m.documents
    case SourceUnits => m.sourceUnits
    case Chunks => m.chunks
    case ChunkFileBindings => m.chunkFileBindings
    case Provenance => m.provenance
    case ResourceBindings => m.resourceBindings
    case Fingerprints => m.fingerprints
    case Embeddings => m.embeddings
    case VectorComponents => m.vectorComponents
    case Feedback => m.feedback
  }

  /** The rows a section upserts, in the order they are written. */
  function RowsOf(m: Manifest, name: PhaseName): seq<Change>
    requires Plain(name)
  {
    SectionPhase(name, SectionOf(m, name)).rows
  }

  /** The last row of a section for one record. */
  function LastRow(name: PhaseName, rows: seq<Change>, k: Key): (last: Option<Change>)
    ensures last.Some? ==> last.value in rows && SectionKey(name, last.value) == k
    ensures last.None? ==> forall c | c in rows :: SectionKey(name, c) != k
  {
    if rows == [] then None
    else
      var c := rows[|rows| - 1];
      if SectionKey(name, c) == k then Some(c) else LastRow(name, rows[..|rows| - 1], k)
  }

  /** The last graph row for one record. */
  function LastGraphRow(rows: seq<Change>, k: Key): (last: Option<Change>)
    ensures last.Some? ==> last.value in rows && GraphKey(last.value) == k
    ensures last.None? ==> forall c | c in rows :: GraphKey(c) != k
  {
    if rows == [] then None
    else
      var c := rows[|rows| - 1];
      if GraphKey(c) == k then Some(c) else LastGraphRow(rows[..|rows| - 1], k)
  }

  /** Upserting a section's rows in order leaves a record with its last row's payload. */
  lemma {:induction false} RowsMean(
    cfg: Config, name: PhaseName, rows: seq<Change>, e: Store, k: Key, x: Option<Row>)
    requires Plain(name)
    ensures RunCell(RowOps(cfg, name, rows, e), k, x) ==
            var last := LastRow(name, rows, k);
            if last.Some? then Some(Payload(cfg, name, last.value, e)) else x
  {
    if rows == [] {
    } else {
      var init, c := rows[..|rows| - 1], rows[|rows| - 1];
      assert rows == init + [c];
      RowOpsConcat(cfg, name, init, [c], e);
      RowsMean(cfg, name, init, e, k, x);
      RunCellConcat(RowOps(cfg, name, init, e), RowOps(cfg, name, [c], e), k, x);
      OneRow(cfg, name, c, e, k, RunCell(RowOps(cfg, name, init, e), k, x));
    }
  }

  lemma OneRow(cfg: Config, name: PhaseName, c: Change, e: Store, k: Key, x: Option<Row>)
    requires Plain(name)
    ensures RunCell(RowOps(cfg, name, [c], e), k, x) ==
            if SectionKey(name, c) == k then Some(Payload(cfg, name, c, e)) else x
  {
    var ops := RowOps(cfg, name, [c], e);
    assert ops[0] == Upsert(SectionKey(name, c), Payload(cfg, name, c, e));
    assert ops[1..] == [];
  }

  lemma {:induction false} NodesMean(cfg: Config, rows: seq<Change>, k: Key, x: Option<Row>)
    requires k.table != "relations"
    ensures RunCell(NodeOps(Items(cfg, rows)), k, x) ==
            var last := LastGraphRow(rows, k);
            if last.Some? then Some(GraphPayload(cfg, last.value)) else x
  {
    if rows == [] {
    } else {
      var init, c := rows[..|rows| - 1], rows[|rows| - 1];
      assert rows == init + [c];
      ItemsConcat(cfg, init, [c]);
      NodeOpsConcat(Items(cfg, init), Items(cfg, [c]));
      NodesMean(cfg, init, k, x);
      RunCellConcat(NodeOps(Items(cfg, init)), NodeOps(Items(cfg, [c])), k, x);
      OneNode(GraphItem(GraphKey(c), GraphPayload(cfg, c)), k, RunCell(NodeOps(Items(cfg, init)), k, x));
      assert Items(cfg, [c]) == [GraphItem(GraphKey(c), GraphPayload(cfg, c))];
    }
  }

  lemma OneNode(item: GraphItem, k: Key, x: Option<Row>)
    requires k.table != "relations"
    ensures RunCell(NodeOps([item]), k, x) == if item.key == k then Some(item.payload) else x
  {
    assert [item][1..] == [];
    if !item.IsRelation() {
      assert NodeOps([item]) == [Upsert(item.key, item.payload)];
    }
  }

  // ---- phases that leave a table alone ----

  predicate GraphTable(table: string) {
    NodeTable(table) || table == "relations"
  }

  /** All graph rows are for graph tables; `write_graph` raises on any other, so such a run never finishes. */
  ghost predicate GraphTablesOnly(rows: seq<Change>) {
    forall c | c in rows :: GraphTable(GraphKey(c).table)
  }

  /** A phase that neither deletes nor writes a record of the table. */
  ghost predicate Quiet(p: Phase, table: string) {
    && p.name != Tombstones
    && (if p.name == Graph then GraphTablesOnly(p.rows) && !GraphTable(table) else TableOf(p.name) != table)
  }

  lemma QuietPhase(cfg: Config, c: Checkpoint, size: nat, p: Phase, s: Store, k: Key)
    requires size > 0 && Quiet(p, k.table)
    ensures Cell(RunPhase(cfg, c, size, p, s), k) == Cell(s, k)
  {
    var e := EmbeddingsIn(s);
    var ops := PhaseOps(cfg, c, size, p, e);
    RunIsLocal(ops, s, k);
    if p.name == Graph {
      NodesOfBatches(cfg, Batches(p.rows, size), e, s, k);
      FlatBatches(p.rows, size);
      NodesMean(cfg, p.rows, k, Cell(s, k));
    } else if p.name != CheckpointCandidate {
      SectionOpsIgnoreBatchSize(cfg, p.name, p.rows, size, e);
      RowsMean(cfg, p.name, p.rows, e, k, Cell(s, k));
    } else {
      assert ops == [Upsert(CheckpointKey(cfg), CheckpointPayload(cfg, c))] && ops[1..] == [];
    }
  }

  lemma {:induction false} QuietPhases(cfg: Config, c: Checkpoint, size: nat, ps: seq<Phase>, s: Store, k: Key)
    requires size > 0 && forall i | 0 <= i < |ps| :: Quiet(ps[i], k.table)
    ensures Cell(RunPhases(cfg, c, size, ps, [], s), k) == Cell(s, k)
  {
    if ps == [] {
    } else {
      QuietPhase(cfg, c, size, ps[0], s, k);
      QuietPhases(cfg, c, size, ps[1..], RunPhase(cfg, c, size, ps[0], s), k);
    }
  }

  lemma QuietTail(cfg: Config, c: Checkpoint, size: nat, ps: seq<Phase>, n: nat, s: Store, k: Key)
    requires size > 0 && n <= |ps| && forall i | n <= i < |ps| :: Quiet(ps[i], k.table)
    ensures Cell(RunPhases(cfg, c, size, ps, [], s), k) == Cell(RunPhases(cfg, c, size, ps[..n], [], s), k)
  {
    var first, rest := ps[..n], ps[n..];
    assert ps == first + rest;
    RunPhasesConcat(cfg, c, size, first, rest, [], s);
    assert forall i | 0 <= i < |rest| :: rest[i] == ps[n + i];
    QuietPhases(cfg, c, size, rest, RunPhases(cfg, c, size, first, [], s), k);
  }

  /** The store a manifest's n-th phase starts from. */
  ghost function Reached(cfg: Config, m: Manifest, size: nat, n: nat, s: Store): Store
    requires size > 0 && n <= 13
  {
    PhaseOrder(m);
    RunPhases(cfg, m.checkpoint, size, Phases(m)[..n], [], s)
  }

  ghost predicate QuietBut(m: Manifest, n: nat, table: string) {
    |Phases(m)| == 13 && forall i | 0 < i < 13 && i != n :: Quiet(Phases(m)[i], table)
  }

  /** Tombstones come first: before a record's phase it is gone if tombstoned, else as it was. */
  lemma BeforePhase(cfg: Config, m: Manifest, size: nat, n: nat, s: Store, k: Key)
    requires size > 0 && 0 < n <= 13 && QuietBut(m, n, k.table)
    ensures Cell(Reached(cfg, m, size, n, s), k) == if Tombstoned(m, k) then None else Cell(s, k)
  {
    var ps, c := Phases(m), m.checkpoint;
    var ops := PhaseOps(cfg, c, size, ps[0], EmbeddingsIn(s));
    assert ps[..n] == [ps[0]] + ps[1..n];
    RunPhasesConcat(cfg, c, size, [ps[0]], ps[1..n], [], s);
    TombstonePhase(cfg, m, size, s, k);
    assert forall i | 0 <= i < |ps[1..n]| :: ps[1..n][i] == ps[i + 1];
    QuietPhases(cfg, c, size, ps[1..n], RunPhases(cfg, c, size, [ps[0]], [], s), k);
  }

  lemma TombstonePhase(cfg: Config, m: Manifest, size: nat, s: Store, k: Key)
    requires size > 0 && |Phases(m)| == 13
    ensures Cell(RunPhases(cfg, m.checkpoint, size, [Phases(m)[0]], [], s), k) ==
            if Tombstoned(m, k) then None else Cell(s, k)
  {
    var p, c := Phases(m)[0], m.checkpoint;
    var ops := PhaseOps(cfg, c, size, p, EmbeddingsIn(s));
    OnePhase(cfg, c, size, p, [], s);
    if PhaseUnits(p) == 0 {
      EmptyPhaseDoesNothing(cfg, c, size, p, s);
    }
    TombstoneOps(cfg, m, size, k, EmbeddingsIn(s));
    RunIsLocal(ops, s, k);
    DeletesMean(ops, k, Cell(s, k));
  }

  /** Behind a record's phase nothing touches it. */
  lemma AfterPhase(cfg: Config, m: Manifest, size: nat, n: nat, s: Store, k: Key)
    requires size > 0 && 0 < n < 13 && QuietBut(m, n, k.table)
    ensures Cell(Sync(cfg, m, size, s), k)
         == Cell(RunPhase(cfg, m.checkpoint, size, Phases(m)[n], Reached(cfg, m, size, n, s)), k)
  {
    QuietAround(cfg, m.checkpoint, size, Phases(m), n, s, k);
  }

  lemma QuietAround(cfg: Config, c: Checkpoint, size: nat, ps: seq<Phase>, n: nat, s: Store, k: Key)
    requires size > 0 && n < |ps| && forall i | n < i < |ps| :: Quiet(ps[i], k.table)
    ensures Cell(RunPhases(cfg, c, size, ps, [], s), k)
         == Cell(RunPhase(cfg, c, size, ps[n], RunPhases(cfg, c, size, ps[..n], [], s)), k)
  {
    QuietTail(cfg, c, size, ps, n + 1, s, k);
    OneMorePhase(cfg, c, size, ps, n, s);
  }

  lemma OneMorePhase(cfg: Config, c: Checkpoint, size: nat, ps: seq<Phase>, n: nat, s: Store)
    requires size > 0 && n < |ps|
    ensures RunPhases(cfg, c, size, ps[..n + 1], [], s)
         == RunPhase(cfg, c, size, ps[n], RunPhases(cfg, c, size, ps[..n], [], s))
  {
    assert ps[..n + 1] == ps[..n] + [ps[n]];
    RunPhasesConcat(cfg, c, size, ps[..n], [ps[n]], [], s);
    OnlyPhase(cfg, c, size, ps[n], RunPhases(cfg, c, size, ps[..n], [], s));
  }

  lemma OnlyPhase(cfg: Config, c: Checkpoint, size: nat, p: Phase, s: Store)
    requires size > 0
    ensures RunPhases(cfg, c, size, [p], [], s) == RunPhase(cfg, c, size, p, s)
  {
    assert [p][1..] == [];
  }

  // ---- which phase a table belongs to ----

  lemma TablesAreDistinct(a: PhaseName, b: PhaseName)
    requires a !in {Tombstones, Graph} && b !in {Tombstones, Graph} && a != b
    ensures TableOf(a) != TableOf(b)
  {
  }

  lemma SectionTablesAreNotGraph(a: PhaseName)
    requires a !in {Tombstones, Graph}
    ensures !GraphTable(TableOf(a)) && TableOf(a) != ""
  {
  }

  lemma PhaseAt(m: Manifest, name: PhaseName)
    ensures |Phases(m)| == 13 && Phases(m)[Position(name)].name == name
    ensures Plain(name) ==> Phases(m)[Position(name)] == Phase(name, RowsOf(m, name))
    ensures forall i | 0 <= i < 13 && i != Position(name) :: Phases(m)[i].name != name
    ensures Phases(m)[10] == Phase(Graph, GraphRows(m))
  {
    PhaseOrder(m);
    GraphPhase(m);
    UpsertPhaseAt(Sections(m));
    var n := Position(name);
    assert Position(Phases(m)[n].name) == n;
    if Plain(name) {
      assert Phases(m)[n] == UpsertPhases(Sections(m))[n - 1];
      assert Sections(m)[n - 1] == (name, SectionOf(m, name));
    }
  }

  lemma SectionIsQuietElsewhere(m: Manifest, name: PhaseName)
    requires name !in {Tombstones, Graph} && GraphTablesOnly(GraphRows(m))
    ensures QuietBut(m, Position(name), TableOf(name))
  {
    PhaseAt(m, name);
    PhaseOrder(m);
    SectionTablesAreNotGraph(name);
    forall i | 0 < i < 13 && i != Position(name)
      ensures Quiet(Phases(m)[i], TableOf(name))
    {
      var other := Phases(m)[i].name;
      assert Position(other) == i;
      if i != 10 {
        TablesAreDistinct(other, name);
      }
    }
  }

  lemma GraphIsQuietElsewhere(m: Manifest, table: string)
    requires GraphTable(table)
    ensures QuietBut(m, 10, table)
  {
    PhaseOrder(m);
    forall i | 0 < i < 13 && i != 10
      ensures Quiet(Phases(m)[i], table)
    {
      assert Position(Phases(m)[i].name) == i;
      SectionTablesAreNotGraph(Phases(m)[i].name);
    }
  }

  // ---- the meaning of a run ----

  lemma EmbeddingsAreQuiet(m: Manifest)
    requires GraphTablesOnly(GraphRows(m))
    ensures |Phases(m)| == 13 && forall i | 9 <= i < 13 :: Quiet(Phases(m)[i], "embeddings")
  {
    SectionIsQuietElsewhere(m, Embeddings);
  }

  lemma EmbeddingsStay(cfg: Config, c: Checkpoint, size: nat, ps: seq<Phase>, n: nat, s: Store)
    requires size > 0 && n <= |ps| && forall i | n <= i < |ps| :: Quiet(ps[i], "embeddings")
    ensures EmbeddingsIn(RunPhases(cfg, c, size, ps[..n], [], s)) == EmbeddingsIn(RunPhases(cfg, c, size, ps, [], s))
  {
    var mid, final := RunPhases(cfg, c, size, ps[..n], [], s), RunPhases(cfg, c, size, ps, [], s);
    forall k: Key
      ensures Cell(EmbeddingsIn(mid), k) == Cell(EmbeddingsIn(final), k)
    {
      if k.table == "embeddings" {
        QuietTail(cfg, c, size, ps, n, s, k);
        assert Cell(mid, k) == Cell(final, k);
      }
    }
    SameCellsSameStore(EmbeddingsIn(mid), EmbeddingsIn(final));
  }

  /** Vector components are prepared with the embeddings the run leaves. */
  lemma SeenEmbeddingsAreFinal(cfg: Config, m: Manifest, size: nat, s: Store)
    requires size > 0 && GraphTablesOnly(GraphRows(m))
    ensures EmbeddingsIn(Reached(cfg, m, size, 9, s)) == EmbeddingsIn(Sync(cfg, m, size, s))
  {
    EmbeddingsAreQuiet(m);
    EmbeddingsStay(cfg, m.checkpoint, size, Phases(m), 9, s);
  }

  /**
   * The meaning of a run for the ten plain sections: a record ends with the prepared payload of its
   * section's last row for it, even if it is tombstoned too; one that is only tombstoned is gone; every
   * other is untouched.
   */
  lemma SyncMeaning(cfg: Config, m: Manifest, size: nat, s: Store, name: PhaseName, k: Key)
    requires size > 0 && GraphTablesOnly(GraphRows(m)) && Plain(name) && k.table == TableOf(name)
    ensures
      var last, final := LastRow(name, RowsOf(m, name), k), Sync(cfg, m, size, s);
      Cell(final, k) ==
      if last.Some? then Some(StoredRow(cfg, name, last.value, EmbeddingsIn(final)))
      else if Tombstoned(m, k) then None else Cell(s, k)
  {
    var n, rows := Position(name), RowsOf(m, name);
    var s1 := Reached(cfg, m, size, n, s);
    PhaseAt(m, name);
    SectionIsQuietElsewhere(m, name);
    BeforePhase(cfg, m, size, n, s, k);
    AfterPhase(cfg, m, size, n, s, k);
    SectionOpsIgnoreBatchSize(cfg, name, rows, size, EmbeddingsIn(s1));
    RunIsLocal(RowOps(cfg, name, rows, EmbeddingsIn(s1)), s1, k);
    RowsMean(cfg, name, rows, EmbeddingsIn(s1), k, Cell(s1, k));
    var last := LastRow(name, rows, k);
    if last.Some? {
      PayloadIsStoredRow(cfg, name, last.value, EmbeddingsIn(s1));
    }
    if name == VectorComponents {
      SeenEmbeddingsAreFinal(cfg, m, size, s);
    }
  }

  /** Files, sections, entities and tags end with their last graph row, in whatever batches it came. */
  lemma NodeMeaning(cfg: Config, m: Manifest, size: nat, s: Store, k: Key)
    requires size > 0 && NodeTable(k.table)
    ensures
      var last := LastGraphRow(GraphRows(m), k);
      Cell(Sync(cfg, m, size, s), k) ==
      if last.Some? then Some(StoredGraphRow(cfg, last.value))
      else if Tombstoned(m, k) then None else Cell(s, k)
  {
    var rows, s1 := GraphRows(m), Reached(cfg, m, size, 10, s);
    PhaseAt(m, Graph);
    GraphIsQuietElsewhere(m, k.table);
    BeforePhase(cfg, m, size, 10, s, k);
    AfterPhase(cfg, m, size, 10, s, k);
    NodesOfBatches(cfg, Batches(rows, size), EmbeddingsIn(s1), s1, k);
    FlatBatches(rows, size);
    NodesMean(cfg, rows, k, Cell(s1, k));
    var last := LastGraphRow(rows, k);
    if last.Some? {
      GraphPayloadIsStoredRow(cfg, last.value);
    }
  }

  /**
   * A relation that a later batch sweeps is gone; else it ends with its last row; without a row it is
   * gone if tombstoned or stale for the graph rows as a whole, and untouched otherwise.
   */
  lemma RelationMeaning(cfg: Config, m: Manifest, size: nat, s: Store, k: Key)
    requires size > 0 && k.table == "relations" && Unmixed(Batches(GraphRows(m), size), s)
    ensures
      var rows := GraphRows(m);
      var last := LastGraphRow(rows, k);
      Cell(Sync(cfg, m, size, s), k) ==
      if Loses(cfg, Batches(rows, size), k) then None
      else if last.Some? then Some(StoredGraphRow(cfg, last.value))
      else if Tombstoned(m, k) || (k in s && Stale(rows, k, s[k])) then None else Cell(s, k)
  {
    var rows, s1 := GraphRows(m), Reached(cfg, m, size, 10, s);
    PhaseAt(m, Graph);
    GraphIsQuietElsewhere(m, k.table);
    BeforePhase(cfg, m, size, 10, s, k);
    AfterPhase(cfg, m, size, 10, s, k);
    RelationsAtGraphPhase(cfg, m, size, s);
    RelationRowsMean(cfg, rows, size, EmbeddingsIn(s1), s1, k);
    var last := LastGraphRow(rows, k);
    if last.Some? {
      GraphPayloadIsStoredRow(cfg, last.value);
    }
  }

  lemma RelationsAtGraphPhase(cfg: Config, m: Manifest, size: nat, s: Store)
    requires size > 0
    ensures WellKeyed(s) ==> WellKeyed(Reached(cfg, m, size, 10, s))
  {
    PhaseAt(m, Graph);
    if WellKeyed(s) {
      VanishingKeepsWellKeyed(cfg, m.checkpoint, size, Phases(m)[..10], s);
    }
  }

  lemma RelationRowsMean(cfg: Config, rows: seq<Change>, size: nat, e: Store, s: Store, k: Key)
    requires size > 0 && k.table == "relations" && Unmixed(Batches(rows, size), s)
    ensures
      var last := LastGraphRow(rows, k);
      Cell(Run(BatchesOps(cfg, Graph, Batches(rows, size), e), s), k) ==
      if Loses(cfg, Batches(rows, size), k) then None
      else if last.Some? then Some(GraphPayload(cfg, last.value))
      else if k in s && Stale(rows, k, s[k]) then None else Cell(s, k)
  {
    FlatBatches(rows, size);
    BatchedRecord(cfg, Batches(rows, size), e, s, k);
    RelationAfterPlain(cfg, rows, s, k);
    LastRowStores(cfg, rows, k);
  }

  lemma {:induction false} LastRowStores(cfg: Config, rows: seq<Change>, k: Key)
    requires k.table == "relations"
    ensures LastPayload(cfg, rows, k) ==
            var last := LastGraphRow(rows, k);
            if last.Some? then Some(GraphPayload(cfg, last.value)) else None
  {
    if rows == [] {
      assert Items(cfg, rows) == [];
    } else {
      var init, c := rows[..|rows| - 1], rows[|rows| - 1];
      assert rows == init + [c];
      LastRowStores(cfg, init, k);
      LastPayloadConcat(cfg, init, [c], k);
      OneRelation(GraphItem(GraphKey(c), GraphPayload(cfg, c)), k);
      assert Items(cfg, [c]) == [GraphItem(GraphKey(c), GraphPayload(cfg, c))];
    }
  }

  lemma OneRelation(item: GraphItem, k: Key)
    requires k.table == "relations"
    ensures PayloadsAt([item], k) == if item.key == k then [item.payload] else []
  {
    assert [item][1..] == [];
    assert PayloadsAt([], k) == [];
  }

  /**
   * The checkpoint record always ends with the manifest's cursor and source time, no error, and its
   * watermark, not advanced.
   */
  lemma CheckpointMeaning(cfg: Config, m: Manifest, size: nat, s: Store)
    requires size > 0
    ensures
      var namespace := cfg.checkpointNamespace;
      Cell(Sync(cfg, m, size, s), Key("checkpoints", namespace)) ==
      Some(cfg.prepare("checkpoints", namespace, CheckpointColumns(namespace, m.checkpoint)))
  {
    var ps, s1 := Phases(m), Reached(cfg, m, size, 12, s);
    PhaseAt(m, CheckpointCandidate);
    assert ps == ps[..12] + [ps[12]];
    RunPhasesConcat(cfg, m.checkpoint, size, ps[..12], [ps[12]], [], s);
    CheckpointPhase(cfg, m.checkpoint, size, ps[12], s1);
    CheckpointIsPrepared(cfg, m.checkpoint);
  }

  function CheckpointColumns(namespace: string, c: Checkpoint): Row {
    Entry("namespace", Text(namespace)) + Entry("checkpoint_cursor", c.cursor)
    + Entry("last_success_at", c.sourceTime) + Entry("last_error", Null)
    + Entry("metadata", Val("watermark=" + Str(c.watermark) + ",advanced=False", true))
  }

  lemma CheckpointIsPrepared(cfg: Config, c: Checkpoint)
    ensures CheckpointPayload(cfg, c) ==
            cfg.prepare("checkpoints", cfg.checkpointNamespace, CheckpointColumns(cfg.checkpointNamespace, c))
  {
    var raw := cfg.checkpointNamespace;
    assert CheckpointColumns(raw, c) ==
      map["namespace" := Text(raw), "checkpoint_cursor" := c.cursor, "last_success_at" := c.sourceTime,
          "last_error" := Null, "metadata" := Val("watermark=" + Str(c.watermark) + ",advanced=False", true)];
  }

  lemma CheckpointPhase(cfg: Config, c: Checkpoint, size: nat, p: Phase, s: Store)
    requires size > 0 && p.name == CheckpointCandidate
    ensures Cell(RunPhases(cfg, c, size, [p], [], s), CheckpointKey(cfg)) == Some(CheckpointPayload(cfg, c))
  {
    var op := Upsert(CheckpointKey(cfg), CheckpointPayload(cfg, c));
    OnePhase(cfg, c, size, p, [], s);
    assert PhaseOps(cfg, c, size, p, EmbeddingsIn(s)) == [op];
    assert [op][1..] == [] && Run([op], s) == Apply(op, s);
  }

  // ---- which row is the last, and which rows share a record ----

  lemma {:induction false} UpsertsStaySorted(rows: seq<Change>)
    requires Sorted(rows)
    ensures Sorted(UpsertsOf(rows))
    ensures forall c :: c in UpsertsOf(rows) <==> c in rows && c.tombstone.None?
  {
    if rows == [] {
    } else {
      var rest := rows[1..];
      UpsertsStaySorted(rest);
      forall c | c in UpsertsOf(rest)
        ensures !SortsBefore(c, rows[0])
      {
        var i :| 0 <= i < |rest| && rest[i] == c;
        assert rows[i + 1] == c;
      }
    }
  }

  /** The rows a section upserts: its rows without a tombstone as often as they occur, sorted; none if deferred. */
  lemma RowsOfSection(m: Manifest, name: PhaseName, c: Change)
    requires Plain(name)
    ensures Sorted(RowsOf(m, name))
    ensures multiset(RowsOf(m, name))[c] ==
            if SectionOf(m, name).deferred || c.tombstone.Some? then 0 else multiset(SectionOf(m, name).rows)[c]
  {
    var rows := SectionOf(m, name).rows;
    SortIsStable(rows, "", "");
    UpsertsStaySorted(SortChanges(rows));
    SectionPhaseRows(name, SectionOf(m, name), c);
  }

  lemma RowsAreSorted(m: Manifest, name: PhaseName)
    requires Plain(name)
    ensures Sorted(RowsOf(m, name))
    ensures !SectionOf(m, name).deferred ==>
              forall c :: c in RowsOf(m, name) <==> c in SectionOf(m, name).rows && c.tombstone.None?
  {
    var rows := SectionOf(m, name).rows;
    forall c
      ensures Sorted(RowsOf(m, name))
      ensures !SectionOf(m, name).deferred ==> (c in RowsOf(m, name) <==> c in rows && c.tombstone.None?)
    {
      RowsOfSection(m, name, c);
      assert c in RowsOf(m, name) <==> c in multiset(RowsOf(m, name));
      assert c in rows <==> c in multiset(rows);
    }
  }

  lemma {:induction false} LastRowIsLast(name: PhaseName, rows: seq<Change>, k: Key)
    requires Sorted(rows)
    ensures
      var last := LastRow(name, rows, k);
      last.Some? ==> forall d | d in rows && SectionKey(name, d) == k :: !SortsBefore(last.value, d)
  {
    if rows == [] {
    } else {
      var init, c := rows[..|rows| - 1], rows[|rows| - 1];
      LastRowIsLast(name, init, k);
      forall d | d in rows
        ensures d == c || (d in init && !SortsBefore(c, d))
      {
        var i :| 0 <= i < |rows| && rows[i] == d;
        assert i < |init| ==> init[i] == d;
      }
      LexTotal(c.table, c.table);
      LexTotal(c.ref, c.ref);
    }
  }

  /** Of a section's rows for one record the one written last has the greatest (table, ref). */
  lemma LastRowSortsLast(m: Manifest, name: PhaseName, k: Key)
    requires Plain(name) && !SectionOf(m, name).deferred
    ensures
      var last := LastRow(name, RowsOf(m, name), k);
      last.Some? ==> forall d | d in SectionOf(m, name).rows && d.tombstone.None? && SectionKey(name, d) == k ::
                       !SortsBefore(last.value, d)
  {
    RowsAreSorted(m, name);
    LastRowIsLast(name, RowsOf(m, name), k);
  }

  /** The sections whose records are named by several columns. */
  predicate Compound(name: PhaseName) {
    name in {SourceUnits, ChunkFileBindings, Provenance, ResourceBindings, Embeddings, VectorComponents}
  }

  /** A row named by its identifying columns, which are all present and free of the separator. */
  ghost predicate NamedByColumns(name: PhaseName, c: Change) {
    && NoOwnColumn(TableOf(name), c.row) && Parts(TableOf(name), c.row).Some?
    && forall text | text in Parts(TableOf(name), c.row).value :: SeparatorFree(text)
  }

  lemma PartsAreSome(table: string, row: Row)
    ensures Parts(table, row).Some? ==> Parts(table, row).value != []
  {
  }

  /** Rows named by their columns share a record if and only if those columns are equal. */
  lemma SameRecordExactly(name: PhaseName, c: Change, d: Change)
    requires Compound(name) && NamedByColumns(name, c) && NamedByColumns(name, d)
    ensures SectionKey(name, c) == SectionKey(name, d) <==>
            Parts(TableOf(name), c.row) == Parts(TableOf(name), d.row)
  {
    NoDocuments(name);
    IdentifierFromParts(TableOf(name), c);
    IdentifierFromParts(TableOf(name), d);
    PartsAreSome(TableOf(name), c.row);
    PartsAreSome(TableOf(name), d.row);
    if SectionKey(name, c) == SectionKey(name, d) {
      JoinInjective(Parts(TableOf(name), c.row).value, Parts(TableOf(name), d.row).value);
    }
  }

  lemma {:induction false} LastOfItsKind(name: PhaseName, rows: seq<Change>, i: nat)
    requires i < |rows| && forall j | i < j < |rows| :: SectionKey(name, rows[j]) != SectionKey(name, rows[i])
    ensures LastRow(name, rows, SectionKey(name, rows[i])) == Some(rows[i])
  {
    if i < |rows| - 1 {
      LastOfItsKind(name, rows[..|rows| - 1], i);
    }
  }

  /** A row no later row of its section shares the identifying columns with is stored, whatever was there. */
  lemma RowStands(cfg: Config, m: Manifest, size: nat, s: Store, name: PhaseName, i: nat)
    requires size > 0 && GraphTablesOnly(GraphRows(m)) && Compound(name) && i < |RowsOf(m, name)|
    requires forall c | c in RowsOf(m, name) :: NamedByColumns(name, c)
    requires
      var rows := RowsOf(m, name);
      forall j | i < j < |rows| :: Parts(TableOf(name), rows[j].row) != Parts(TableOf(name), rows[i].row)
    ensures
      var c, final := RowsOf(m, name)[i], Sync(cfg, m, size, s);
      Cell(final, SectionKey(name, c)) == Some(StoredRow(cfg, name, c, EmbeddingsIn(final)))
  {
    var rows := RowsOf(m, name);
    forall j | i < j < |rows|
      ensures SectionKey(name, rows[j]) != SectionKey(name, rows[i])
    {
      SameRecordExactly(name, rows[j], rows[i]);
    }
    LastOfItsKind(name, rows, i);
    SyncMeaning(cfg, m, size, s, name, SectionKey(name, rows[i]));
  }

  // ---- what is counted ----

  /**
   * The units of a manifest are those of its thirteen phases: a unit for each tombstone, for each row that a
   * section upserts, and for the checkpoint.
   */
  lemma TotalUnitsAreRows(m: Manifest)
    ensures |Phases(m)| == 13
    ensures
      var ps := Phases(m);
      && TotalUnits(ps) == PhaseUnits(ps[0]) + PhaseUnits(ps[1]) + PhaseUnits(ps[2]) + PhaseUnits(ps[3])
                           + PhaseUnits(ps[4]) + PhaseUnits(ps[5]) + PhaseUnits(ps[6]) + PhaseUnits(ps[7])
                           + PhaseUnits(ps[8]) + PhaseUnits(ps[9]) + PhaseUnits(ps[10]) + PhaseUnits(ps[11])
                           + PhaseUnits(ps[12])
      && PhaseUnits(ps[0]) == |ps[0].rows| && PhaseUnits(ps[10]) == |GraphRows(m)| && PhaseUnits(ps[12]) == 1
      && forall name | Plain(name) :: Position(name) < 13 && PhaseUnits(ps[Position(name)]) == |RowsOf(m, name)|
  {
    PhaseAt(m, Graph);
    PhaseAt(m, CheckpointCandidate);
    PhaseAt(m, Tombstones);
    UnitsOfThirteen(Phases(m));
    forall name | Plain(name)
      ensures Position(name) < 13 && PhaseUnits(Phases(m)[Position(name)]) == |RowsOf(m, name)|
    {
      PhaseAt(m, name);
    }
  }

  lemma UnitsOfThirteen(ps: seq<Phase>)
    requires |ps| == 13
    ensures TotalUnits(ps) == PhaseUnits(ps[0]) + PhaseUnits(ps[1]) + PhaseUnits(ps[2]) + PhaseUnits(ps[3])
                              + PhaseUnits(ps[4]) + PhaseUnits(ps[5]) + PhaseUnits(ps[6]) + PhaseUnits(ps[7])
                              + PhaseUnits(ps[8]) + PhaseUnits(ps[9]) + PhaseUnits(ps[10]) + PhaseUnits(ps[11])
                              + PhaseUnits(ps[12])
  {
    UnitsFrom(ps, 0);
    UnitsFrom(ps, 1);
    UnitsFrom(ps, 2);
    UnitsFrom(ps, 3);
    UnitsFrom(ps, 4);
    UnitsFrom(ps, 5);
    UnitsFrom(ps, 6);
    UnitsFrom(ps, 7);
    UnitsFrom(ps, 8);
    UnitsFrom(ps, 9);
    UnitsFrom(ps, 10);
    UnitsFrom(ps, 11);
    UnitsFrom(ps, 12);
    assert ps[0..] == ps && ps[13..] == [];
  }

  lemma UnitsFrom(ps: seq<Phase>, i: nat)
    requires i < |ps|
    ensures TotalUnits(ps[i..]) == PhaseUnits(ps[i]) + TotalUnits(ps[i + 1..])
  {
    assert ps[i..][1..] == ps[i + 1..];
  }
}
