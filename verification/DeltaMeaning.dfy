/** A whole sync as one operation sequence, and why syncing again changes nothing. */
module DeltaMeaning {
  import opened DeltaTypes
  import opened Wrappers
  import opened DeltaIdentifiers
  import opened DeltaOps
  import opened DeltaPlan
  import opened DeltaConvergence

  /** All operations of a plan, with one fixed view of the embeddings. */
  ghost function PlanOps(cfg: Config, c: Checkpoint, size: nat, ps: seq<Phase>, e: Store): seq<Op>
    requires size > 0
  {
    if ps == [] then [] else PhaseOps(cfg, c, size, ps[0], e) + PlanOps(cfg, c, size, ps[1..], e)
  }

  lemma PhaseIgnoresEmbeddings(cfg: Config, c: Checkpoint, size: nat, p: Phase, e: Store, e': Store)
    requires size > 0 && p.name != VectorComponents
    ensures PhaseOps(cfg, c, size, p, e) == PhaseOps(cfg, c, size, p, e')
  {
    if p.name != CheckpointCandidate {
      BatchesIgnoreEmbeddings(cfg, p.name, Batches(p.rows, size), e, e');
    }
  }

  /** Phases other than vector components run the same operations whatever view of the embeddings is taken. */
  lemma {:induction false} PlainPlan(cfg: Config, c: Checkpoint, size: nat, ps: seq<Phase>, e: Store, s: Store)
    requires size > 0 && forall i | 0 <= i < |ps| :: ps[i].name != VectorComponents
    ensures RunPhases(cfg, c, size, ps, [], s) == Run(PlanOps(cfg, c, size, ps, e), s)
  {
    if ps == [] {
    } else {
      PhaseIgnoresEmbeddings(cfg, c, size, ps[0], EmbeddingsIn(s), e);
      var ops := PhaseOps(cfg, c, size, ps[0], e);
      RunConcat(ops, PlanOps(cfg, c, size, ps[1..], e), s);
      PlainPlan(cfg, c, size, ps[1..], e, Run(ops, s));
    }
  }

  lemma {:induction false} PlanOpsConcat(cfg: Config, c: Checkpoint, size: nat, a: seq<Phase>, b: seq<Phase>, e: Store)
    requires size > 0
    ensures PlanOps(cfg, c, size, a + b, e) == PlanOps(cfg, c, size, a, e) + PlanOps(cfg, c, size, b, e)
  {
    if a == [] {
      assert a + b == b;
    } else {
      assert (a + b)[1..] == a[1..] + b;
      PlanOpsConcat(cfg, c, size, a[1..], b, e);
    }
  }

  /** The view of the embeddings the vector components are prepared with. */
  ghost function EmbeddingsSeen(cfg: Config, c: Checkpoint, size: nat, ps: seq<Phase>, n: nat, s: Store): Store
    requires size > 0 && n <= |ps|
  {
    EmbeddingsIn(RunPhases(cfg, c, size, ps[..n], [], s))
  }

  lemma PlanOpsOfOne(cfg: Config, c: Checkpoint, size: nat, p: Phase, e: Store)
    requires size > 0
    ensures PlanOps(cfg, c, size, [p], e) == PhaseOps(cfg, c, size, p, e)
  {
    var ops := PhaseOps(cfg, c, size, p, e);
    assert PlanOps(cfg, c, size, [p], e) == ops + PlanOps(cfg, c, size, [p][1..], e);
    assert ops + [] == ops;
  }

  lemma OneReader(cfg: Config, c: Checkpoint, size: nat, p: Phase, s: Store)
    requires size > 0
    ensures RunPhases(cfg, c, size, [p], [], s) == Run(PlanOps(cfg, c, size, [p], EmbeddingsIn(s)), s)
  {
    OnePhase(cfg, c, size, p, [], s);
    PlanOpsOfOne(cfg, c, size, p, EmbeddingsIn(s));
    if PhaseUnits(p) == 0 {
      EmptyPhaseDoesNothing(cfg, c, size, p, s);
    }
  }

  lemma {:induction false} ThreePartsOneSequence(
    cfg: Config, c: Checkpoint, size: nat, a: seq<Phase>, p: Phase, b: seq<Phase>, s: Store)
    requires size > 0
    requires forall i | 0 <= i < |a| :: a[i].name != VectorComponents
    requires forall i | 0 <= i < |b| :: b[i].name != VectorComponents
    ensures
      var e := EmbeddingsIn(RunPhases(cfg, c, size, a, [], s));
      RunPhases(cfg, c, size, a + ([p] + b), [], s) == Run(PlanOps(cfg, c, size, a + ([p] + b), e), s)
  {
    var s1 := RunPhases(cfg, c, size, a, [], s);
    var e := EmbeddingsIn(s1);
    var x, y, z := PlanOps(cfg, c, size, a, e), PlanOps(cfg, c, size, [p], e), PlanOps(cfg, c, size, b, e);
    PlainPlan(cfg, c, size, a, e, s);
    OneReader(cfg, c, size, p, s1);
    PlainPlan(cfg, c, size, b, e, Run(y, s1));
    RunPhasesConcat(cfg, c, size, a, [p] + b, [], s);
    RunPhasesConcat(cfg, c, size, [p], b, [], s1);
    PlanOpsConcat(cfg, c, size, a, [p] + b, e);
    PlanOpsConcat(cfg, c, size, [p], b, e);
    RunConcat(x, y + z, s);
    RunConcat(y, z, s1);
  }

  /** A plan whose n-th phase alone reads the embeddings is one operation sequence. */
  lemma {:induction false} PlanIsOneSequence(cfg: Config, c: Checkpoint, size: nat, ps: seq<Phase>, n: nat, s: Store)
    requires size > 0 && n < |ps|
    requires forall i | 0 <= i < |ps| && i != n :: ps[i].name != VectorComponents
    ensures RunPhases(cfg, c, size, ps, [], s)
         == Run(PlanOps(cfg, c, size, ps, EmbeddingsSeen(cfg, c, size, ps, n, s)), s)
  {
    assert ps == ps[..n] + ([ps[n]] + ps[n + 1..]);
    ThreePartsOneSequence(cfg, c, size, ps[..n], ps[n], ps[n + 1..], s);
  }

  // ---- syncing again ----

  /** No graph row is for the embeddings table: `write_graph` raises on such a row, so no run would finish. */
  ghost predicate GraphSparesEmbeddings(rows: seq<Change>) {
    forall c | c in rows :: GraphKey(c).table != "embeddings"
  }

  lemma {:induction false} NodesAvoid(items: seq<GraphItem>, table: string)
    requires forall i | i in items :: i.key.table != table
    ensures Avoids(NodeOps(items) + RelationOps(items), table)
  {
    if items == [] {
    } else {
      NodesAvoid(items[1..], table);
      var all, rest := NodeOps(items) + RelationOps(items), NodeOps(items[1..]) + RelationOps(items[1..]);
      assert forall op | op in all :: op in rest || op == Upsert(items[0].key, items[0].payload);
    }
  }

  lemma AvoidsConcat(a: seq<Op>, b: seq<Op>, table: string)
    requires Avoids(a, table) && Avoids(b, table)
    ensures Avoids(a + b, table)
  {
  }

  lemma {:induction false} GraphBatchesAvoidEmbeddings(cfg: Config, bs: seq<seq<Change>>, e: Store)
    requires forall b | b in bs :: GraphSparesEmbeddings(b)
    ensures Avoids(BatchesOps(cfg, Graph, bs, e), "embeddings")
  {
    if bs == [] {
    } else {
      GraphBatchesAvoidEmbeddings(cfg, bs[1..], e);
      assert bs[0] in bs;
      var items := Items(cfg, bs[0]);
      NodesAvoid(items, "embeddings");
      SweepAvoidsEmbeddings(bs[0]);
      var sweep, writes := [SweepOf(bs[0])], NodeOps(items) + RelationOps(items);
      AvoidsConcat(sweep, writes, "embeddings");
      assert PlainBatchOps(SweepOf(bs[0]), items) == sweep + writes;
      AvoidsConcat(sweep + writes, BatchesOps(cfg, Graph, bs[1..], e), "embeddings");
    }
  }

  lemma SweepAvoidsEmbeddings(rows: seq<Change>)
    ensures Avoids([SweepOf(rows)], "embeddings")
  {
  }

  lemma {:induction false} BatchesKeepRows(rows: seq<Change>, size: nat)
    requires size > 0
    ensures forall b, c | b in Batches(rows, size) && c in b :: c in rows
    decreases |rows|
  {
    if |rows| > size {
      BatchesKeepRows(rows[size..], size);
      assert forall b | b in Batches(rows, size) :: b == rows[..size] || b in Batches(rows[size..], size);
    }
  }

  lemma PhaseAvoidsEmbeddings(cfg: Config, c: Checkpoint, size: nat, p: Phase, e: Store)
    requires size > 0 && p.name !in {Tombstones, Embeddings}
    requires p.name == Graph ==> GraphSparesEmbeddings(p.rows)
    ensures Avoids(PhaseOps(cfg, c, size, p, e), "embeddings")
  {
    if p.name == Graph {
      BatchesKeepRows(p.rows, size);
      GraphBatchesAvoidEmbeddings(cfg, Batches(p.rows, size), e);
    } else if p.name != CheckpointCandidate {
      SectionOpsIgnoreBatchSize(cfg, p.name, p.rows, size, e);
      EmbeddingsTable(p.name);
    }
  }

  lemma {:induction false} PlanAvoidsEmbeddings(cfg: Config, c: Checkpoint, size: nat, ps: seq<Phase>, e: Store)
    requires size > 0
    requires forall i | 0 <= i < |ps| :: ps[i].name !in {Tombstones, Embeddings}
    requires forall i | 0 <= i < |ps| :: ps[i].name == Graph ==> GraphSparesEmbeddings(ps[i].rows)
    ensures Avoids(PlanOps(cfg, c, size, ps, e), "embeddings")
  {
    if ps == [] {
    } else {
      PhaseAvoidsEmbeddings(cfg, c, size, ps[0], e);
      PlanAvoidsEmbeddings(cfg, c, size, ps[1..], e);
      AvoidsConcat(PhaseOps(cfg, c, size, ps[0], e), PlanOps(cfg, c, size, ps[1..], e), "embeddings");
    }
  }

  /** A second run prepares its vector components from the same embeddings as the first. */
  lemma {:induction false} SecondRunSeesSameEmbeddings(
    cfg: Config, c: Checkpoint, size: nat, ps: seq<Phase>, n: nat, s: Store)
    requires size > 0 && n < |ps|
    requires forall i | 0 <= i < |ps| && i != n :: ps[i].name != VectorComponents
    requires forall i | n <= i < |ps| :: ps[i].name !in {Tombstones, Embeddings}
    requires forall i | n <= i < |ps| :: ps[i].name == Graph ==> GraphSparesEmbeddings(ps[i].rows)
    ensures EmbeddingsSeen(cfg, c, size, ps, n, RunPhases(cfg, c, size, ps, [], s))
         == EmbeddingsSeen(cfg, c, size, ps, n, s)
  {
    var e := EmbeddingsSeen(cfg, c, size, ps, n, s);
    RestAvoidsEmbeddings(cfg, c, size, ps, n, e);
    FirstPartSettles(cfg, c, size, ps, n, e, s);
    PlanIsOneSequence(cfg, c, size, ps, n, s);
  }

  lemma RestAvoidsEmbeddings(cfg: Config, c: Checkpoint, size: nat, ps: seq<Phase>, n: nat, e: Store)
    requires size > 0 && n < |ps|
    requires forall i | n <= i < |ps| :: ps[i].name !in {Tombstones, Embeddings}
    requires forall i | n <= i < |ps| :: ps[i].name == Graph ==> GraphSparesEmbeddings(ps[i].rows)
    ensures Avoids(PlanOps(cfg, c, size, ps[n..], e), "embeddings")
  {
    assert forall i | 0 <= i < |ps[n..]| :: ps[n..][i] == ps[n + i];
    PlanAvoidsEmbeddings(cfg, c, size, ps[n..], e);
  }

  lemma FirstPartSettles(cfg: Config, c: Checkpoint, size: nat, ps: seq<Phase>, n: nat, e: Store, s: Store)
    requires size > 0 && n < |ps| && forall i | 0 <= i < n :: ps[i].name != VectorComponents
    requires Avoids(PlanOps(cfg, c, size, ps[n..], e), "embeddings")
    ensures EmbeddingsIn(RunPhases(cfg, c, size, ps[..n], [], Run(PlanOps(cfg, c, size, ps, e), s)))
         == EmbeddingsIn(RunPhases(cfg, c, size, ps[..n], [], s))
  {
    var first := ps[..n];
    var a, b := PlanOps(cfg, c, size, first, e), PlanOps(cfg, c, size, ps[n..], e);
    PlanOpsConcat(cfg, c, size, first, ps[n..], e);
    assert ps == first + ps[n..];
    PlainPlan(cfg, c, size, first, e, s);
    PlainPlan(cfg, c, size, first, e, Run(a + b, s));
    EmbeddingsSettle(a, b, s);
  }

  /** Operations replayed after others that spare the embeddings leave the embeddings they left before. */
  lemma EmbeddingsSettle(a: seq<Op>, b: seq<Op>, s: Store)
    requires Avoids(b, "embeddings")
    ensures EmbeddingsIn(Run(a, Run(a + b, s))) == EmbeddingsIn(Run(a, s))
  {
    var s1, s2 := Run(a, s), Run(a + b, s);
    RunConcat(a, b, s);
    forall k: Key
      ensures Cell(EmbeddingsIn(Run(a, s2)), k) == Cell(EmbeddingsIn(s1), k)
    {
      if k.table == "embeddings" {
        RunIsLocal(b, s1, k);
        AvoidedCellsStay(b, "embeddings", k, Cell(s1, k));
        RunIsLocal(a, s2, k);
        RunIsLocal(a, s1, k);
        RunIdempotent(a, s);
      }
    }
    SameCellsSameStore(EmbeddingsIn(Run(a, s2)), EmbeddingsIn(s1));
  }

  /** Running a finished manifest again with fresh state leaves the store as it is, graph included. */
  lemma SyncIsFixpoint(cfg: Config, m: Manifest, size: nat, s: Store)
    requires size > 0 && GraphSparesEmbeddings(UpsertsOf(SortChanges(m.graph.rows)))
    ensures Sync(cfg, m, size, Sync(cfg, m, size, s)) == Sync(cfg, m, size, s)
  {
    var ps, c := Phases(m), m.checkpoint;
    PhaseOrder(m);
    GraphPhase(m);
    forall i | 0 <= i < 13
      ensures i != 9 ==> ps[i].name != VectorComponents
      ensures i >= 9 ==> ps[i].name !in {Tombstones, Embeddings}
      ensures i != 10 ==> ps[i].name != Graph
    {
      assert Position(ps[i].name) == i;
    }
    var once := RunPhases(cfg, c, size, ps, [], s);
    PlanIsOneSequence(cfg, c, size, ps, 9, s);
    PlanIsOneSequence(cfg, c, size, ps, 9, once);
    SecondRunSeesSameEmbeddings(cfg, c, size, ps, 9, s);
    RunIdempotent(PlanOps(cfg, c, size, ps, EmbeddingsSeen(cfg, c, size, ps, 9, s)), s);
  }

  lemma GraphPhase(m: Manifest)
    ensures |Phases(m)| == 13
    ensures Phases(m)[10] == SectionPhase(Graph, m.graph)
  {
    var sections := Sections(m);
    PhaseOrder(m);
    UpsertPhaseAt(sections);
    assert sections[9] == (Graph, m.graph);
    assert Phases(m)[10] == UpsertPhases(sections)[9];
  }

  // ---- tombstones ----

  lemma {:induction false} DeletesMean(ops: seq<Op>, k: Key, x: Option<Row>)
    requires forall op | op in ops :: op.Delete?
    ensures RunCell(ops, k, x) == if Delete(k) in ops then None else x
  {
    if ops == [] {
    } else {
      assert ops[0] in ops;
      assert forall op | op in ops[1..] :: op in ops;
      DeletesMean(ops[1..], k, ApplyCell(ops[0], k, x));
      assert Delete(k) in ops <==> ops[0] == Delete(k) || Delete(k) in ops[1..];
    }
  }

  /** Some row of the manifest carries a tombstone that deletes the record. */
  ghost predicate Tombstoned(m: Manifest, k: Key) {
    exists c :: c in AllRows(m) && c.tombstone.Some? && TombstoneKey(c) == k
  }

  lemma TombstoneOps(cfg: Config, m: Manifest, size: nat, k: Key, e: Store)
    requires size > 0 && |Phases(m)| == 13
    ensures
      var ops := PhaseOps(cfg, m.checkpoint, size, Phases(m)[0], e);
      (forall op | op in ops :: op.Delete?) && (Delete(k) in ops <==> Tombstoned(m, k))
  {
    var rows := Phases(m)[0].rows;
    forall c
      ensures c in rows <==> c in AllRows(m) && c.tombstone.Some?
      ensures Phases(m)[0].name == Tombstones
    {
      TombstonePhaseRows(m, c);
      assert c in rows <==> c in multiset(rows);
      assert c in AllRows(m) <==> c in multiset(AllRows(m));
    }
    SectionOpsIgnoreBatchSize(cfg, Tombstones, rows, size, e);
    DeletesOf(cfg, rows, k, e);
  }

  lemma DeletesOf(cfg: Config, rows: seq<Change>, k: Key, e: Store)
    ensures
      var ops := RowOps(cfg, Tombstones, rows, e);
      (forall op | op in ops :: op.Delete?)
      && (Delete(k) in ops <==> exists c :: c in rows && TombstoneKey(c) == k)
  {
    var ops := RowOps(cfg, Tombstones, rows, e);
    if Delete(k) in ops {
      var i :| 0 <= i < |ops| && ops[i] == Delete(k);
      assert rows[i] in rows;
    }
    if c :| c in rows && TombstoneKey(c) == k {
      var i :| 0 <= i < |rows| && rows[i] == c;
      assert ops[i] == Delete(k);
    }
  }

  // ---- batch sizes ----

  /** Phases without graph rows do the same whatever the batch size. */
  lemma {:induction false} PlanIgnoresBatchSize(
    cfg: Config, c: Checkpoint, size: nat, size': nat, ps: seq<Phase>, s: Store)
    requires size > 0 && size' > 0
    requires forall i | 0 <= i < |ps| && ps[i].name == Graph :: ps[i].rows == []
    ensures RunPhases(cfg, c, size, ps, [], s) == RunPhases(cfg, c, size', ps, [], s)
  {
    if ps == [] {
    } else {
      var p, e := ps[0], EmbeddingsIn(s);
      if p.name == Graph {
        assert Batches(p.rows, size) == [] && Batches(p.rows, size') == [];
      } else if p.name != CheckpointCandidate {
        SectionOpsIgnoreBatchSize(cfg, p.name, p.rows, size, e);
        SectionOpsIgnoreBatchSize(cfg, p.name, p.rows, size', e);
      }
      PlanIgnoresBatchSize(cfg, c, size, size', ps[1..], RunPhase(cfg, c, size, p, s));
    }
  }
}
