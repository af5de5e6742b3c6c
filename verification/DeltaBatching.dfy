/** Where a manifest's graph rows are cut into batches: which relations a cut loses, and when it loses none. */
module DeltaBatching {
  import opened DeltaTypes
  import opened Wrappers
  import opened DeltaIdentifiers
  import opened DeltaOps
  import opened DeltaPlan
  import opened DeltaConvergence
  import opened DeltaGraph
  import opened DeltaMeaning

  lemma {:induction false} FlatMembers(bs: seq<seq<Change>>, c: Change)
    ensures c in Flat(bs) <==> exists i :: 0 <= i < |bs| && c in bs[i]
  {
    if bs == [] {
    } else {
      FlatMembers(bs[1..], c);
      if c in bs[0] {
        assert c in bs[0];
      } else if c in Flat(bs[1..]) {
        var i :| 0 <= i < |bs[1..]| && c in bs[1..][i];
        assert c in bs[i + 1];
      }
      if i :| 0 <= i < |bs| && c in bs[i] {
        assert i > 0 ==> bs[1..][i - 1] == bs[i];
      }
    }
  }

  // ---- what a cut loses ----

  ghost predicate Unwritten(bs: seq<seq<Change>>, k: Key) {
    forall b | b in bs :: !WritesRelation(b, k)
  }

  /** Batch i stores p at k, no later batch writes k, and a later batch j sweeps p. */
  ghost predicate Lost(cfg: Config, bs: seq<seq<Change>>, k: Key, p: Row, i: int, j: int) {
    && 0 <= i < j < |bs|
    && k.table == "relations"
    && LastPayload(cfg, bs[i], k) == Some(p)
    && Unwritten(bs[i + 1..], k)
    && Stale(bs[j], k, p)
  }

  ghost predicate Loses(cfg: Config, bs: seq<seq<Change>>, k: Key) {
    exists p, i, j :: Lost(cfg, bs, k, p, i, j)
  }

  /** No two batches reconcile the same file. */
  ghost predicate SourcesApart(bs: seq<seq<Change>>) {
    forall i, j | 0 <= i < j < |bs| :: SourcesOf(bs[i]) !! SourcesOf(bs[j])
  }

  /** Stored relations sit where their columns say, or no file is reconciled twice. */
  ghost predicate Unmixed(bs: seq<seq<Change>>, s: Store) {
    WellKeyed(s) || SourcesApart(bs)
  }

  lemma SourceMembers(rows: seq<Change>, file: string)
    ensures file in SourcesOf(rows) <==>
            exists c :: c in rows && (|| (NamesFile(c) && GraphKey(c).raw == file)
                                      || (Desires(c) && StrOrEmpty(Field(c.row, "source_id")) == file))
  {
  }

  lemma FlatSources(bs: seq<seq<Change>>, file: string)
    ensures file in SourcesOf(Flat(bs)) <==> exists i :: 0 <= i < |bs| && file in SourcesOf(bs[i])
  {
    var all := Flat(bs);
    if file in SourcesOf(all) {
      SourceMembers(all, file);
      var c :| c in all && (|| (NamesFile(c) && GraphKey(c).raw == file)
                            || (Desires(c) && StrOrEmpty(Field(c.row, "source_id")) == file));
      FlatMembers(bs, c);
      var i :| 0 <= i < |bs| && c in bs[i];
      SourceMembers(bs[i], file);
    }
    if i :| 0 <= i < |bs| && file in SourcesOf(bs[i]) {
      SourceMembers(bs[i], file);
      var c :| c in bs[i] && (|| (NamesFile(c) && GraphKey(c).raw == file)
                              || (Desires(c) && StrOrEmpty(Field(c.row, "source_id")) == file));
      FlatMembers(bs, c);
      SourceMembers(all, file);
    }
  }

  lemma FlatDesires(bs: seq<seq<Change>>, pair: (string, string))
    ensures pair in DesiredBy(Flat(bs)) <==> exists i :: 0 <= i < |bs| && pair in DesiredBy(bs[i])
  {
    if pair in DesiredBy(Flat(bs)) {
      var c :| c in Flat(bs) && Desires(c) && pair == (StrOrEmpty(Field(c.row, "source_id")), GraphKey(c).raw);
      FlatMembers(bs, c);
      var i :| 0 <= i < |bs| && c in bs[i];
      assert pair in DesiredBy(bs[i]);
    }
    if i :| 0 <= i < |bs| && pair in DesiredBy(bs[i]) {
      var c :| c in bs[i] && Desires(c) && pair == (StrOrEmpty(Field(c.row, "source_id")), GraphKey(c).raw);
      FlatMembers(bs, c);
    }
  }

  /** What a batch wants kept it writes, for a file it reconciles. */
  lemma DesiredIsSource(rows: seq<Change>, file: string, id: string)
    requires (file, id) in DesiredBy(rows)
    ensures file in SourcesOf(rows)
  {
  }

  lemma UnwrittenIsUndesired(rows: seq<Change>, k: Key, file: string)
    requires k.table == "relations" && !WritesRelation(rows, k)
    ensures (file, k.raw) !in DesiredBy(rows)
  {
    forall c | c in rows && Desires(c)
      ensures GraphKey(c).raw != k.raw
    {
      RelationKey(c);
      assert GraphKey(c) != k;
    }
  }

  /** The batch reconciles the file and does not want the relation. */
  ghost predicate Unwanted(rows: seq<Change>, file: string, id: string) {
    file in SourcesOf(rows) && (file, id) !in DesiredBy(rows)
  }

  /** If one batch reconciles the file without the relation, no batch wants the relation. */
  lemma NoBatchDesires(bs: seq<seq<Change>>, k: Key, file: string, id: string, i: nat, j: nat)
    requires k.table == "relations" && Unwritten(bs, k) && (id == k.raw || SourcesApart(bs))
    requires i < |bs| && j < |bs| && file in SourcesOf(bs[i]) && (file, id) !in DesiredBy(bs[i])
    ensures (file, id) !in DesiredBy(bs[j])
  {
    assert bs[j] in bs;
    if id == k.raw {
      UnwrittenIsUndesired(bs[j], k, file);
    } else if i != j && (file, id) in DesiredBy(bs[j]) {
      DesiredIsSource(bs[j], file, id);
      assert false;
    }
  }

  lemma UnwantedBySomeBatch(bs: seq<seq<Change>>, k: Key, file: string, id: string)
    requires k.table == "relations" && Unwritten(bs, k) && (id == k.raw || SourcesApart(bs))
    ensures Unwanted(Flat(bs), file, id) <==> exists i :: 0 <= i < |bs| && Unwanted(bs[i], file, id)
  {
    FlatSources(bs, file);
    FlatDesires(bs, (file, id));
    if i :| 0 <= i < |bs| && Unwanted(bs[i], file, id) {
      forall j | 0 <= j < |bs|
        ensures (file, id) !in DesiredBy(bs[j])
      {
        NoBatchDesires(bs, k, file, id, i, j);
      }
    }
    if Unwanted(Flat(bs), file, id) {
      var i :| 0 <= i < |bs| && file in SourcesOf(bs[i]);
      assert Unwanted(bs[i], file, id);
    }
  }

  /** A record no batch writes is stale for all rows together exactly when it is stale for some batch. */
  lemma StaleForSomeBatch(bs: seq<seq<Change>>, k: Key, row: Row)
    requires k.table == "relations" && Unwritten(bs, k)
    requires ExistingRelationId(k, row) == k.raw || SourcesApart(bs)
    ensures Stale(Flat(bs), k, row) <==> exists b :: b in bs && Stale(b, k, row)
  {
    var file, id := StrOrEmpty(Field(row, "source_id")), ExistingRelationId(k, row);
    UnwantedBySomeBatch(bs, k, file, id);
    StaleMeans(Flat(bs), k, row, file, id);
    forall b | b in bs
      ensures Stale(b, k, row) <==> RelationType(row) in FRONTMATTER_TYPES && Unwanted(b, file, id)
    {
      StaleMeans(b, k, row, file, id);
    }
  }

  lemma StaleMeans(rows: seq<Change>, k: Key, row: Row, file: string, id: string)
    requires k.table == "relations"
    requires file == StrOrEmpty(Field(row, "source_id")) && id == ExistingRelationId(k, row)
    ensures Stale(rows, k, row) <==> RelationType(row) in FRONTMATTER_TYPES && Unwanted(rows, file, id)
  {
  }

  // ---- record by record ----

  lemma FlatWrites(bs: seq<seq<Change>>, k: Key)
    ensures WritesRelation(Flat(bs), k) <==> exists i :: 0 <= i < |bs| && WritesRelation(bs[i], k)
    ensures WritesRelation(Flat(bs), k) <==> !Unwritten(bs, k)
  {
    if c :| c in Flat(bs) && GraphKey(c) == k {
      FlatMembers(bs, c);
      var i :| 0 <= i < |bs| && c in bs[i];
      assert WritesRelation(bs[i], k);
    }
    if i :| 0 <= i < |bs| && WritesRelation(bs[i], k) {
      var c :| c in bs[i] && GraphKey(c) == k;
      FlatMembers(bs, c);
      assert bs[i] in bs;
    }
  }

  lemma LastPayloadConcat(cfg: Config, a: seq<Change>, b: seq<Change>, k: Key)
    ensures LastPayload(cfg, a + b, k) ==
            if LastPayload(cfg, b, k).Some? then LastPayload(cfg, b, k) else LastPayload(cfg, a, k)
  {
    ItemsConcat(cfg, a, b);
    PayloadsConcat(Items(cfg, a), Items(cfg, b), k);
  }

  /** The last writer among the batches is the last writer of all rows. */
  lemma {:induction false} LastPayloadOfFlat(cfg: Config, bs: seq<seq<Change>>, i: nat, k: Key)
    requires i < |bs| && k.table == "relations"
    requires LastPayload(cfg, bs[i], k).Some? && Unwritten(bs[i + 1..], k)
    ensures LastPayload(cfg, Flat(bs), k) == LastPayload(cfg, bs[i], k)
    decreases i
  {
    var rest := bs[1..];
    LastPayloadConcat(cfg, bs[0], Flat(rest), k);
    if i > 0 {
      assert rest[i - 1] == bs[i] && rest[i..] == bs[i + 1..];
      LastPayloadOfFlat(cfg, rest, i - 1, k);
    } else {
      FlatWrites(rest, k);
      WritesExactly(cfg, Flat(rest), k);
    }
  }

  lemma ItemsConcat(cfg: Config, a: seq<Change>, b: seq<Change>)
    ensures Items(cfg, a + b) == Items(cfg, a) + Items(cfg, b)
  {
    var whole, parts := Items(cfg, a + b), Items(cfg, a) + Items(cfg, b);
    assert forall i | 0 <= i < |whole| :: whole[i] == parts[i];
  }

  lemma FirstBatch(cfg: Config, bs: seq<seq<Change>>, e: Store, s: Store)
    requires bs != []
    ensures Run(BatchesOps(cfg, Graph, bs, e), s)
         == Run(BatchesOps(cfg, Graph, bs[1..], e), Run(GraphBatchOps(cfg, bs[0]), s))
  {
    RunConcat(GraphBatchOps(cfg, bs[0]), BatchesOps(cfg, Graph, bs[1..], e), s);
  }

  ghost predicate Survives(bs: seq<seq<Change>>, k: Key, row: Row) {
    forall b | b in bs :: !Stale(b, k, row)
  }

  /** A record no batch writes survives unless it is stale for one of them. */
  lemma {:induction false} UnwrittenRecord(cfg: Config, bs: seq<seq<Change>>, e: Store, s: Store, k: Key)
    requires k.table == "relations" && Unwritten(bs, k)
    ensures Cell(Run(BatchesOps(cfg, Graph, bs, e), s), k) ==
            if k in s && Survives(bs, k, s[k]) then Some(s[k]) else None
  {
    if bs == [] {
    } else {
      var rest, s1 := bs[1..], Run(GraphBatchOps(cfg, bs[0]), s);
      FirstBatch(cfg, bs, e, s);
      RelationAfterPlain(cfg, bs[0], s, k);
      assert bs[0] in bs && forall b :: b in bs <==> b == bs[0] || b in rest;
      WritesExactly(cfg, bs[0], k);
      UnwrittenRecord(cfg, rest, e, s1, k);
    }
  }

  /** A written record holds its last payload unless a later batch sweeps it. */
  lemma {:induction false} WrittenRecord(
    cfg: Config, bs: seq<seq<Change>>, e: Store, s: Store, i: nat, k: Key, p: Row)
    requires i < |bs| && k.table == "relations"
    requires LastPayload(cfg, bs[i], k) == Some(p) && Unwritten(bs[i + 1..], k)
    ensures Cell(Run(BatchesOps(cfg, Graph, bs, e), s), k) ==
            if Survives(bs[i + 1..], k, p) then Some(p) else None
    decreases i
  {
    var rest, s1 := bs[1..], Run(GraphBatchOps(cfg, bs[0]), s);
    FirstBatch(cfg, bs, e, s);
    if i > 0 {
      assert rest[i - 1] == bs[i] && rest[i..] == bs[i + 1..];
      WrittenRecord(cfg, rest, e, s1, i - 1, k, p);
    } else {
      RelationAfterPlain(cfg, bs[0], s, k);
      UnwrittenRecord(cfg, rest, e, s1, k);
    }
  }

  /** There is a last batch that writes k. */
  lemma {:induction false} LastWriter(bs: seq<seq<Change>>, k: Key, l: nat) returns (i: nat)
    requires l < |bs| && WritesRelation(bs[l], k)
    ensures i < |bs| && WritesRelation(bs[i], k) && Unwritten(bs[i + 1..], k)
    decreases |bs| - l
  {
    if later :| l < later < |bs| && WritesRelation(bs[later], k) {
      i := LastWriter(bs, k, later);
    } else {
      i := l;
    }
  }

  lemma {:induction false} NodesOfBatches(cfg: Config, bs: seq<seq<Change>>, e: Store, s: Store, k: Key)
    requires k.table != "relations"
    ensures Cell(Run(BatchesOps(cfg, Graph, bs, e), s), k) == RunCell(NodeOps(Items(cfg, Flat(bs))), k, Cell(s, k))
  {
    if bs == [] {
      assert Items(cfg, Flat(bs)) == [];
    } else {
      var s1 := Run(GraphBatchOps(cfg, bs[0]), s);
      var a, b := Items(cfg, bs[0]), Items(cfg, Flat(bs[1..]));
      FirstBatch(cfg, bs, e, s);
      NodeAfterPlain(cfg, bs[0], s, k);
      assert forall i | 0 <= i < |bs[1..]| :: bs[1..][i] == bs[i + 1];
      NodesOfBatches(cfg, bs[1..], e, s1, k);
      ItemsConcat(cfg, bs[0], Flat(bs[1..]));
      NodeOpsConcat(a, b);
      RunCellConcat(NodeOps(a), NodeOps(b), k, Cell(s, k));
    }
  }

  /**
   * Batch by batch, a record ends as if all graph rows were written in one batch, except that a relation
   * a later batch sweeps is gone.
   */
  lemma BatchedRecord(cfg: Config, bs: seq<seq<Change>>, e: Store, s: Store, k: Key)
    requires Unmixed(bs, s)
    ensures Cell(Run(BatchesOps(cfg, Graph, bs, e), s), k) ==
            if Loses(cfg, bs, k) then None else Cell(Run(GraphBatchOps(cfg, Flat(bs)), s), k)
    ensures Loses(cfg, bs, k) ==> k in Run(GraphBatchOps(cfg, Flat(bs)), s)
  {
    if k.table != "relations" {
      NodesOfBatches(cfg, bs, e, s, k);
      NodeAfterPlain(cfg, Flat(bs), s, k);
      OnlyRelationsAreLost(cfg, bs, k);
    } else {
      FlatWrites(bs, k);
      if WritesRelation(Flat(bs), k) {
        WrittenInBatches(cfg, bs, e, s, k);
      } else {
        UnwrittenInBatches(cfg, bs, e, s, k);
      }
    }
  }

  lemma OnlyRelationsAreLost(cfg: Config, bs: seq<seq<Change>>, k: Key)
    requires k.table != "relations"
    ensures !Loses(cfg, bs, k)
  {
  }

  lemma LaterBatches(bs: seq<seq<Change>>, i: nat)
    requires i < |bs|
    ensures forall l | i < l < |bs| :: bs[l] in bs[i + 1..]
  {
    assert forall l | i < l < |bs| :: bs[l] == bs[i + 1..][l - i - 1];
  }

  /** The last writer of a record decides whether it is lost. */
  lemma LostAtLastWriter(cfg: Config, bs: seq<seq<Change>>, k: Key, i: nat, p: Row)
    requires k.table == "relations" && i < |bs|
    requires LastPayload(cfg, bs[i], k) == Some(p) && Unwritten(bs[i + 1..], k)
    ensures Loses(cfg, bs, k) <==> !Survives(bs[i + 1..], k, p)
  {
    if p', i', j :| Lost(cfg, bs, k, p', i', j) {
      LaterBatches(bs, i);
      LaterBatches(bs, i');
      WritesExactly(cfg, bs[i], k);
      WritesExactly(cfg, bs[i'], k);
      assert i == i';
    }
    if b :| b in bs[i + 1..] && Stale(b, k, p) {
      var l :| 0 <= l < |bs[i + 1..]| && bs[i + 1..][l] == b;
      assert bs[i + 1 + l] == b;
      assert Lost(cfg, bs, k, p, i, i + 1 + l);
    }
  }

  lemma WrittenInBatches(cfg: Config, bs: seq<seq<Change>>, e: Store, s: Store, k: Key)
    requires k.table == "relations"
    requires WritesRelation(Flat(bs), k)
    ensures Cell(Run(BatchesOps(cfg, Graph, bs, e), s), k) ==
            if Loses(cfg, bs, k) then None else Cell(Run(GraphBatchOps(cfg, Flat(bs)), s), k)
    ensures k in Run(GraphBatchOps(cfg, Flat(bs)), s)
  {
    FlatWrites(bs, k);
    var l :| 0 <= l < |bs| && WritesRelation(bs[l], k);
    var i := LastWriter(bs, k, l);
    WritesExactly(cfg, bs[i], k);
    var p := LastPayload(cfg, bs[i], k).value;
    LastPayloadOfFlat(cfg, bs, i, k);
    RelationAfterPlain(cfg, Flat(bs), s, k);
    WrittenRecord(cfg, bs, e, s, i, k, p);
    LostAtLastWriter(cfg, bs, k, i, p);
  }

  lemma UnwrittenInBatches(cfg: Config, bs: seq<seq<Change>>, e: Store, s: Store, k: Key)
    requires k.table == "relations" && Unmixed(bs, s)
    requires !WritesRelation(Flat(bs), k)
    ensures Cell(Run(BatchesOps(cfg, Graph, bs, e), s), k) == Cell(Run(GraphBatchOps(cfg, Flat(bs)), s), k)
    ensures !Loses(cfg, bs, k)
  {
    FlatWrites(bs, k);
    WritesExactly(cfg, Flat(bs), k);
    RelationAfterPlain(cfg, Flat(bs), s, k);
    UnwrittenRecord(cfg, bs, e, s, k);
    if k in s {
      StaleForSomeBatch(bs, k, s[k]);
    }
    forall p, i, j
      ensures !Lost(cfg, bs, k, p, i, j)
    {
      if 0 <= i < |bs| {
        WritesExactly(cfg, bs[i], k);
        assert bs[i] in bs;
      }
    }
  }

  /** A cut into batches is harmless if and only if it loses no relation. */
  lemma CutIsHarmlessExactly(cfg: Config, bs: seq<seq<Change>>, e: Store, s: Store)
    requires Unmixed(bs, s)
    ensures Run(BatchesOps(cfg, Graph, bs, e), s) == Run(GraphBatchOps(cfg, Flat(bs)), s)
        <==> forall k :: !Loses(cfg, bs, k)
  {
    var cut, whole := Run(BatchesOps(cfg, Graph, bs, e), s), Run(GraphBatchOps(cfg, Flat(bs)), s);
    forall k
      ensures Cell(cut, k) == if Loses(cfg, bs, k) then None else Cell(whole, k)
      ensures Loses(cfg, bs, k) ==> k in whole
    {
      BatchedRecord(cfg, bs, e, s, k);
    }
    if forall k :: !Loses(cfg, bs, k) {
      SameCellsSameStore(cut, whole);
    } else {
      var k :| Loses(cfg, bs, k);
      assert Cell(cut, k) != Cell(whole, k);
    }
  }

  /** Each file's frontmatter relations share a batch with everything else that names the file. */
  ghost predicate FilesShareBatches(cfg: Config, bs: seq<seq<Change>>) {
    forall i, j, item | 0 <= i < j < |bs| && item in Items(cfg, bs[i]) && item.IsRelation()
                        && RelationType(item.payload) in FRONTMATTER_TYPES ::
      StrOrEmpty(Field(item.payload, "source_id")) !in SourcesOf(bs[j])
  }

  lemma SharedBatchesLoseNothing(cfg: Config, bs: seq<seq<Change>>, k: Key)
    requires FilesShareBatches(cfg, bs)
    ensures !Loses(cfg, bs, k)
  {
    forall p, i, j
      ensures !Lost(cfg, bs, k, p, i, j)
    {
      if 0 <= i < |bs| && k.table == "relations" {
        WritesExactly(cfg, bs[i], k);
      }
    }
  }

  /** A cut that leaves each file to one batch writes what one batch of all rows writes, whatever is stored. */
  lemma FilesInOneBatchEach(cfg: Config, bs: seq<seq<Change>>, e: Store, s: Store)
    requires SourcesApart(bs) && FilesShareBatches(cfg, bs)
    ensures Run(BatchesOps(cfg, Graph, bs, e), s) == Run(GraphBatchOps(cfg, Flat(bs)), s)
  {
    forall k
      ensures !Loses(cfg, bs, k)
    {
      SharedBatchesLoseNothing(cfg, bs, k);
    }
    CutIsHarmlessExactly(cfg, bs, e, s);
  }

  // ---- whole runs ----

  /** The graph rows of a manifest in the order they are batched. */
  function GraphRows(m: Manifest): seq<Change> {
    SectionPhase(Graph, m.graph).rows
  }

  lemma PhaseAvoidsRelations(cfg: Config, c: Checkpoint, size: nat, p: Phase, e: Store)
    requires size > 0 && p.name !in {Tombstones, Graph}
    ensures Avoids(PhaseOps(cfg, c, size, p, e), "relations")
  {
    if p.name != CheckpointCandidate {
      SectionOpsIgnoreBatchSize(cfg, p.name, p.rows, size, e);
      NoSectionIsRelations(p.name);
    }
  }

  lemma NoSectionIsRelations(name: PhaseName)
    ensures TableOf(name) != "relations"
  {
  }

  ghost predicate Graphless(ps: seq<Phase>) {
    forall i | 0 <= i < |ps| :: ps[i].name != Graph
  }

  /** Phases other than the graph's write no relation; tombstones may delete some. */
  lemma {:induction false} RelationsOnlyVanish(
    cfg: Config, c: Checkpoint, size: nat, ps: seq<Phase>, s: Store, k: Key)
    requires size > 0 && k.table == "relations" && Graphless(ps)
    ensures Cell(RunPhases(cfg, c, size, ps, [], s), k) in {Cell(s, k), None}
    ensures (forall i | 0 <= i < |ps| :: ps[i].name != Tombstones) ==>
              Cell(RunPhases(cfg, c, size, ps, [], s), k) == Cell(s, k)
  {
    if ps == [] {
    } else {
      var p := ps[0];
      var ops := PhaseOps(cfg, c, size, p, EmbeddingsIn(s));
      RunIsLocal(ops, s, k);
      if p.name == Tombstones {
        SectionOpsIgnoreBatchSize(cfg, p.name, p.rows, size, EmbeddingsIn(s));
        DeletesOf(cfg, p.rows, k, EmbeddingsIn(s));
        DeletesMean(ops, k, Cell(s, k));
      } else {
        PhaseAvoidsRelations(cfg, c, size, p, EmbeddingsIn(s));
        AvoidedCellsStay(ops, "relations", k, Cell(s, k));
      }
      RelationsOnlyVanish(cfg, c, size, ps[1..], Run(ops, s), k);
    }
  }

  lemma VanishingKeepsWellKeyed(cfg: Config, c: Checkpoint, size: nat, ps: seq<Phase>, s: Store)
    requires size > 0 && WellKeyed(s) && Graphless(ps)
    ensures WellKeyed(RunPhases(cfg, c, size, ps, [], s))
  {
    var after := RunPhases(cfg, c, size, ps, [], s);
    forall k | k in after && k.table == "relations"
      ensures ExistingRelationId(k, after[k]) == k.raw
    {
      RelationsOnlyVanish(cfg, c, size, ps, s, k);
      assert Cell(after, k) == Cell(s, k);
    }
  }

  ghost predicate SameLosses(cfg: Config, rows: seq<Change>, size: nat, size': nat)
    requires size > 0 && size' > 0
  {
    forall k :: Loses(cfg, Batches(rows, size), k) <==> Loses(cfg, Batches(rows, size'), k)
  }

  /** The store after the graph phase, for any two batch sizes. */
  lemma GraphPhaseBySize(cfg: Config, rows: seq<Change>, size: nat, size': nat, e: Store, s: Store)
    requires size > 0 && size' > 0 && Unmixed(Batches(rows, size), s) && Unmixed(Batches(rows, size'), s)
    ensures
      var cut := Run(BatchesOps(cfg, Graph, Batches(rows, size), e), s);
      var cut' := Run(BatchesOps(cfg, Graph, Batches(rows, size'), e), s);
      && (SameLosses(cfg, rows, size, size') ==> cut == cut')
      && (!SameLosses(cfg, rows, size, size') ==>
            exists k: Key :: k.table == "relations" && Cell(cut, k) != Cell(cut', k))
  {
    var bs, bs' := Batches(rows, size), Batches(rows, size');
    var cut, cut' := Run(BatchesOps(cfg, Graph, bs, e), s), Run(BatchesOps(cfg, Graph, bs', e), s);
    var whole := Run(GraphBatchOps(cfg, rows), s);
    FlatBatches(rows, size);
    FlatBatches(rows, size');
    forall k
      ensures Cell(cut, k) == if Loses(cfg, bs, k) then None else Cell(whole, k)
      ensures Cell(cut', k) == if Loses(cfg, bs', k) then None else Cell(whole, k)
      ensures Loses(cfg, bs, k) || Loses(cfg, bs', k) ==> k in whole && k.table == "relations"
    {
      BatchedRecord(cfg, bs, e, s, k);
      BatchedRecord(cfg, bs', e, s, k);
    }
    if SameLosses(cfg, rows, size, size') {
      SameCellsSameStore(cut, cut');
    } else {
      var k :| Loses(cfg, bs, k) != Loses(cfg, bs', k);
      assert Cell(cut, k) != Cell(cut', k);
    }
  }

  /** Some phases, a graph phase, and some phases more. */
  ghost function ThroughGraph(
    cfg: Config, c: Checkpoint, size: nat, first: seq<Phase>, rows: seq<Change>, last: seq<Phase>, s: Store): Store
    requires size > 0
  {
    var before := RunPhases(cfg, c, size, first, [], s);
    RunPhases(cfg, c, size, last, [], Run(BatchesOps(cfg, Graph, Batches(rows, size), EmbeddingsIn(before)), before))
  }

  lemma SameStoreExactly(
    cfg: Config, c: Checkpoint, size: nat, size': nat, first: seq<Phase>, rows: seq<Change>, last: seq<Phase>, s: Store)
    requires size > 0 && size' > 0 && Unmixed(Batches(rows, size), s) && Unmixed(Batches(rows, size'), s)
    requires Graphless(first) && Graphless(last) && forall i | 0 <= i < |last| :: last[i].name != Tombstones
    ensures ThroughGraph(cfg, c, size, first, rows, last, s) == ThroughGraph(cfg, c, size', first, rows, last, s)
        <==> SameLosses(cfg, rows, size, size')
  {
    var before := RunPhases(cfg, c, size, first, [], s);
    PlanIgnoresBatchSize(cfg, c, size, size', first, s);
    if WellKeyed(s) {
      VanishingKeepsWellKeyed(cfg, c, size, first, s);
    }
    var cut := Run(BatchesOps(cfg, Graph, Batches(rows, size), EmbeddingsIn(before)), before);
    var cut' := Run(BatchesOps(cfg, Graph, Batches(rows, size'), EmbeddingsIn(before)), before);
    GraphPhaseBySize(cfg, rows, size, size', EmbeddingsIn(before), before);
    LastPhasesTell(cfg, c, size, size', last, cut, cut');
  }

  /** Phases behind the graph keep a difference in the relations. */
  lemma LastPhasesTell(
    cfg: Config, c: Checkpoint, size: nat, size': nat, last: seq<Phase>, cut: Store, cut': Store)
    requires size > 0 && size' > 0
    requires Graphless(last) && forall i | 0 <= i < |last| :: last[i].name != Tombstones
    ensures cut == cut' ==> RunPhases(cfg, c, size, last, [], cut) == RunPhases(cfg, c, size', last, [], cut')
    ensures (exists k: Key :: k.table == "relations" && Cell(cut, k) != Cell(cut', k)) ==>
              RunPhases(cfg, c, size, last, [], cut) != RunPhases(cfg, c, size', last, [], cut')
  {
    PlanIgnoresBatchSize(cfg, c, size, size', last, cut);
    if k: Key :| k.table == "relations" && Cell(cut, k) != Cell(cut', k) {
      RelationsOnlyVanish(cfg, c, size, last, cut, k);
      RelationsOnlyVanish(cfg, c, size', last, cut', k);
    }
  }

  /** The phases before the graph, and those behind it. */
  lemma AroundGraph(cfg: Config, m: Manifest, size: nat, s: Store) returns (first: seq<Phase>, last: seq<Phase>)
    requires size > 0
    ensures Phases(m) == first + [SectionPhase(Graph, m.graph)] + last && |first| == 10
    ensures Graphless(first) && Graphless(last) && forall i | 0 <= i < |last| :: last[i].name != Tombstones
    ensures Sync(cfg, m, size, s) == ThroughGraph(cfg, m.checkpoint, size, first, GraphRows(m), last, s)
  {
    var ps, c := Phases(m), m.checkpoint;
    PhaseOrder(m);
    GraphPhase(m);
    forall i | 0 <= i < 13
      ensures i != 10 ==> ps[i].name != Graph
      ensures i > 10 ==> ps[i].name != Tombstones
    {
      assert Position(ps[i].name) == i;
    }
    first, last := ps[..10], ps[11..];
    assert ps == first + [ps[10]] + last;
    ThroughOnePhase(cfg, c, size, first, GraphRows(m), last, s);
  }

  lemma ThroughOnePhase(
    cfg: Config, c: Checkpoint, size: nat, first: seq<Phase>, rows: seq<Change>, last: seq<Phase>, s: Store)
    requires size > 0
    ensures RunPhases(cfg, c, size, first + [Phase(Graph, rows)] + last, [], s)
         == ThroughGraph(cfg, c, size, first, rows, last, s)
  {
    var before := RunPhases(cfg, c, size, first, [], s);
    assert first + [Phase(Graph, rows)] + last == first + ([Phase(Graph, rows)] + last);
    RunPhasesConcat(cfg, c, size, first, [Phase(Graph, rows)] + last, [], s);
    RunPhasesConcat(cfg, c, size, [Phase(Graph, rows)], last, [], before);
    OnePhase(cfg, c, size, Phase(Graph, rows), [], before);
    if rows == [] {
      EmptyPhaseDoesNothing(cfg, c, size, Phase(Graph, rows), before);
    }
  }

  /**
   * When the batch size matters: two runs of a manifest with different batch sizes end in the same store
   * if and only if the two cuts lose the same relations.
   */
  lemma BatchSizeMattersExactly(cfg: Config, m: Manifest, size: nat, size': nat, s: Store)
    requires size > 0 && size' > 0
    requires Unmixed(Batches(GraphRows(m), size), s) && Unmixed(Batches(GraphRows(m), size'), s)
    ensures Sync(cfg, m, size, s) == Sync(cfg, m, size', s) <==> SameLosses(cfg, GraphRows(m), size, size')
  {
    var first, last := AroundGraph(cfg, m, size, s);
    var first', last' := AroundGraph(cfg, m, size', s);
    assert first == Phases(m)[..10] == first' && last == Phases(m)[11..] == last';
    SameStoreExactly(cfg, m.checkpoint, size, size', first, GraphRows(m), last, s);
  }

  /** No graph rows, or each file left to one batch. */
  ghost predicate CutsAtFiles(cfg: Config, rows: seq<Change>, size: nat)
    requires size > 0
  {
    var bs := Batches(rows, size);
    SourcesApart(bs) && FilesShareBatches(cfg, bs)
  }

  lemma CutAtFilesLosesNothing(cfg: Config, rows: seq<Change>, size: nat, s: Store)
    requires size > 0 && CutsAtFiles(cfg, rows, size)
    ensures Unmixed(Batches(rows, size), s)
    ensures forall k :: !Loses(cfg, Batches(rows, size), k)
  {
    forall k
      ensures !Loses(cfg, Batches(rows, size), k)
    {
      SharedBatchesLoseNothing(cfg, Batches(rows, size), k);
    }
  }

  /** Without graph rows, or when each file is left to one batch, the batch size makes no difference. */
  lemma BatchSizeDoesNotMatter(cfg: Config, m: Manifest, size: nat, size': nat, s: Store)
    requires size > 0 && size' > 0
    requires CutsAtFiles(cfg, GraphRows(m), size) && CutsAtFiles(cfg, GraphRows(m), size')
    ensures Sync(cfg, m, size, s) == Sync(cfg, m, size', s)
  {
    CutAtFilesLosesNothing(cfg, GraphRows(m), size, s);
    CutAtFilesLosesNothing(cfg, GraphRows(m), size', s);
    BatchSizeMattersExactly(cfg, m, size, size', s);
  }

  // ---- an instance ----

  /** Two tags of one file in batches of their own: the second batch drops the first tag. */
  lemma SplitFileLosesTag(cfg: Config, file: string, tag: string, id: string, tag': string, id': string)
    requires KeepsRelationColumns(cfg) && file != "" && tag != "" && tag' != "" && id != "" && id' != "" && id != id'
    ensures
      var rows := [Change(id, "relations", Link(file, tag, id, "rel_type", "HAS_TAG"), None),
                   Change(id', "relations", Link(file, tag', id', "rel_type", "HAS_TAG"), None)];
      && Loses(cfg, Batches(rows, 1), Key("relations", id))
      && !Loses(cfg, Batches(rows, 2), Key("relations", id))
  {
    var a, b := Change(id, "relations", Link(file, tag, id, "rel_type", "HAS_TAG"), None),
                Change(id', "relations", Link(file, tag', id', "rel_type", "HAS_TAG"), None);
    LinkDesires(file, tag, id, "rel_type", "HAS_TAG");
    LinkDesires(file, tag', id', "rel_type", "HAS_TAG");
    StoredTagIsUnwanted(cfg, a, b, file);
    SecondBatchLosesFirst(cfg, a, b);
  }

  lemma SecondBatchLosesFirst(cfg: Config, a: Change, b: Change)
    requires GraphKey(a).table == "relations" && GraphKey(a) != GraphKey(b)
    requires Stale([b], GraphKey(a), GraphPayload(cfg, a))
    ensures Loses(cfg, Batches([a, b], 1), GraphKey(a)) && !Loses(cfg, Batches([a, b], 2), GraphKey(a))
  {
    var k, p := GraphKey(a), GraphPayload(cfg, a);
    OneByOne(a, b);
    OneRowStores(cfg, a);
    assert forall c | c in [b] :: c == b;
    assert !WritesRelation([b], k);
    assert Lost(cfg, [[a], [b]], k, p, 0, 1);
  }

  lemma OneRowStores(cfg: Config, c: Change)
    requires GraphKey(c).table == "relations"
    ensures LastPayload(cfg, [c], GraphKey(c)) == Some(GraphPayload(cfg, c))
  {
    var item := GraphItem(GraphKey(c), GraphPayload(cfg, c));
    assert Items(cfg, [c]) == [item] && [item][1..] == [];
    assert PayloadsAt([], item.key) == [];
  }

  lemma OneByOne(a: Change, b: Change)
    ensures Batches([a, b], 1) == [[a], [b]] && Batches([a, b], 1)[1..] == [[b]]
    ensures Batches([a, b], 2) == [[a, b]]
  {
    assert [a, b][..1] == [a] && [a, b][1..] == [b];
    assert Batches([b], 1) == [[b]];
    assert [[a]] + [[b]] == [[a], [b]];
  }

  lemma StoredTagIsUnwanted(cfg: Config, a: Change, b: Change, file: string)
    requires KeepsRelationColumns(cfg) && Desires(a) && Desires(b) && Present(a.row, "relation_id")
    requires StrOrEmpty(Field(a.row, "source_id")) == file == StrOrEmpty(Field(b.row, "source_id"))
    requires GraphKey(a) != GraphKey(b)
    ensures Stale([b], GraphKey(a), GraphPayload(cfg, a))
  {
    RelationKey(a);
    RelationKey(b);
    GraphRowKeepsColumns(a);
    StoredRelationIsKeyed(cfg, a);
    assert b in [b];
    SourceMembers([b], file);
    UnwrittenIsUndesired([b], GraphKey(a), file);
    StaleMeans([b], GraphKey(a), GraphPayload(cfg, a), file, GraphKey(a).raw);
  }
}
