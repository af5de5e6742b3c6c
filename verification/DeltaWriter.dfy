/** The store writer: point upserts and exact deletes, any connection call of which may raise. */
module DeltaWriter {
  import opened DeltaTypes
  import opened Wrappers
  import opened DeltaIdentifiers
  import opened DeltaOps
  import opened DeltaPlan
  import opened DeltaConvergence
  import opened DeltaGraph

  lemma RunNext(ops: seq<Op>, i: nat, s: Store)
    requires i < |ops|
    ensures Run(ops[..i + 1], s) == Apply(ops[i], Run(ops[..i], s))
  {
    assert ops[..i + 1] == ops[..i] + [ops[i]];
    RunConcat(ops[..i], [ops[i]], s);
    assert [ops[i]][1..] == [];
  }

  /** The rows of a section other than the embeddings never touch the embeddings table. */
  lemma SectionKeepsEmbeddings(cfg: Config, name: PhaseName, rows: seq<Change>, i: nat, s: Store)
    requires i <= |rows| && name !in {Tombstones, Embeddings}
    ensures EmbeddingsIn(Run(RowOps(cfg, name, rows, EmbeddingsIn(s))[..i], s)) == EmbeddingsIn(s)
  {
    var ops := RowOps(cfg, name, rows, EmbeddingsIn(s));
    EmbeddingsTable(name);
    assert Avoids(ops[..i], "embeddings");
    forall k: Key
      ensures Cell(EmbeddingsIn(Run(ops[..i], s)), k) == Cell(EmbeddingsIn(s), k)
    {
      RunIsLocal(ops[..i], s, k);
      if k.table == "embeddings" {
        AvoidedCellsStay(ops[..i], "embeddings", k, Cell(s, k));
      }
    }
    SameCellsSameStore(EmbeddingsIn(Run(ops[..i], s)), EmbeddingsIn(s));
  }

  /** One more row: upserting it as prepared now is the next operation of the section. */
  lemma NextRow(cfg: Config, name: PhaseName, rows: seq<Change>, i: nat, s: Store)
    requires i < |rows| && name !in {Tombstones, Graph, CheckpointCandidate}
    ensures
      var ops := RowOps(cfg, name, rows, EmbeddingsIn(s));
      var now := Run(ops[..i], s);
      var next := now[SectionKey(name, rows[i]) := Payload(cfg, name, rows[i], EmbeddingsIn(now))];
      && Run(ops[..i + 1], s) == next
      && Interrupted(ops, s, now) && Interrupted(ops, s, next)
  {
    var ops := RowOps(cfg, name, rows, EmbeddingsIn(s));
    RunNext(ops, i, s);
    PrefixInterrupts(ops, i, s);
    PrefixInterrupts(ops, i + 1, s);
    if name == VectorComponents {
      SectionKeepsEmbeddings(cfg, name, rows, i, s);
    }
    assert ops[i] == Upsert(SectionKey(name, rows[i]), Payload(cfg, name, rows[i], EmbeddingsIn(Run(ops[..i], s))));
  }

  /** A sweep takes the stale relations and nothing else. */
  lemma SweptCells(rows: seq<Change>, s: Store)
    ensures forall k | k in s && k.table == "relations" ::
              Cell(Apply(SweepOf(rows), s), k) == if Stale(rows, k, s[k]) then None else Cell(s, k)
    ensures forall k: Key | k !in s || k.table != "relations" :: Cell(Apply(SweepOf(rows), s), k) == Cell(s, k)
  {
  }

  lemma UpsertChanges(s: Store, k: Key, payload: Row)
    ensures s[k := payload] == s <==> Cell(s, k) == Some(payload)
  {
    if Cell(s, k) == Some(payload) {
      assert s[k := payload] == s;
    } else {
      assert Cell(s[k := payload], k) == Some(payload);
    }
  }

  /** The records of a set that a test selects. */
  ghost function Chosen(scanned: set<Key>, stale: (Key, Row) -> bool, s: Store): set<Key> {
    set k | k in scanned && k in s && stale(k, s[k]) :: k
  }

  lemma ChosenMore(scanned: set<Key>, stale: (Key, Row) -> bool, s: Store, k: Key)
    requires k in s && k !in scanned
    ensures |Chosen(scanned + {k}, stale, s)| == |Chosen(scanned, stale, s)| + if stale(k, s[k]) then 1 else 0
  {
    assert Chosen(scanned + {k}, stale, s) == Chosen(scanned, stale, s) + if stale(k, s[k]) then {k} else {};
  }

  /** A record after those of a set that a test selects are deleted. */
  ghost function DeletedCell(scanned: set<Key>, stale: (Key, Row) -> bool, s: Store, k: Key): Option<Row> {
    if k in scanned && k in s && stale(k, s[k]) then None else Cell(s, k)
  }

  /** The relations a batch sweeps. */
  ghost function SweptKeys(rows: seq<Change>, s: Store): set<Key> {
    set k | k in s && Stale(rows, k, s[k]) :: k
  }

  class StoreWriter {
    const cfg: Config
    var store: Store
    /** How many connection calls still go through before one raises. */
    var callsLeft: nat

    constructor (cfg: Config, store: Store, callsLeft: nat)
      ensures this.cfg == cfg && this.store == store && this.callsLeft == callsLeft
    {
      this.cfg, this.store, this.callsLeft := cfg, store, callsLeft;
    }

    /** One connection call, or the loss of its answer. */
    method Call() returns (ok: bool)
      modifies this`callsLeft
      ensures ok <==> old(callsLeft) > 0
      ensures callsLeft == if ok then old(callsLeft) - 1 else 0
    {
      ok := callsLeft > 0;
      if ok {
        callsLeft := callsLeft - 1;
      }
    }

    /** `_upsert_point` on a prepared payload: write unless the stored row already is that payload. */
    method UpsertPoint(key: Key, payload: Row) returns (applied: nat, ok: bool)
      modifies this
      ensures ok ==> store == old(store)[key := payload]
      ensures !ok ==> store == old(store) || store == old(store)[key := payload]
      ensures ok ==> applied == if Cell(old(store), key) == Some(payload) then 0 else 1
    {
      applied := 0;
      ok := Call();
      if !ok { return; }
      var existing := Cell(store, key);
      if existing == Some(payload) {
        assert store == store[key := payload];
        return;
      }
      ok := Call();
      if !ok { return; }
      store := store[key := payload];
      ok := Call();
      applied := 1;
    }

    method DeletePoint(key: Key) returns (ok: bool)
      modifies this
      ensures ok ==> store == old(store) - {key}
      ensures !ok ==> store == old(store) || store == old(store) - {key}
    {
      ok := Call();
      if !ok { return; }
      store := store - {key};
      ok := Call();
    }

    /** `delete_tombstones`. */
    method DeleteTombstones(rows: seq<Change>) returns (applied: nat, ok: bool)
      modifies this
      ensures ok ==> store == Run(RowOps(cfg, Tombstones, rows, EmbeddingsIn(old(store))), old(store))
      ensures !ok ==> Interrupted(RowOps(cfg, Tombstones, rows, EmbeddingsIn(old(store))), old(store), store)
      ensures applied <= |rows|
      ensures ok ==> applied == Changes(RowOps(cfg, Tombstones, rows, EmbeddingsIn(old(store))), old(store))
    {
      ghost var ops, start := RowOps(cfg, Tombstones, rows, EmbeddingsIn(store)), store;
      applied, ok := 0, true;
      for i := 0 to |rows|
        invariant ok && store == Run(ops[..i], start) && applied <= i && applied == Changes(ops[..i], start)
      {
        RunNext(ops, i, start);
        ChangesNext(ops, i, start);
        PrefixInterrupts(ops, i, start);
        PrefixInterrupts(ops, i + 1, start);
        var key := TombstoneKey(rows[i]);
        ok := Call();
        if !ok { return; }
        if key in store {
          ghost var before := store;
          ok := DeletePoint(key);
          if !ok { return; }
          assert key in before && key !in store;
          applied := applied + 1;
        } else {
          assert store - {key} == store;
        }
      }
      assert ops[..|rows|] == ops;
    }

    /** The `write_*` methods of the plain sections, which differ only in their row defaults and table. */
    method WriteSection(name: PhaseName, rows: seq<Change>) returns (applied: nat, ok: bool)
      requires name !in {Tombstones, Graph, CheckpointCandidate}
      modifies this
      ensures ok ==> store == Run(RowOps(cfg, name, rows, EmbeddingsIn(old(store))), old(store))
      ensures !ok ==> Interrupted(RowOps(cfg, name, rows, EmbeddingsIn(old(store))), old(store), store)
      ensures applied <= |rows|
      ensures ok ==> applied == Changes(RowOps(cfg, name, rows, EmbeddingsIn(old(store))), old(store))
    {
      ghost var ops, start := RowOps(cfg, name, rows, EmbeddingsIn(store)), store;
      applied, ok := 0, true;
      for i := 0 to |rows|
        invariant ok && store == Run(ops[..i], start) && applied <= i && applied == Changes(ops[..i], start)
      {
        ChangesNext(ops, i, start);
        var key, payload := SectionKey(name, rows[i]), Payload(cfg, name, rows[i], EmbeddingsIn(store));
        NextRow(cfg, name, rows, i, start);
        var n;
        ghost var before := store;
        n, ok := UpsertPoint(key, payload);
        if !ok { return; }
        UpsertChanges(before, key, payload);
        applied := applied + n;
      }
      assert ops[..|rows|] == ops;
    }

    /** `_delete_stale_frontmatter_relations`: scan the relations once, delete the stale ones one by one. */
    method DeleteStale(rows: seq<Change>) returns (applied: nat, ok: bool)
      modifies this
      ensures ok ==> store == Apply(SweepOf(rows), old(store))
      ensures !ok ==> forall k :: Cell(store, k) in {Cell(old(store), k), Cell(Apply(SweepOf(rows), old(store)), k)}
      ensures ok ==> applied == |SweptKeys(rows, old(store))|
    {
      ghost var start, swept := store, Apply(SweepOf(rows), store);
      applied := 0;
      if SourcesOf(rows) == {} {
        assert swept == store;
        assert SweptKeys(rows, store) == {};
        ok := true;
        return;
      }
      ok := Call();
      if !ok { return; }
      var scan := set k | k in store && k.table == "relations" :: k;
      applied, ok := DeleteIf(scan, (k: Key, row: Row) => Stale(rows, k, row));
      SweptCells(rows, start);
      assert Chosen(scan, (k: Key, row: Row) => Stale(rows, k, row), start) == SweptKeys(rows, start);
      if ok {
        SameCellsSameStore(store, swept);
      }
    }

    /** Delete those of the scanned records that a test selects, one by one. */
    method DeleteIf(scanned: set<Key>, stale: (Key, Row) -> bool) returns (applied: nat, ok: bool)
      requires scanned <= store.Keys
      modifies this
      ensures ok ==> forall k :: Cell(store, k) == DeletedCell(scanned, stale, old(store), k)
      ensures !ok ==> forall k :: Cell(store, k) in {Cell(old(store), k), DeletedCell(scanned, stale, old(store), k)}
      ensures ok ==> applied == |Chosen(scanned, stale, old(store))|
    {
      var scan := scanned;
      applied, ok := 0, true;
      assert Chosen(scanned - scan, stale, store) == {};
      while scan != {}
        invariant ok && scan <= scanned <= old(store).Keys
        invariant forall k | k in scan :: Cell(store, k) == Cell(old(store), k)
        invariant forall k | k !in scan :: Cell(store, k) == DeletedCell(scanned, stale, old(store), k)
        invariant applied == |Chosen(scanned - scan, stale, old(store))|
        decreases |scan|
      {
        var k :| k in scan;
        assert Cell(store, k) == Cell(old(store), k);
        ChosenMore(scanned - scan, stale, old(store), k);
        assert (scanned - scan) + {k} == scanned - (scan - {k});
        if stale(k, store[k]) {
          ok := DeletePoint(k);
          if !ok { return; }
          applied := applied + 1;
        }
        scan := scan - {k};
      }
      assert scanned - scan == scanned;
    }

    /** The row loop of `write_graph`: upsert nodes at once, buffer the relations that differ. */
    method WriteItems(items: seq<GraphItem>, ghost sweep: Op, ghost start: Store)
      returns (buffer: seq<GraphItem>, applied: nat, ok: bool)
      requires store == Apply(sweep, start)
      modifies this
      ensures ok ==> store == Run(NodeOps(items), old(store))
      ensures ok ==> PutAll(buffer) == BufferOps(items, old(store))
      ensures ok ==> forall i | i in items :: NodeTable(i.key.table) || i.IsRelation()
      ensures ok ==> applied == Changes(NodeOps(items), old(store)) + |buffer|
      ensures !ok ==> exists i :: 0 <= i <= |items| && store == Run(NodeOps(items[..i]), old(store))
    {
      ghost var swept := store;
      buffer, applied, ok := [], 0, true;
      for i := 0 to |items|
        invariant ok && store == Run(NodeOps(items[..i]), swept)
        invariant PutAll(buffer) == BufferOps(items[..i], swept)
        invariant applied == Changes(NodeOps(items[..i]), swept) + |buffer|
        invariant forall j | 0 <= j < i :: NodeTable(items[j].key.table) || items[j].IsRelation()
      {
        NextItem(sweep, items, start, i);
        NextNode(items, i, swept);
        var item := items[i];
        if item.IsRelation() {
          ok := Call();
          if !ok { return; }
          if Cell(store, item.key) != Some(item.payload) {
            PutAllSnoc(buffer, item);
            buffer := buffer + [item];
            applied := applied + 1;
          }
        } else if NodeTable(item.key.table) {
          ghost var before := store;
          var n;
          n, ok := UpsertPoint(item.key, item.payload);
          if !ok { return; }
          UpsertChanges(before, item.key, item.payload);
          applied := applied + n;
        } else {
          ok := false;
          return;
        }
      }
      assert items[..|items|] == items;
    }

    /** `write_graph`: sweep, then the rows, then the buffered relations in one insert. */
    method WriteGraph(rows: seq<Change>) returns (applied: nat, ok: bool)
      modifies this
      ensures ok ==> store == GraphBatchResult(cfg, rows, old(store))
      ensures ok ==> forall i | i in Items(cfg, rows) :: NodeTable(i.key.table) || i.IsRelation()
      ensures !ok ==> Interrupted(GraphBatchOps(cfg, rows), old(store), store)
      ensures
        var items, swept := Items(cfg, rows), Apply(SweepOf(rows), old(store));
        ok ==> applied == |SweptKeys(rows, old(store))| + Changes(NodeOps(items), swept) + |BufferOps(items, swept)|
    {
      ghost var start, sweep := store, SweepOf(rows);
      var items := Items(cfg, rows);
      applied, ok := DeleteStale(rows);
      if !ok {
        CutSweep(cfg, rows, start, store);
        return;
      }
      var buffer, n;
      buffer, n, ok := WriteItems(items, sweep, start);
      applied := applied + n;
      if !ok {
        ghost var i :| 0 <= i <= |items| && store == Run(NodeOps(items[..i]), Apply(sweep, start));
        CutNodes(sweep, items, start, i);
        return;
      }
      ghost var all := BufferOps(items, Apply(sweep, start));
      assert all[..|all|] == all;
      ok := Flush(buffer);
      if !ok {
        ghost var j :| 0 <= j <= |buffer| && store == Run(all[..j], Run(NodeOps(items), Apply(sweep, start)));
        CutFlushIsInterrupted(cfg, rows, start, j);
      }
    }

    /** `insert_relation_rows`. */
    method Flush(buffer: seq<GraphItem>) returns (ok: bool)
      modifies this
      ensures ok ==> store == Run(PutAll(buffer), old(store))
      ensures |PutAll(buffer)| == |buffer|
      ensures !ok ==> exists j :: 0 <= j <= |buffer| && store == Run(PutAll(buffer)[..j], old(store))
    {
      ghost var ops, start := PutAll(buffer), store;
      PutAllAt(buffer);
      ok := true;
      for j := 0 to |buffer|
        invariant ok && store == Run(ops[..j], start)
      {
        RunNext(ops, j, start);
        ok := Call();
        if !ok { return; }
        store := store[buffer[j].key := buffer[j].payload];
        ok := Call();
        if !ok { return; }
      }
      assert ops[..|buffer|] == ops;
    }

    /** `write_checkpoint_candidate`. */
    method WriteCheckpoint(c: Checkpoint) returns (applied: nat, ok: bool)
      modifies this
      ensures ok ==> store == Run([Upsert(CheckpointKey(cfg), CheckpointPayload(cfg, c))], old(store))
      ensures !ok ==> Interrupted([Upsert(CheckpointKey(cfg), CheckpointPayload(cfg, c))], old(store), store)
      ensures ok ==> applied == if Cell(old(store), CheckpointKey(cfg)) == Some(CheckpointPayload(cfg, c)) then 0 else 1
    {
      OnePutInterrupts(CheckpointKey(cfg), CheckpointPayload(cfg, c), store);
      applied, ok := UpsertPoint(CheckpointKey(cfg), CheckpointPayload(cfg, c));
    }
  }

  lemma OnePutInterrupts(k: Key, row: Row, s: Store)
    ensures Run([Upsert(k, row)], s) == s[k := row]
    ensures Interrupted([Upsert(k, row)], s, s) && Interrupted([Upsert(k, row)], s, s[k := row])
  {
    var ops := [Upsert(k, row)];
    assert ops[1..] == [] && ops[..0] == [] && ops[..1] == ops;
    PrefixInterrupts(ops, 0, s);
    PrefixInterrupts(ops, 1, s);
  }

  ghost function PutAll(items: seq<GraphItem>): seq<Op> {
    if items == [] then [] else [Upsert(items[0].key, items[0].payload)] + PutAll(items[1..])
  }

  lemma {:induction false} PutAllAt(items: seq<GraphItem>)
    ensures |PutAll(items)| == |items|
    ensures forall i | 0 <= i < |items| :: PutAll(items)[i] == Upsert(items[i].key, items[i].payload)
  {
    if items == [] {
    } else {
      PutAllAt(items[1..]);
    }
  }

  lemma PutAllSnoc(a: seq<GraphItem>, i: GraphItem)
    ensures PutAll(a + [i]) == PutAll(a) + [Upsert(i.key, i.payload)]
  {
    PutAllAt(a);
    PutAllAt(a + [i]);
    assert forall j | 0 <= j < |a| + 1 :: PutAll(a + [i])[j] == (PutAll(a) + [Upsert(i.key, i.payload)])[j];
  }

  /** One more graph row: a node is written at once, a relation is buffered when it differs. */
  /** The node operations up to one more row, and how many of them change the store. */
  lemma NextNode(items: seq<GraphItem>, i: nat, s: Store)
    requires i < |items|
    ensures Changes(NodeOps(items[..i + 1]), s) == Changes(NodeOps(items[..i]), s)
            + if Run(NodeOps(items[..i + 1]), s) == Run(NodeOps(items[..i]), s) then 0 else 1
  {
    assert items[..i + 1] == items[..i] + [items[i]];
    NodeOpsConcat(items[..i], [items[i]]);
    assert [items[i]][1..] == [];
    if items[i].IsRelation() {
      assert NodeOps([items[i]]) == [];
      assert NodeOps(items[..i + 1]) == NodeOps(items[..i]);
    } else {
      var ops := NodeOps(items[..i + 1]);
      assert ops == NodeOps(items[..i]) + [Upsert(items[i].key, items[i].payload)];
      assert ops[..|ops| - 1] == NodeOps(items[..i]);
    }
  }

  lemma NextItem(sweep: Op, items: seq<GraphItem>, s: Store, i: nat)
    requires i < |items|
    ensures
      var swept, item := Apply(sweep, s), items[i];
      var store := Run(NodeOps(items[..i]), swept);
      if item.IsRelation() then
        && Run(NodeOps(items[..i + 1]), swept) == store
        && BufferOps(items[..i + 1], swept) ==
           BufferOps(items[..i], swept)
           + if Cell(store, item.key) != Some(item.payload) then [Upsert(item.key, item.payload)] else []
      else
        && Run(NodeOps(items[..i + 1]), swept) == store[item.key := item.payload]
        && BufferOps(items[..i + 1], swept) == BufferOps(items[..i], swept)
  {
    var swept, item := Apply(sweep, s), items[i];
    assert items[..i + 1] == items[..i] + [item] && [item][1..] == [];
    NodeOpsConcat(items[..i], [item]);
    BufferOpsConcat(items[..i], [item], swept);
    RunConcat(NodeOps(items[..i]), NodeOps([item]), swept);
    HeadCell(sweep, items[..i], s, item.key);
    if item.IsRelation() {
      assert NodeOps([item]) == [];
    } else {
      assert NodeOps([item]) == [Upsert(item.key, item.payload)] && NodeOps([item])[1..] == [];
      assert BufferOps([item], swept) == [];
    }
  }

  /** A partly done sweep is an interrupted batch. */
  lemma CutSweep(cfg: Config, rows: seq<Change>, s: Store, s': Store)
    requires forall k :: Cell(s', k) in {Cell(s, k), Cell(Apply(SweepOf(rows), s), k)}
    ensures Interrupted(GraphBatchOps(cfg, rows), s, s')
  {
    var ops := GraphBatchOps(cfg, rows);
    forall k
      ensures InterruptedCell(ops, k, Cell(s, k), Cell(s', k))
    {
      assert Cell(s', k) in {Cell(s, k), Cell(Apply(SweepOf(rows), s), k)};
      if Cell(s', k) == Cell(s, k) {
        assert PrefixMakes(ops, k, Cell(s, k), Cell(s', k), 0);
      } else {
        assert ops[..1] == [SweepOf(rows)] && ops[..1][1..] == [];
        assert PrefixMakes(ops, k, Cell(s, k), Cell(s', k), 1);
      }
    }
  }

  /** A batch cut after some of its node upserts is an interrupted batch. */
  lemma CutNodes(sweep: Op, items: seq<GraphItem>, s: Store, i: nat)
    requires i <= |items|
    ensures Interrupted(PlainBatchOps(sweep, items), s, Run(NodeOps(items[..i]), Apply(sweep, s)))
  {
    var some, rest := NodeOps(items[..i]), NodeOps(items[i..]);
    assert items == items[..i] + items[i..];
    NodeOpsConcat(items[..i], items[i..]);
    var ops := PlainBatchOps(sweep, items);
    assert ops == ([sweep] + some) + (rest + RelationOps(items));
    assert ops[..1 + |some|] == [sweep] + some;
    assert ([sweep] + some)[1..] == some;
    PrefixInterrupts(ops, 1 + |some|, s);
  }
}
