/** Graph batches: what `write_graph` does, when it equals its plain reading, and what it reconciles. */
module DeltaGraph {
  import opened DeltaTypes
  import opened Wrappers
  import opened DeltaIdentifiers
  import opened DeltaOps
  import opened DeltaPlan

  lemma {:induction false} NodeOpsConcat(a: seq<GraphItem>, b: seq<GraphItem>)
    ensures NodeOps(a + b) == NodeOps(a) + NodeOps(b)
  {
    if a == [] {
      assert a + b == b;
    } else {
      assert (a + b)[1..] == a[1..] + b;
      NodeOpsConcat(a[1..], b);
    }
  }

  /** The relation rows `write_graph` buffers: those that differ from what is stored when they are read. */
  ghost function BufferOps(items: seq<GraphItem>, s: Store): seq<Op> {
    if items == [] then []
    else (if items[0].IsRelation() && Cell(s, items[0].key) != Some(items[0].payload)
          then [Upsert(items[0].key, items[0].payload)] else [])
         + BufferOps(items[1..], s)
  }

  lemma {:induction false} BufferOpsConcat(a: seq<GraphItem>, b: seq<GraphItem>, s: Store)
    ensures BufferOps(a + b, s) == BufferOps(a, s) + BufferOps(b, s)
  {
    if a == [] {
      assert a + b == b;
    } else {
      assert (a + b)[1..] == a[1..] + b;
      BufferOpsConcat(a[1..], b, s);
    }
  }

  ghost function BatchResult(sweep: Op, items: seq<GraphItem>, s: Store): Store {
    var swept := Apply(sweep, s);
    Run(BufferOps(items, swept), Run(NodeOps(items), swept))
  }

  /** What one `write_graph` call leaves: sweep, nodes at once, buffered relations last. */
  ghost function GraphBatchResult(cfg: Config, rows: seq<Change>, s: Store): Store {
    BatchResult(SweepOf(rows), Items(cfg, rows), s)
  }

  lemma {:induction false} NodeOpsMembers(items: seq<GraphItem>)
    ensures forall op | op in NodeOps(items) :: op.Upsert? && op.key.table != "relations"
  {
    if items == [] {
    } else {
      NodeOpsMembers(items[1..]);
    }
  }

  lemma {:induction false} RelationOpsMembers(items: seq<GraphItem>, op: Op)
    ensures op in RelationOps(items) <==>
            exists i :: i in items && i.IsRelation() && op == Upsert(i.key, i.payload)
  {
    if items == [] {
    } else {
      RelationOpsMembers(items[1..], op);
      assert forall i :: i in items <==> i == items[0] || i in items[1..];
    }
  }

  lemma {:induction false} BufferOpsMembers(items: seq<GraphItem>, s: Store, op: Op)
    ensures op in BufferOps(items, s) <==>
            op in RelationOps(items) && op.Upsert? && Cell(s, op.key) != Some(op.payload)
  {
    if items == [] {
    } else {
      BufferOpsMembers(items[1..], s, op);
    }
  }

  lemma {:induction false} UpsertsElsewhere(ops: seq<Op>, k: Key, x: Option<Row>)
    requires forall op | op in ops :: op.Upsert? && op.key != k
    ensures RunCell(ops, k, x) == x
  {
    if ops == [] {
    } else {
      assert ops[0] in ops;
      assert forall op | op in ops[1..] :: op in ops;
      UpsertsElsewhere(ops[1..], k, x);
    }
  }

  /** The record at k once the sweep and the node upserts are through. */
  lemma HeadCell(sweep: Op, items: seq<GraphItem>, s: Store, k: Key)
    ensures
      RunCell([sweep] + NodeOps(items), k, Cell(s, k)) == Cell(Run(NodeOps(items), Apply(sweep, s)), k)
    ensures k.table == "relations" ==>
      Cell(Run(NodeOps(items), Apply(sweep, s)), k) == Cell(Apply(sweep, s), k)
  {
    var nodes, swept := NodeOps(items), Apply(sweep, s);
    RunIsLocal(nodes, swept, k);
    RunCellConcat([sweep], nodes, k, Cell(s, k));
    assert RunCell([sweep], k, Cell(s, k)) == Cell(swept, k);
    if k.table == "relations" {
      NodeOpsMembers(items);
      UpsertsElsewhere(nodes, k, Cell(swept, k));
    }
  }

  lemma {:induction false} NoRelationAt(items: seq<GraphItem>, s: Store, k: Key)
    requires forall i | i in items && i.IsRelation() :: i.key != k
    ensures forall op | op in RelationOps(items) :: op.Upsert? && op.key != k
    ensures forall op | op in BufferOps(items, s) :: op.Upsert? && op.key != k
  {
    forall op | op in RelationOps(items)
      ensures op.Upsert? && op.key != k
    {
      RelationOpsMembers(items, op);
    }
    forall op | op in BufferOps(items, s)
      ensures op in RelationOps(items)
    {
      BufferOpsMembers(items, s, op);
    }
  }

  // ---- what a batch leaves, and what its plain reading leaves ----

  /** The payloads a batch has for one relation record, in order. */
  ghost function PayloadsAt(items: seq<GraphItem>, k: Key): seq<Row> {
    if items == [] then []
    else (if items[0].IsRelation() && items[0].key == k then [items[0].payload] else []) + PayloadsAt(items[1..], k)
  }

  function LastOf(ps: seq<Row>): Option<Row> {
    if ps == [] then None else Some(ps[|ps| - 1])
  }

  /** What the last row of a batch for a relation record stores there. */
  ghost function LastPayload(cfg: Config, rows: seq<Change>, k: Key): Option<Row> {
    LastOf(PayloadsAt(Items(cfg, rows), k))
  }

  lemma {:induction false} PayloadsConcat(a: seq<GraphItem>, b: seq<GraphItem>, k: Key)
    ensures PayloadsAt(a + b, k) == PayloadsAt(a, k) + PayloadsAt(b, k)
  {
    if a == [] {
      assert a + b == b;
    } else {
      assert (a + b)[1..] == a[1..] + b;
      PayloadsConcat(a[1..], b, k);
    }
  }

  lemma {:induction false} PayloadMembers(items: seq<GraphItem>, k: Key)
    requires k.table == "relations"
    ensures forall p :: p in PayloadsAt(items, k) <==> GraphItem(k, p) in items
  {
    if items == [] {
    } else {
      PayloadMembers(items[1..], k);
      assert forall i :: i in items <==> i == items[0] || i in items[1..];
    }
  }

  /** The swept store at a record. */
  ghost function SweptAt(rows: seq<Change>, s: Store, k: Key): Option<Row> {
    if k in s && Stale(rows, k, s[k]) then None else Cell(s, k)
  }

  lemma {:induction false} PlainRecord(items: seq<GraphItem>, k: Key, y: Option<Row>)
    requires k.table == "relations"
    ensures RunCell(RelationOps(items), k, y) ==
            if PayloadsAt(items, k) == [] then y else LastOf(PayloadsAt(items, k))
  {
    if items == [] {
    } else {
      var i, rest := items[0], items[1..];
      var head := if i.IsRelation() then [Upsert(i.key, i.payload)] else [];
      RunCellConcat(head, RelationOps(rest), k, y);
      var now := if i.key == k then Some(i.payload) else y;
      assert head != [] ==> head[1..] == [];
      assert RunCell(head, k, y) == now;
      PlainRecord(rest, k, now);
    }
  }

  /** The plain reading leaves a relation record with its last row, else swept. */
  lemma RelationAfterPlain(cfg: Config, rows: seq<Change>, s: Store, k: Key)
    requires k.table == "relations"
    ensures
      var last := LastPayload(cfg, rows, k);
      Cell(Run(GraphBatchOps(cfg, rows), s), k) == if last.Some? then last else SweptAt(rows, s, k)
  {
    var sweep, items := SweepOf(rows), Items(cfg, rows);
    var head, rels, ops := [sweep] + NodeOps(items), RelationOps(items), PlainBatchOps(sweep, items);
    assert ops == head + rels;
    RunIsLocal(ops, s, k);
    RunCellConcat(head, rels, k, Cell(s, k));
    HeadCell(sweep, items, s, k);
    PlainRecord(items, k, Cell(Apply(sweep, s), k));
  }

  /** Other records take the node upserts alone, in either reading. */
  lemma NodeAfterPlain(cfg: Config, rows: seq<Change>, s: Store, k: Key)
    requires k.table != "relations"
    ensures Cell(Run(GraphBatchOps(cfg, rows), s), k) == RunCell(NodeOps(Items(cfg, rows)), k, Cell(s, k))
  {
    var sweep, items := SweepOf(rows), Items(cfg, rows);
    var ops, head, rels := PlainBatchOps(sweep, items), [sweep] + NodeOps(items), RelationOps(items);
    var swept := Apply(sweep, s);
    assert ops == head + rels;
    RunIsLocal(ops, s, k);
    RunCellConcat(head, rels, k, Cell(s, k));
    HeadCell(sweep, items, s, k);
    RunIsLocal(NodeOps(items), swept, k);
    NoRelationAt(items, swept, k);
    UpsertsElsewhere(rels, k, RunCell(head, k, Cell(s, k)));
    assert Cell(swept, k) == Cell(s, k);
  }

  /** The last payload that differs from what was stored when the rows were read, else y. */
  ghost function LastDiffering(ps: seq<Row>, stored: Option<Row>, y: Option<Row>): Option<Row> {
    if ps == [] then y
    else LastDiffering(ps[1..], stored, if Some(ps[0]) != stored then Some(ps[0]) else y)
  }

  lemma {:induction false} BufferedRecord(items: seq<GraphItem>, s: Store, k: Key, y: Option<Row>)
    ensures RunCell(BufferOps(items, s), k, y) == LastDiffering(PayloadsAt(items, k), Cell(s, k), y)
  {
    if items == [] {
    } else {
      var i, rest := items[0], items[1..];
      var head := if i.IsRelation() && Cell(s, i.key) != Some(i.payload) then [Upsert(i.key, i.payload)] else [];
      RunCellConcat(head, BufferOps(rest, s), k, y);
      var now := RunCell(head, k, y);
      if head != [] {
        assert head[1..] == [];
        assert now == ApplyCell(head[0], k, y);
      }
      BufferedRecord(rest, s, k, now);
      if i.IsRelation() && i.key == k {
        var ps := PayloadsAt(items, k);
        assert ps == [i.payload] + PayloadsAt(rest, k) && ps[1..] == PayloadsAt(rest, k);
        assert now == if Some(ps[0]) != Cell(s, k) then Some(ps[0]) else y;
      } else {
        assert PayloadsAt(items, k) == PayloadsAt(rest, k);
        assert now == y;
      }
    }
  }

  /** What a batch leaves at a relation record. */
  lemma RelationAfterBatch(cfg: Config, rows: seq<Change>, s: Store, k: Key)
    requires k.table == "relations"
    ensures
      var stored := SweptAt(rows, s, k);
      Cell(GraphBatchResult(cfg, rows, s), k) == LastDiffering(PayloadsAt(Items(cfg, rows), k), stored, stored)
  {
    var sweep, items := SweepOf(rows), Items(cfg, rows);
    var swept := Apply(sweep, s);
    HeadCell(sweep, items, s, k);
    RunIsLocal(BufferOps(items, swept), Run(NodeOps(items), swept), k);
    BufferedRecord(items, swept, k, Cell(swept, k));
  }

  /** A last payload that differs from the stored one wins. */
  lemma {:induction false} LastWins(ps: seq<Row>, stored: Option<Row>, y: Option<Row>)
    requires ps != [] && Some(ps[|ps| - 1]) != stored
    ensures LastDiffering(ps, stored, y) == Some(ps[|ps| - 1])
  {
    if |ps| == 1 {
      assert ps[1..] == [];
    } else {
      LastWins(ps[1..], stored, if Some(ps[0]) != stored then Some(ps[0]) else y);
    }
  }

  /** If some payload differs from the stored one, the result differs from it; if none does, it is y. */
  lemma {:induction false} SomeDiffers(ps: seq<Row>, stored: Option<Row>, y: Option<Row>)
    ensures (exists p :: p in ps && Some(p) != stored) || y != stored ==> LastDiffering(ps, stored, y) != stored
    ensures (forall p | p in ps :: Some(p) == stored) ==> LastDiffering(ps, stored, y) == y
  {
    if ps == [] {
    } else {
      SomeDiffers(ps[1..], stored, if Some(ps[0]) != stored then Some(ps[0]) else y);
      assert forall p :: p in ps <==> p == ps[0] || p in ps[1..];
    }
  }

  /** All payloads for the record agree, or the batch itself sweeps what its last one stores. */
  ghost predicate SettledAt(cfg: Config, rows: seq<Change>, k: Key) {
    var ps := PayloadsAt(Items(cfg, rows), k);
    ps == [] || (forall p | p in ps :: p == ps[|ps| - 1]) || Stale(rows, k, ps[|ps| - 1])
  }

  ghost predicate Settled(cfg: Config, rows: seq<Change>) {
    forall k: Key | k.table == "relations" :: SettledAt(cfg, rows, k)
  }

  /** An unsettled record is changed by every run of the batch, whatever is stored. */
  lemma UnsettledRecordChanges(cfg: Config, rows: seq<Change>, s: Store, k: Key)
    requires k.table == "relations" && !SettledAt(cfg, rows, k)
    ensures Cell(GraphBatchResult(cfg, rows, s), k) != Cell(s, k)
  {
    var ps := PayloadsAt(Items(cfg, rows), k);
    var last := ps[|ps| - 1];
    var stored := SweptAt(rows, s, k);
    RelationAfterBatch(cfg, rows, s, k);
    if Cell(s, k) == Some(last) {
      var p :| p in ps && p != last;
      assert Some(p) != stored;
      SomeDiffers(ps, stored, stored);
    } else {
      LastWins(ps, stored, stored);
    }
  }

  /** A settled record is left alone by a second run. */
  lemma SettledRecordStays(cfg: Config, rows: seq<Change>, s: Store, k: Key)
    requires k.table == "relations" && SettledAt(cfg, rows, k)
    ensures Cell(GraphBatchResult(cfg, rows, GraphBatchResult(cfg, rows, s)), k)
         == Cell(GraphBatchResult(cfg, rows, s), k)
  {
    var ps, once := PayloadsAt(Items(cfg, rows), k), GraphBatchResult(cfg, rows, s);
    RelationAfterBatch(cfg, rows, s, k);
    RelationAfterBatch(cfg, rows, once, k);
    if ps != [] {
      SettledRecordHoldsLast(cfg, rows, s, k);
      SettledRecordHoldsLast(cfg, rows, once, k);
    }
  }

  lemma SettledRecordHoldsLast(cfg: Config, rows: seq<Change>, s: Store, k: Key)
    requires k.table == "relations" && SettledAt(cfg, rows, k) && PayloadsAt(Items(cfg, rows), k) != []
    ensures
      var ps := PayloadsAt(Items(cfg, rows), k);
      Cell(GraphBatchResult(cfg, rows, s), k) == Some(ps[|ps| - 1])
  {
    var ps := PayloadsAt(Items(cfg, rows), k);
    var last := ps[|ps| - 1];
    var stored := SweptAt(rows, s, k);
    RelationAfterBatch(cfg, rows, s, k);
    if stored == Some(last) {
      SomeDiffers(ps, stored, stored);
    } else {
      LastWins(ps, stored, stored);
    }
  }

  // ---- exactly when a batch is its plain reading ----

  /** A settled batch does what sweeping and upserting every row in order does. */
  lemma SettledBatchIsPlain(cfg: Config, rows: seq<Change>, s: Store)
    requires Settled(cfg, rows)
    ensures GraphBatchResult(cfg, rows, s) == Run(GraphBatchOps(cfg, rows), s)
  {
    forall k
      ensures Cell(GraphBatchResult(cfg, rows, s), k) == Cell(Run(GraphBatchOps(cfg, rows), s), k)
    {
      if k.table == "relations" {
        SettledRecordIsPlain(cfg, rows, s, k);
      } else {
        NodeAfterBatch(cfg, rows, s, k);
        NodeAfterPlain(cfg, rows, s, k);
      }
    }
    SameCellsSameStore(GraphBatchResult(cfg, rows, s), Run(GraphBatchOps(cfg, rows), s));
  }

  lemma SettledRecordIsPlain(cfg: Config, rows: seq<Change>, s: Store, k: Key)
    requires k.table == "relations" && SettledAt(cfg, rows, k)
    ensures Cell(GraphBatchResult(cfg, rows, s), k) == Cell(Run(GraphBatchOps(cfg, rows), s), k)
  {
    RelationAfterBatch(cfg, rows, s, k);
    RelationAfterPlain(cfg, rows, s, k);
    if PayloadsAt(Items(cfg, rows), k) != [] {
      SettledRecordHoldsLast(cfg, rows, s, k);
    }
  }

  /** From a store with the last payload, an unsettled record tells the batch from its plain reading. */
  lemma UnsettledRecordTells(cfg: Config, rows: seq<Change>, k: Key) returns (s: Store)
    requires k.table == "relations" && !SettledAt(cfg, rows, k)
    ensures GraphBatchResult(cfg, rows, s) != Run(GraphBatchOps(cfg, rows), s)
  {
    var last := LastPayload(cfg, rows, k).value;
    s := map[k := last];
    UnsettledRecordChanges(cfg, rows, s, k);
    RelationAfterPlain(cfg, rows, s, k);
    assert Cell(s, k) == Some(last);
  }

  ghost predicate IsPlain(cfg: Config, rows: seq<Change>) {
    forall s: Store :: GraphBatchResult(cfg, rows, s) == Run(GraphBatchOps(cfg, rows), s)
  }

  /**
   * Buffering the relations comes to the same as sweeping and then upserting every row, from every store, if
   * and only if at every relation record the batch's payloads agree or it sweeps the last of them itself.
   */
  lemma BatchIsPlainExactly(cfg: Config, rows: seq<Change>)
    ensures IsPlain(cfg, rows) <==> Settled(cfg, rows)
  {
    if Settled(cfg, rows) {
      forall s: Store
        ensures GraphBatchResult(cfg, rows, s) == Run(GraphBatchOps(cfg, rows), s)
      {
        SettledBatchIsPlain(cfg, rows, s);
      }
    } else {
      var k: Key :| k.table == "relations" && !SettledAt(cfg, rows, k);
      var s := UnsettledRecordTells(cfg, rows, k);
    }
  }

  /** No two relation rows of the batch give one record different payloads. */
  ghost predicate RelationsAgree(cfg: Config, rows: seq<Change>) {
    var items := Items(cfg, rows);
    forall a, b | a in items && b in items && a.IsRelation() && a.key == b.key :: a.payload == b.payload
  }

  lemma AgreeingIsSettled(cfg: Config, rows: seq<Change>)
    requires RelationsAgree(cfg, rows)
    ensures Settled(cfg, rows)
  {
    forall k: Key | k.table == "relations"
      ensures SettledAt(cfg, rows, k)
    {
      PayloadMembers(Items(cfg, rows), k);
      var ps := PayloadsAt(Items(cfg, rows), k);
      assert ps != [] ==> ps[|ps| - 1] in ps;
    }
  }

  /** When its relation rows agree, a batch does what sweeping and upserting every row in order does. */
  lemma AgreeingBatchIsPlain(cfg: Config, rows: seq<Change>, s: Store)
    requires RelationsAgree(cfg, rows)
    ensures GraphBatchResult(cfg, rows, s) == Run(GraphBatchOps(cfg, rows), s)
  {
    AgreeingIsSettled(cfg, rows);
    SettledBatchIsPlain(cfg, rows, s);
  }

  // ---- a batch cut short ----

  lemma PutAtEnd(ops: seq<Op>, m: nat, k: Key, p: Row, x: Option<Row>)
    requires m < |ops| && ops[m] == Upsert(k, p)
    ensures RunCell(ops[..m + 1], k, x) == Some(p)
  {
    assert ops[..m + 1] == ops[..m] + [ops[m]];
    RunCellConcat(ops[..m], [ops[m]], k, x);
    assert [ops[m]][1..] == [];
  }

  /** Upserts leave a record alone or with the payload of one of them. */
  lemma {:induction false} SomePut(ops: seq<Op>, k: Key, x: Option<Row>)
    requires forall op | op in ops :: op.Upsert?
    ensures RunCell(ops, k, x) == x || exists p :: Upsert(k, p) in ops && RunCell(ops, k, x) == Some(p)
  {
    if ops == [] {
    } else {
      assert ops[0] in ops;
      assert forall op | op in ops[1..] :: op in ops;
      SomePut(ops[1..], k, ApplyCell(ops[0], k, x));
    }
  }

  /** A part of the buffer, run after the nodes, leaves each record as some prefix of the plain batch does. */
  lemma CutRecord(sweep: Op, items: seq<GraphItem>, s: Store, j: nat, k: Key)
    requires j <= |BufferOps(items, Apply(sweep, s))|
    ensures
      var t := Run(BufferOps(items, Apply(sweep, s))[..j], Run(NodeOps(items), Apply(sweep, s)));
      InterruptedCell(PlainBatchOps(sweep, items), k, Cell(s, k), Cell(t, k))
  {
    var mid, part := Run(NodeOps(items), Apply(sweep, s)), BufferOps(items, Apply(sweep, s))[..j];
    var head, rels := [sweep] + NodeOps(items), RelationOps(items);
    assert PlainBatchOps(sweep, items) == head + rels;
    RunIsLocal(part, mid, k);
    HeadCell(sweep, items, s, k);
    forall op | op in part
      ensures op in rels && op.Upsert?
    {
      BufferOpsMembers(items, Apply(sweep, s), op);
    }
    SomePut(part, k, Cell(mid, k));
    CutAfterHead(head, rels, k, Cell(s, k), RunCell(part, k, Cell(mid, k)));
  }

  /** What the head leaves, or the payload of an upsert behind it, is what some prefix leaves. */
  lemma CutAfterHead(head: seq<Op>, rels: seq<Op>, k: Key, x: Option<Row>, y: Option<Row>)
    requires y == RunCell(head, k, x) || exists p :: Upsert(k, p) in rels && y == Some(p)
    ensures InterruptedCell(head + rels, k, x, y)
  {
    if p :| Upsert(k, p) in rels && y == Some(p) {
      CutAtUpsert(head + rels, k, p, x);
    } else {
      assert (head + rels)[..|head|] == head;
      assert PrefixMakes(head + rels, k, x, y, |head|);
    }
  }

  lemma CutAtUpsert(ops: seq<Op>, k: Key, p: Row, x: Option<Row>)
    requires Upsert(k, p) in ops
    ensures InterruptedCell(ops, k, x, Some(p))
  {
    var m :| 0 <= m < |ops| && ops[m] == Upsert(k, p);
    PutAtEnd(ops, m, k, p, x);
    assert PrefixMakes(ops, k, x, Some(p), m + 1);
  }

  /** A batch cut short while its buffer is flushed is an interrupted plain batch, whatever its rows. */
  lemma CutFlushIsInterrupted(cfg: Config, rows: seq<Change>, s: Store, j: nat)
    requires j <= |BufferOps(Items(cfg, rows), Apply(SweepOf(rows), s))|
    ensures
      var swept := Apply(SweepOf(rows), s);
      Interrupted(GraphBatchOps(cfg, rows), s,
                  Run(BufferOps(Items(cfg, rows), swept)[..j], Run(NodeOps(Items(cfg, rows)), swept)))
  {
    var sweep, items := SweepOf(rows), Items(cfg, rows);
    var t := Run(BufferOps(items, Apply(sweep, s))[..j], Run(NodeOps(items), Apply(sweep, s)));
    forall k
      ensures InterruptedCell(PlainBatchOps(sweep, items), k, Cell(s, k), Cell(t, k))
    {
      CutRecord(sweep, items, s, j, k);
    }
  }

  // ---- exactly when repeating a batch is harmless ----

  /**
   * Two relation rows of one batch that give a record different payloads make `write_graph` oscillate:
   * from a store holding the later payload it writes the earlier one, and the next run writes the later
   * one again. So replaying such a batch does not converge.
   */
  lemma ConflictingRelationsOscillate(cfg: Config, a: Change, b: Change, s: Store)
    requires IsRelation(a) && IsRelation(b) && GraphKey(a) == GraphKey(b)
    requires GraphPayload(cfg, a) != GraphPayload(cfg, b)
    requires !Desires(a) && !Desires(b)
    requires Cell(s, GraphKey(b)) == Some(GraphPayload(cfg, b))
    ensures
      var once := GraphBatchResult(cfg, [a, b], s);
      Cell(once, GraphKey(b)) == Some(GraphPayload(cfg, a))
      && Cell(GraphBatchResult(cfg, [a, b], once), GraphKey(b)) == Some(GraphPayload(cfg, b))
  {
    ConflictingPair(cfg, a, b, s);
    ConflictingPair(cfg, a, b, GraphBatchResult(cfg, [a, b], s));
  }

  lemma ConflictingPair(cfg: Config, a: Change, b: Change, s: Store)
    requires IsRelation(a) && IsRelation(b) && GraphKey(a) == GraphKey(b)
    requires GraphPayload(cfg, a) != GraphPayload(cfg, b)
    requires !Desires(a) && !Desires(b)
    ensures Cell(GraphBatchResult(cfg, [a, b], s), GraphKey(b)) ==
            Some(if Cell(s, GraphKey(b)) == Some(GraphPayload(cfg, b))
                 then GraphPayload(cfg, a) else GraphPayload(cfg, b))
  {
    var k, pa, pb := GraphKey(b), GraphPayload(cfg, a), GraphPayload(cfg, b);
    assert !NamesFile(a) && !NamesFile(b) && SourcesOf([a, b]) == {};
    var items := Items(cfg, [a, b]);
    assert items == [GraphItem(k, pa), GraphItem(k, pb)];
    assert Apply(SweepOf([a, b]), s) == s;
    PairBuffer(SweepOf([a, b]), k, pa, pb, s);
    RunIsLocal(PairOps(k, pa, pb, Cell(s, k)), s, k);
    PairRun(k, pa, pb, Cell(s, k));
  }

  ghost function PairOps(k: Key, pa: Row, pb: Row, x: Option<Row>): seq<Op> {
    (if x != Some(pa) then [Upsert(k, pa)] else []) + (if x != Some(pb) then [Upsert(k, pb)] else [])
  }

  lemma PairRun(k: Key, pa: Row, pb: Row, x: Option<Row>)
    requires pa != pb
    ensures RunCell(PairOps(k, pa, pb, x), k, x) == Some(if x == Some(pb) then pa else pb)
  {
    var ops := PairOps(k, pa, pb, x);
    if x == Some(pa) {
      assert ops == [Upsert(k, pb)];
    } else if x == Some(pb) {
      assert ops == [Upsert(k, pa)];
    } else {
      assert ops == [Upsert(k, pa), Upsert(k, pb)] && ops[1..] == [Upsert(k, pb)];
      assert RunCell([Upsert(k, pb)], k, Some(pa)) == Some(pb);
    }
  }

  lemma PairBuffer(sweep: Op, k: Key, pa: Row, pb: Row, s: Store)
    requires k.table == "relations" && Apply(sweep, s) == s
    ensures BatchResult(sweep, [GraphItem(k, pa), GraphItem(k, pb)], s) == Run(PairOps(k, pa, pb, Cell(s, k)), s)
  {
    var ia, ib := GraphItem(k, pa), GraphItem(k, pb);
    assert [ia, ib][1..] == [ib];
    assert NodeOps([ib]) == [] && NodeOps([ia, ib]) == [];
    assert BufferOps([ib], s) == if Cell(s, k) != Some(pb) then [Upsert(k, pb)] else [];
  }

  /** Records of other tables only take node upserts, and those repeat. */
  lemma OtherRecordStays(cfg: Config, rows: seq<Change>, s: Store, k: Key)
    requires k.table != "relations"
    ensures Cell(GraphBatchResult(cfg, rows, GraphBatchResult(cfg, rows, s)), k)
         == Cell(GraphBatchResult(cfg, rows, s), k)
  {
    var nodes := NodeOps(Items(cfg, rows));
    NodeAfterBatch(cfg, rows, s, k);
    NodeAfterBatch(cfg, rows, GraphBatchResult(cfg, rows, s), k);
    ReplayAbsorbsPrefix(nodes, |nodes|, k, Cell(s, k));
    assert nodes[..|nodes|] == nodes;
  }

  lemma NodeAfterBatch(cfg: Config, rows: seq<Change>, s: Store, k: Key)
    requires k.table != "relations"
    ensures Cell(GraphBatchResult(cfg, rows, s), k) == RunCell(NodeOps(Items(cfg, rows)), k, Cell(s, k))
  {
    var items, swept := Items(cfg, rows), Apply(SweepOf(rows), s);
    RunIsLocal(NodeOps(items), swept, k);
    RunIsLocal(BufferOps(items, swept), Run(NodeOps(items), swept), k);
    NoRelationAt(items, swept, k);
    UpsertsElsewhere(BufferOps(items, swept), k, Cell(Run(NodeOps(items), swept), k));
    assert Cell(swept, k) == Cell(s, k);
  }

  /** A second run of the batch changes nothing, whatever was stored before the first. */
  ghost predicate Stabilises(cfg: Config, rows: seq<Change>) {
    forall s: Store :: GraphBatchResult(cfg, rows, GraphBatchResult(cfg, rows, s)) == GraphBatchResult(cfg, rows, s)
  }

  /**
   * Repeating a batch is harmless from every store if and only if, at every relation record, its payloads
   * agree or it sweeps the last of them itself. If it is not, no store at all is left alone by the batch.
   */
  lemma BatchStabilisesExactly(cfg: Config, rows: seq<Change>)
    ensures Stabilises(cfg, rows) <==> Settled(cfg, rows)
    ensures !Settled(cfg, rows) ==> forall s: Store :: GraphBatchResult(cfg, rows, s) != s
  {
    if Settled(cfg, rows) {
      forall s: Store
        ensures GraphBatchResult(cfg, rows, GraphBatchResult(cfg, rows, s)) == GraphBatchResult(cfg, rows, s)
      {
        SettledStoreStays(cfg, rows, s);
      }
    } else {
      var k: Key :| k.table == "relations" && !SettledAt(cfg, rows, k);
      forall s: Store
        ensures GraphBatchResult(cfg, rows, s) != s
      {
        UnsettledRecordChanges(cfg, rows, s, k);
      }
      assert GraphBatchResult(cfg, rows, GraphBatchResult(cfg, rows, map[])) != GraphBatchResult(cfg, rows, map[]);
    }
  }

  lemma SettledStoreStays(cfg: Config, rows: seq<Change>, s: Store)
    requires Settled(cfg, rows)
    ensures GraphBatchResult(cfg, rows, GraphBatchResult(cfg, rows, s)) == GraphBatchResult(cfg, rows, s)
  {
    var once := GraphBatchResult(cfg, rows, s);
    forall k
      ensures Cell(GraphBatchResult(cfg, rows, once), k) == Cell(once, k)
    {
      if k.table == "relations" {
        SettledRecordStays(cfg, rows, s, k);
      } else {
        OtherRecordStays(cfg, rows, s, k);
      }
    }
    SameCellsSameStore(GraphBatchResult(cfg, rows, once), once);
  }

  // ---- frontmatter reconciliation ----

  ghost predicate FrontmatterOf(file: string, k: Key, row: Row) {
    && k.table == "relations"
    && RelationType(row) in FRONTMATTER_TYPES
    && StrOrEmpty(Field(row, "source_id")) == file
  }

  /** Stored relations sit under the identifier their columns give; the writer stores `relation_id`. */
  ghost predicate WellKeyed(s: Store) {
    forall k | k in s && k.table == "relations" :: ExistingRelationId(k, s[k]) == k.raw
  }

  /** Payload preparation keeps the columns that identify a relation and its source. */
  ghost predicate KeepsRelationColumns(cfg: Config) {
    forall raw, row ::
      var p := cfg.prepare("relations", raw, row);
      && RelationType(p) == RelationType(row)
      && StrOrEmpty(Field(p, "source_id")) == StrOrEmpty(Field(row, "source_id"))
      && Field(p, "relation_id") == Field(row, "relation_id")
  }

  /** Every frontmatter-typed relation row about `file` is a complete row with a file as its source. */
  ghost predicate FrontmatterRowsAreFileRows(rows: seq<Change>, file: string) {
    forall c | c in rows && IsRelation(c) && RelationType(c.row) in FRONTMATTER_TYPES
               && StrOrEmpty(Field(c.row, "source_id")) == file :: Desires(c)
  }

  /** The columns that say which relation a row is about. */
  function Identity(row: Row): (Value, Value, Value, Value) {
    (Field(row, "rel_type"), Field(row, "relation_type"), Field(row, "source_id"), Field(row, "relation_id"))
  }

  lemma OtherColumnsKeepIdentity(row: Row, name: string, v: Value)
    requires name !in {"rel_type", "relation_type", "source_id", "relation_id"}
    ensures Identity(SetDefault(row, name, v)) == Identity(row)
    ensures Identity(SetUnlessNull(row, name, v)) == Identity(row)
  {
  }

  lemma TypedRowKeepsColumns(row: Row, raw: string)
    ensures RelationType(TypedRelationRow(row, raw)) == RelationType(row)
    ensures Field(TypedRelationRow(row, raw), "source_id") == Field(row, "source_id")
    ensures Field(TypedRelationRow(row, raw), "relation_id") ==
            if "relation_id" in row then row["relation_id"] else Text(raw)
  {
  }

  lemma RelationRowKeepsColumns(row: Row, raw: string)
    ensures Identity(RelationRow(row, raw)) == Identity(TypedRelationRow(row, raw))
  {
    var r3 := TypedRelationRow(row, raw);
    OtherColumnsKeepIdentity(r3, "weight", Val("1.0", true));
    var r4 := SetDefault(r3, "weight", Val("1.0", true));
    OtherColumnsKeepIdentity(r4, "properties", EMPTY_OBJECT);
    var r5 := SetDefault(r4, "properties", EMPTY_OBJECT);
    var source := Endpoint(Field(r5, "source_table"), Field(r5, "source_id"));
    OtherColumnsKeepIdentity(r5, "in", source);
    var r6 := SetUnlessNull(r5, "in", source);
    var target := Endpoint(Field(r6, "target_table"), Field(r6, "target_id"));
    OtherColumnsKeepIdentity(r6, "out", target);
    OtherColumnsKeepIdentity(SetUnlessNull(r6, "out", target), "metadata", EMPTY_OBJECT);
  }

  lemma GraphRowKeepsColumns(c: Change)
    requires IsRelation(c)
    ensures RelationType(GraphRow(c)) == RelationType(c.row)
    ensures Field(GraphRow(c), "source_id") == Field(c.row, "source_id")
    ensures Field(GraphRow(c), "relation_id") ==
            if "relation_id" in c.row then c.row["relation_id"] else Text(GraphKey(c).raw)
  {
    TypedRowKeepsColumns(c.row, GraphKey(c).raw);
    RelationRowKeepsColumns(c.row, GraphKey(c).raw);
    assert GraphRow(c) == RelationRow(c.row, GraphKey(c).raw);
  }

  ghost predicate WritesRelation(rows: seq<Change>, k: Key) {
    exists c :: c in rows && GraphKey(c) == k
  }

  /** Where a record of the relations table comes from after a batch. */
  lemma RelationCellAfterBatch(cfg: Config, rows: seq<Change>, s: Store, k: Key)
    requires k.table == "relations"
    ensures WritesRelation(rows, k) ==>
              exists c :: c in rows && GraphKey(c) == k
                          && Cell(Run(GraphBatchOps(cfg, rows), s), k) == Some(GraphPayload(cfg, c))
    ensures !WritesRelation(rows, k) ==> Cell(Run(GraphBatchOps(cfg, rows), s), k) == SweptAt(rows, s, k)
  {
    var items, last := Items(cfg, rows), LastPayload(cfg, rows, k);
    RelationAfterPlain(cfg, rows, s, k);
    WritesExactly(cfg, rows, k);
    if last.Some? {
      var i :| 0 <= i < |items| && items[i] == GraphItem(k, last.value);
      assert rows[i] in rows && GraphKey(rows[i]) == k;
    }
  }

  lemma WritesExactly(cfg: Config, rows: seq<Change>, k: Key)
    requires k.table == "relations"
    ensures WritesRelation(rows, k) <==> LastPayload(cfg, rows, k).Some?
    ensures LastPayload(cfg, rows, k).Some? ==> GraphItem(k, LastPayload(cfg, rows, k).value) in Items(cfg, rows)
  {
    var items, ps := Items(cfg, rows), PayloadsAt(Items(cfg, rows), k);
    PayloadMembers(items, k);
    assert ps != [] ==> ps[|ps| - 1] in ps;
    if c :| c in rows && GraphKey(c) == k {
      var i :| 0 <= i < |rows| && rows[i] == c;
      assert items[i] in items && items[i] == GraphItem(k, items[i].payload);
    }
    if ps != [] {
      var i :| 0 <= i < |items| && items[i] == GraphItem(k, ps[0]);
      assert rows[i] in rows && GraphKey(rows[i]) == k;
    }
  }

  lemma RelationKey(c: Change)
    ensures IsRelation(c) <==> GraphKey(c).table == "relations"
  {
  }

  /** Items of one record agree, so any two rows written there tell the same relation. */
  lemma SameRecordSameRelation(cfg: Config, rows: seq<Change>, c: Change, d: Change)
    requires RelationsAgree(cfg, rows) && KeepsRelationColumns(cfg)
    requires c in rows && d in rows && IsRelation(c) && GraphKey(c) == GraphKey(d)
    ensures RelationType(c.row) == RelationType(d.row) == RelationType(GraphPayload(cfg, c))
    ensures StrOrEmpty(Field(c.row, "source_id")) == StrOrEmpty(Field(d.row, "source_id"))
         == StrOrEmpty(Field(GraphPayload(cfg, c), "source_id"))
  {
    RelationKey(c);
    RelationKey(d);
    GraphRowKeepsColumns(c);
    GraphRowKeepsColumns(d);
    var items := Items(cfg, rows);
    var i :| 0 <= i < |rows| && rows[i] == c;
    var j :| 0 <= j < |rows| && rows[j] == d;
    assert items[i] in items && items[j] in items;
  }

  /**
   * Frontmatter reconciliation: after a batch that names a file, the file's stored HAS_TAG and
   * HAS_PARTICIPANT relations are exactly those the batch asks for, whatever was stored before.
   */
  lemma FrontmatterReconciled(cfg: Config, rows: seq<Change>, s: Store, file: string, k: Key)
    requires RelationsAgree(cfg, rows) && KeepsRelationColumns(cfg) && WellKeyed(s)
    requires file in SourcesOf(rows) && FrontmatterRowsAreFileRows(rows, file)
    ensures
      var after := Run(GraphBatchOps(cfg, rows), s);
      (k in after && FrontmatterOf(file, k, after[k])) <==>
      (exists c :: c in rows && Desires(c) && GraphKey(c) == k && StrOrEmpty(Field(c.row, "source_id")) == file)
  {
    var after := Run(GraphBatchOps(cfg, rows), s);
    forall c | c in rows && Desires(c)
      ensures GraphKey(c).table == "relations"
    {
      RelationKey(c);
    }
    if k.table == "relations" {
      RelationCellAfterBatch(cfg, rows, s, k);
      if WritesRelation(rows, k) {
        var c :| c in rows && GraphKey(c) == k && Cell(after, k) == Some(GraphPayload(cfg, c));
        RelationKey(c);
        forall d | d in rows && GraphKey(d) == k
          ensures RelationType(c.row) == RelationType(d.row) == RelationType(after[k])
          ensures StrOrEmpty(Field(c.row, "source_id")) == StrOrEmpty(Field(d.row, "source_id"))
               == StrOrEmpty(Field(after[k], "source_id"))
        {
          SameRecordSameRelation(cfg, rows, c, d);
        }
      } else if k in s && FrontmatterOf(file, k, s[k]) {
        UnwantedRelationIsStale(rows, s, file, k);
      }
    }
  }

  lemma UnwantedRelationIsStale(rows: seq<Change>, s: Store, file: string, k: Key)
    requires WellKeyed(s) && k in s && FrontmatterOf(file, k, s[k]) && file in SourcesOf(rows)
    requires !WritesRelation(rows, k)
    ensures Stale(rows, k, s[k])
  {
    forall c | c in rows && Desires(c)
      ensures GraphKey(c).raw != k.raw
    {
      RelationKey(c);
      assert GraphKey(c) != k;
    }
    assert (file, k.raw) !in DesiredBy(rows);
  }

  /** No other stored relation is lost: only frontmatter relations of the files a batch names are dropped. */
  lemma OtherRelationsSurvive(cfg: Config, rows: seq<Change>, s: Store, k: Key)
    requires k in s && k.table == "relations"
    requires forall file | file in SourcesOf(rows) :: !FrontmatterOf(file, k, s[k])
    ensures k in Run(GraphBatchOps(cfg, rows), s)
  {
    RelationCellAfterBatch(cfg, rows, s, k);
    assert !Stale(rows, k, s[k]);
  }

  /**
   * A file's relations must share a batch: a later batch that names the file without one of its stored
   * relations drops that relation, so splitting them over batches loses the earlier ones.
   */
  lemma LaterBatchDropsEarlierRelations(cfg: Config, later: seq<Change>, s: Store, file: string, k: Key)
    requires WellKeyed(s)
    requires k in s && FrontmatterOf(file, k, s[k]) && file in SourcesOf(later)
    requires !WritesRelation(later, k)
    ensures k !in Run(GraphBatchOps(cfg, later), s)
  {
    RelationCellAfterBatch(cfg, later, s, k);
    UnwantedRelationIsStale(later, s, file, k);
  }

  /** Repeating a batch changes nothing. */
  lemma RepeatedBatchIsStable(cfg: Config, rows: seq<Change>, s: Store)
    requires RelationsAgree(cfg, rows)
    ensures
      var once := GraphBatchResult(cfg, rows, s);
      GraphBatchResult(cfg, rows, once) == once
  {
    AgreeingIsSettled(cfg, rows);
    SettledStoreStays(cfg, rows, s);
  }

  /** Writing relation rows without an explicit null `relation_id` keeps the relations table well keyed. */
  lemma BatchKeepsTableWellKeyed(cfg: Config, rows: seq<Change>, s: Store)
    requires KeepsRelationColumns(cfg) && WellKeyed(s)
    requires forall c | c in rows && IsRelation(c) && "relation_id" in c.row :: Present(c.row, "relation_id")
    ensures WellKeyed(Run(GraphBatchOps(cfg, rows), s))
  {
    var after := Run(GraphBatchOps(cfg, rows), s);
    forall k | k in after && k.table == "relations"
      ensures ExistingRelationId(k, after[k]) == k.raw
    {
      RelationCellAfterBatch(cfg, rows, s, k);
      if WritesRelation(rows, k) {
        var c :| c in rows && GraphKey(c) == k && Cell(after, k) == Some(GraphPayload(cfg, c));
        RelationKey(c);
        StoredRelationIsKeyed(cfg, c);
      }
    }
  }

  lemma StoredRelationIsKeyed(cfg: Config, c: Change)
    requires KeepsRelationColumns(cfg) && IsRelation(c)
    requires "relation_id" in c.row ==> Present(c.row, "relation_id")
    ensures ExistingRelationId(GraphKey(c), GraphPayload(cfg, c)) == GraphKey(c).raw
  {
    GraphRowKeepsColumns(c);
    var p := GraphPayload(cfg, c);
    assert Field(p, "relation_id") == Field(GraphRow(c), "relation_id");
    StoredIdentifierWins(GraphKey(c), p);
    if "relation_id" in c.row {
      assert GraphKey(c).raw == RelationIdentifier(c);
    }
  }

  lemma StoredIdentifierWins(k: Key, row: Row)
    requires Present(row, "relation_id")
    ensures ExistingRelationId(k, row) == Field(row, "relation_id").text
  {
  }

  // ---- instances ----

  /** A relation of a file, its kind under either column name. */
  function Link(file: string, target: string, id: string, column: string, kind: string): Row {
    map["relation_id" := Text(id), "source_table" := Text("files"), "source_id" := Text(file),
        "target_id" := Text(target), column := Text(kind)]
  }

  predicate IsKind(column: string, kind: string) {
    column in {"rel_type", "relation_type"} && kind in {"HAS_TAG", "HAS_PARTICIPANT"}
  }

  lemma LinkDesires(file: string, target: string, id: string, column: string, kind: string)
    requires file != "" && target != "" && id != "" && IsKind(column, kind)
    ensures
      var c := Change(id, "relations", Link(file, target, id, column, kind), None);
      Desires(c) && GraphKey(c) == Key("relations", id) && StrOrEmpty(Field(c.row, "source_id")) == file
  {
  }

  lemma LinkIsKeyed(file: string, target: string, id: string, column: string, kind: string)
    requires file != "" && id != "" && column in {"rel_type", "relation_type"} && kind != ""
    ensures
      var k, row := Key("relations", id), Link(file, target, id, column, kind);
      && ExistingRelationId(k, row) == id && RelationType(row) == kind
      && (FrontmatterOf(file, k, row) <==> kind in {"HAS_TAG", "HAS_PARTICIPANT"})
  {
    StoredIdentifierWins(Key("relations", id), Link(file, target, id, column, kind));
  }

  /**
   * What reconciliation asks for is ordinary: a stored tag or participant of a file, and a batch that names
   * another one, the kind of either under either column.
   */
  lemma OneTagReplacesAnother(
    cfg: Config, file: string, tag: string, id: string, column: string, kind: string, oldTag: string,
    oldId: string, oldColumn: string, oldKind: string)
    requires KeepsRelationColumns(cfg) && file != "" && tag != "" && id != "" && oldId != "" && id != oldId
    requires IsKind(column, kind) && IsKind(oldColumn, oldKind)
    ensures
      var rows := [Change(id, "relations", Link(file, tag, id, column, kind), None)];
      var s: Store := map[Key("relations", oldId) := Link(file, oldTag, oldId, oldColumn, oldKind)];
      var after := Run(GraphBatchOps(cfg, rows), s);
      Key("relations", id) in after && Key("relations", oldId) !in after
  {
    var c := Change(id, "relations", Link(file, tag, id, column, kind), None);
    var s: Store := map[Key("relations", oldId) := Link(file, oldTag, oldId, oldColumn, oldKind)];
    LinkDesires(file, tag, id, column, kind);
    LinkIsKeyed(file, oldTag, oldId, oldColumn, oldKind);
    OneRowReconciles(cfg, c, s, file, Key("relations", oldId));
  }

  lemma OneRowReconciles(cfg: Config, c: Change, s: Store, file: string, k: Key)
    requires KeepsRelationColumns(cfg) && WellKeyed(s) && Desires(c) && StrOrEmpty(Field(c.row, "source_id")) == file
    requires k in s && FrontmatterOf(file, k, s[k]) && GraphKey(c) != k
    ensures GraphKey(c) in Run(GraphBatchOps(cfg, [c]), s) && k !in Run(GraphBatchOps(cfg, [c]), s)
  {
    assert forall d | d in [c] :: d == c;
    assert file in SourcesOf([c]);
    assert c in [c];
    FrontmatterReconciled(cfg, [c], s, file, GraphKey(c));
    LaterBatchDropsEarlierRelations(cfg, [c], s, file, k);
  }

  /** A file row alone drops the file's stored tags and participants, and no relation of another kind. */
  lemma FileRowDropsItsTags(
    cfg: Config, file: string, c: Change, target: string, id: string, column: string, kind: string)
    requires file != "" && id != "" && column in {"rel_type", "relation_type"} && kind != ""
    requires c.table == "files" && Field(c.row, "original_id") == Text(file)
    ensures
      var k := Key("relations", id);
      var s: Store := map[k := Link(file, target, id, column, kind)];
      k in Run(GraphBatchOps(cfg, [c]), s) <==> kind !in {"HAS_TAG", "HAS_PARTICIPANT"}
  {
    var k := Key("relations", id);
    var s: Store := map[k := Link(file, target, id, column, kind)];
    LinkIsKeyed(file, target, id, column, kind);
    FileIsNamed(c, file);
    assert forall d | d in [c] :: d == c;
    assert c in [c];
    if kind in {"HAS_TAG", "HAS_PARTICIPANT"} {
      LaterBatchDropsEarlierRelations(cfg, [c], s, file, k);
    } else {
      OtherRelationsSurvive(cfg, [c], s, k);
    }
  }

  lemma FileIsNamed(c: Change, file: string)
    requires c.table == "files" && Field(c.row, "original_id") == Text(file) && file != ""
    ensures NamesFile(c) && GraphKey(c) == Key("files", file) && !IsRelation(c)
  {
  }

  /**
   * A row that is not a complete relation of a file names no file: the stored tags of the file it mentions
   * stay.
   */
  lemma OtherSourcesDropNothing(
    cfg: Config, row: Row, ref: string, file: string, target: string, id: string, column: string, kind: string)
    requires file != "" && id != "" && IsKind(column, kind)
    requires StrOrEmpty(Field(row, "source_table")) != "files"
          || StrOrEmpty(Field(row, "target_id")) == ""
    ensures
      var k := Key("relations", id);
      var s: Store := map[k := Link(file, target, id, column, kind)];
      k in Run(GraphBatchOps(cfg, [Change(ref, "relations", row, None)]), s)
  {
    var c := Change(ref, "relations", row, None);
    assert forall d | d in [c] :: d == c;
    assert !Desires(c) && !NamesFile(c);
    OtherRelationsSurvive(cfg, [c], map[Key("relations", id) := Link(file, target, id, column, kind)],
                          Key("relations", id));
  }
}
