/** The ordered phases of a manifest and the store operations each of them stands for. */
module DeltaPlan {
  import opened DeltaTypes
  import opened Wrappers
  import opened DeltaIdentifiers
  import opened DeltaOps

  datatype PhaseName =
    | Tombstones | Documents | SourceUnits | Chunks | ChunkFileBindings | Provenance | ResourceBindings
    | Fingerprints | Embeddings | VectorComponents | Graph | Feedback | CheckpointCandidate

  datatype Phase = Phase(name: PhaseName, rows: seq<Change>)

  /**
   * What the writer is built from: payload preparation (which for vector components alone also looks at
   * the stored embeddings), the derived vector row id, and the namespace of the checkpoint record.
   */
  datatype Config = Config(
    prepare: (string, string, Row) -> Row,
    prepareComponent: (string, Row, Store) -> Row,
    vectorRowid: (string, Row) -> Value,
    checkpointNamespace: string)

  // ---- manifest order ----

  function Sections(m: Manifest): seq<(PhaseName, Section)> {
    [(Documents, m.documents), (SourceUnits, m.sourceUnits), (Chunks, m.chunks),
     (ChunkFileBindings, m.chunkFileBindings), (Provenance, m.provenance),
     (ResourceBindings, m.resourceBindings), (Fingerprints, m.fingerprints),
     (Embeddings, m.embeddings), (VectorComponents, m.vectorComponents), (Graph, m.graph),
     (Feedback, m.feedback)]
  }

  predicate LexLess(a: string, b: string) {
    b != [] && (a == [] || a[0] < b[0] || (a[0] == b[0] && LexLess(a[1..], b[1..])))
  }

  /** The sort key `(table, ref)`. */
  predicate SortsBefore(a: Change, b: Change) {
    LexLess(a.table, b.table) || (a.table == b.table && LexLess(a.ref, b.ref))
  }

  /** Stable insertion: x goes after every element that does not sort after it. */
  function Insert(x: Change, sorted: seq<Change>): seq<Change> {
    if sorted == [] || SortsBefore(x, sorted[0]) then [x] + sorted
    else [sorted[0]] + Insert(x, sorted[1..])
  }

  /** `sorted(rows, key=(table, ref))`. */
  function SortChanges(rows: seq<Change>): seq<Change> {
    if rows == [] then [] else Insert(rows[|rows| - 1], SortChanges(rows[..|rows| - 1]))
  }

  function TombstonesOf(rows: seq<Change>): seq<Change> {
    if rows == [] then []
    else (if rows[0].tombstone.Some? then [rows[0]] else []) + TombstonesOf(rows[1..])
  }

  function UpsertsOf(rows: seq<Change>): seq<Change> {
    if rows == [] then []
    else (if rows[0].tombstone.None? then [rows[0]] else []) + UpsertsOf(rows[1..])
  }

  function AllTombstones(sections: seq<(PhaseName, Section)>): seq<Change> {
    if sections == [] then [] else TombstonesOf(sections[0].1.rows) + AllTombstones(sections[1..])
  }

  function SectionPhase(name: PhaseName, section: Section): Phase {
    Phase(name, if section.deferred then [] else UpsertsOf(SortChanges(section.rows)))
  }

  function UpsertPhases(sections: seq<(PhaseName, Section)>): seq<Phase> {
    if sections == [] then []
    else [SectionPhase(sections[0].0, sections[0].1)] + UpsertPhases(sections[1..])
  }

  /** `_manifest_units`. */
  function Phases(m: Manifest): seq<Phase> {
    [Phase(Tombstones, SortChanges(AllTombstones(Sections(m))))]
    + UpsertPhases(Sections(m))
    + [Phase(CheckpointCandidate, [])]
  }

  function PhaseUnits(p: Phase): nat {
    if p.name == CheckpointCandidate then 1 else |p.rows|
  }

  /** No two phases have one name. */
  ghost predicate DistinctNames(ps: seq<Phase>) {
    forall i, j | 0 <= i < j < |ps| :: ps[i].name != ps[j].name
  }

  function Names(ps: seq<Phase>): (names: seq<PhaseName>)
    ensures |names| == |ps|
    ensures forall i | 0 <= i < |ps| :: names[i] == ps[i].name
  {
    if ps == [] then [] else [ps[0].name] + Names(ps[1..])
  }

  const PHASE_NAMES: seq<PhaseName> :=
    [Tombstones, Documents, SourceUnits, Chunks, ChunkFileBindings, Provenance, ResourceBindings,
     Fingerprints, Embeddings, VectorComponents, Graph, Feedback, CheckpointCandidate]

  function Position(name: PhaseName): nat {
    match name
    case Tombstones => 0
    case Documents => 1
    case SourceUnits => 2
    case Chunks => 3
    case ChunkFileBindings => 4
    case Provenance => 5
    case ResourceBindings => 6
    case Fingerprints => 7
    case Embeddings => 8
    case VectorComponents => 9
    case Graph => 10
    case Feedback => 11
    case CheckpointCandidate => 12
  }

  /** The plan always has these thirteen phases in this order, the checkpoint last. */
  lemma {:induction false} PhaseOrder(m: Manifest)
    ensures |Phases(m)| == 13
    ensures forall i | 0 <= i < 13 :: Position(Phases(m)[i].name) == i
    ensures DistinctNames(Phases(m))
    ensures Names(Phases(m)) == PHASE_NAMES
  {
    var sections := Sections(m);
    UpsertPhaseAt(sections);
    forall i | 0 <= i < 13
      ensures Position(Phases(m)[i].name) == i
    {
      SectionPosition(m);
      if 0 < i < 12 {
        assert Phases(m)[i] == UpsertPhases(sections)[i - 1];
      }
    }
    forall i | 0 <= i < 13
      ensures PHASE_NAMES[i] == Phases(m)[i].name
    {
      assert Position(PHASE_NAMES[i]) == i;
    }
  }

  lemma SectionPosition(m: Manifest)
    ensures forall i | 0 <= i < |Sections(m)| :: Position(Sections(m)[i].0) == i + 1
  {
  }

  lemma {:induction false} UpsertPhaseAt(sections: seq<(PhaseName, Section)>)
    ensures |UpsertPhases(sections)| == |sections|
    ensures forall i | 0 <= i < |sections| ::
              UpsertPhases(sections)[i] == SectionPhase(sections[i].0, sections[i].1)
  {
    if sections == [] {
    } else {
      UpsertPhaseAt(sections[1..]);
    }
  }

  // ---- what becomes of a section's rows ----

  /** The rows of all eleven sections, deferred or not. */
  function AllRows(m: Manifest): seq<Change> {
    Flat([m.documents.rows, m.sourceUnits.rows, m.chunks.rows, m.chunkFileBindings.rows, m.provenance.rows,
          m.resourceBindings.rows, m.fingerprints.rows, m.embeddings.rows, m.vectorComponents.rows,
          m.graph.rows, m.feedback.rows])
  }

  function RowLists(sections: seq<(PhaseName, Section)>): (lists: seq<seq<Change>>)
    ensures |lists| == |sections| && forall i | 0 <= i < |lists| :: lists[i] == sections[i].1.rows
  {
    seq(|sections|, i requires 0 <= i < |sections| => sections[i].1.rows)
  }

  lemma {:induction false} TombstonesCount(rows: seq<Change>, c: Change)
    ensures multiset(TombstonesOf(rows))[c] == if c.tombstone.Some? then multiset(rows)[c] else 0
  {
    if rows == [] {
    } else {
      TombstonesCount(rows[1..], c);
      assert rows == [rows[0]] + rows[1..];
    }
  }

  lemma {:induction false} UpsertsCount(rows: seq<Change>, c: Change)
    ensures multiset(UpsertsOf(rows))[c] == if c.tombstone.None? then multiset(rows)[c] else 0
  {
    if rows == [] {
    } else {
      UpsertsCount(rows[1..], c);
      assert rows == [rows[0]] + rows[1..];
    }
  }

  lemma {:induction false} AllTombstonesCount(sections: seq<(PhaseName, Section)>, c: Change)
    ensures multiset(AllTombstones(sections))[c] ==
            if c.tombstone.Some? then multiset(Flat(RowLists(sections)))[c] else 0
  {
    if sections == [] {
    } else {
      AllTombstonesCount(sections[1..], c);
      TombstonesCount(sections[0].1.rows, c);
      assert RowLists(sections)[1..] == RowLists(sections[1..]);
    }
  }

  lemma ManifestRows(m: Manifest)
    ensures Flat(RowLists(Sections(m))) == AllRows(m)
  {
    assert RowLists(Sections(m)) ==
      [m.documents.rows, m.sourceUnits.rows, m.chunks.rows, m.chunkFileBindings.rows, m.provenance.rows,
       m.resourceBindings.rows, m.fingerprints.rows, m.embeddings.rows, m.vectorComponents.rows,
       m.graph.rows, m.feedback.rows];
  }

  /**
   * The tombstone phase holds exactly the rows of the eleven sections that carry a tombstone, deferred
   * sections included, each as often as it occurs, in the order of table and ref.
   */
  lemma TombstonePhaseRows(m: Manifest, c: Change)
    ensures |Phases(m)| == 13 && Phases(m)[0].name == Tombstones && Sorted(Phases(m)[0].rows)
    ensures multiset(Phases(m)[0].rows)[c] == if c.tombstone.Some? then multiset(AllRows(m))[c] else 0
  {
    var all := AllTombstones(Sections(m));
    PhaseOrder(m);
    assert Phases(m)[0] == Phase(Tombstones, SortChanges(all));
    SortKeepsChanges(all);
    SortIsStable(all, "", "");
    AllTombstonesCount(Sections(m), c);
    ManifestRows(m);
  }

  /** A section's phase holds exactly its other rows, each as often as it occurs, or none if it is deferred. */
  lemma SectionPhaseRows(name: PhaseName, section: Section, c: Change)
    ensures SectionPhase(name, section).name == name
    ensures multiset(SectionPhase(name, section).rows)[c] ==
            if section.deferred || c.tombstone.Some? then 0 else multiset(section.rows)[c]
  {
    SortKeepsChanges(section.rows);
    UpsertsCount(SortChanges(section.rows), c);
  }

  // ---- sorting ----

  lemma {:induction false} LexTotal(a: string, b: string)
    ensures a == b || LexLess(a, b) || LexLess(b, a)
    ensures LexLess(a, b) ==> !LexLess(b, a)
    ensures !LexLess(a, a)
  {
    if a == [] || b == [] {
      assert a == [] && b == [] ==> a == b;
    } else {
      LexTotal(a[1..], b[1..]);
      assert a == [a[0]] + a[1..] && b == [b[0]] + b[1..];
    }
    if a != [] {
      LexTotal(a[1..], a[1..]);
    }
  }

  lemma {:induction false} LexTransitive(a: string, b: string, c: string)
    requires LexLess(a, b) && LexLess(b, c)
    ensures LexLess(a, c)
  {
    if a != [] && a[0] == b[0] == c[0] {
      LexTransitive(a[1..], b[1..], c[1..]);
    }
  }

  /** What sorts before something that does not sort after a third thing does not sort after it either. */
  lemma SortsBeforeOrders(x: Change, a: Change, b: Change)
    requires SortsBefore(x, a) && !SortsBefore(b, a)
    ensures SortsBefore(x, b)
  {
    LexTotal(a.table, b.table);
    LexTotal(a.ref, b.ref);
    if LexLess(x.table, a.table) && LexLess(a.table, b.table) {
      LexTransitive(x.table, a.table, b.table);
    }
    if LexLess(x.ref, a.ref) && LexLess(a.ref, b.ref) {
      LexTransitive(x.ref, a.ref, b.ref);
    }
  }

  predicate Sorted(rows: seq<Change>) {
    forall i, j | 0 <= i < j < |rows| :: !SortsBefore(rows[j], rows[i])
  }

  /** The changes with one sort key, in order. */
  function WithSortKey(rows: seq<Change>, table: string, ref: string): seq<Change> {
    if rows == [] then []
    else (if rows[0].table == table && rows[0].ref == ref then [rows[0]] else []) + WithSortKey(rows[1..], table, ref)
  }

  lemma BeforeAll(x: Change, sorted: seq<Change>)
    requires Sorted(sorted) && sorted != [] && SortsBefore(x, sorted[0])
    ensures forall c | c in sorted :: !SortsBefore(c, x) && !(c.table == x.table && c.ref == x.ref)
  {
    forall c | c in sorted
      ensures !SortsBefore(c, x) && !(c.table == x.table && c.ref == x.ref)
    {
      var i :| 0 <= i < |sorted| && sorted[i] == c;
      LexTotal(c.table, c.table);
      LexTotal(c.ref, c.ref);
      SortsBeforeOrders(x, sorted[0], c);
      LexTotal(x.table, c.table);
      LexTotal(x.ref, c.ref);
    }
  }

  lemma {:induction false} InsertSorts(x: Change, sorted: seq<Change>)
    requires Sorted(sorted)
    ensures Sorted(Insert(x, sorted))
    ensures forall c :: c in Insert(x, sorted) <==> c == x || c in sorted
  {
    if sorted == [] {
    } else {
      var rest := sorted[1..];
      if SortsBefore(x, sorted[0]) {
        BeforeAll(x, sorted);
      } else {
        InsertSorts(x, rest);
        var tail := Insert(x, rest);
        forall c | c in tail
          ensures !SortsBefore(c, sorted[0])
        {
          if c in rest {
            var i :| 0 <= i < |rest| && rest[i] == c;
            assert sorted[i + 1] == c;
          }
        }
      }
    }
  }

  lemma FirstWithSortKey(x: Change, rows: seq<Change>, table: string, ref: string)
    ensures WithSortKey([x] + rows, table, ref) ==
            (if x.table == table && x.ref == ref then [x] else []) + WithSortKey(rows, table, ref)
  {
    assert ([x] + rows)[1..] == rows;
  }

  lemma {:induction false} InsertIsStable(x: Change, sorted: seq<Change>, table: string, ref: string)
    requires Sorted(sorted)
    ensures WithSortKey(Insert(x, sorted), table, ref) ==
            WithSortKey(sorted, table, ref) + (if x.table == table && x.ref == ref then [x] else [])
  {
    if sorted == [] {
    } else if SortsBefore(x, sorted[0]) {
      BeforeAll(x, sorted);
      FirstWithSortKey(x, sorted, table, ref);
      if x.table == table && x.ref == ref {
        NoneWithSortKey(sorted, table, ref);
      }
    } else {
      var tail := Insert(x, sorted[1..]);
      InsertIsStable(x, sorted[1..], table, ref);
      FirstWithSortKey(sorted[0], tail, table, ref);
    }
  }

  lemma {:induction false} NoneWithSortKey(rows: seq<Change>, table: string, ref: string)
    requires forall c | c in rows :: !(c.table == table && c.ref == ref)
    ensures WithSortKey(rows, table, ref) == []
  {
    if rows == [] {
    } else {
      NoneWithSortKey(rows[1..], table, ref);
    }
  }

  lemma {:induction false} WithSortKeyConcat(a: seq<Change>, b: seq<Change>, table: string, ref: string)
    ensures WithSortKey(a + b, table, ref) == WithSortKey(a, table, ref) + WithSortKey(b, table, ref)
  {
    if a == [] {
      assert a + b == b;
    } else {
      assert (a + b)[1..] == a[1..] + b;
      WithSortKeyConcat(a[1..], b, table, ref);
    }
  }

  /** The result is in the order of (table, ref), and changes that tie keep their order. */
  lemma {:induction false} SortIsStable(rows: seq<Change>, table: string, ref: string)
    ensures Sorted(SortChanges(rows))
    ensures WithSortKey(SortChanges(rows), table, ref) == WithSortKey(rows, table, ref)
  {
    if rows == [] {
    } else {
      var init, x := rows[..|rows| - 1], rows[|rows| - 1];
      assert rows == init + [x] && [x][1..] == [];
      SortIsStable(init, table, ref);
      InsertSorts(x, SortChanges(init));
      InsertIsStable(x, SortChanges(init), table, ref);
      WithSortKeyConcat(init, [x], table, ref);
    }
  }

  /** Sorting loses and invents no change. */
  lemma {:induction false} SortKeepsChanges(rows: seq<Change>)
    ensures multiset(SortChanges(rows)) == multiset(rows)
  {
    if rows == [] {
    } else {
      SortKeepsChanges(rows[..|rows| - 1]);
      InsertKeepsChanges(rows[|rows| - 1], SortChanges(rows[..|rows| - 1]));
      assert rows == rows[..|rows| - 1] + [rows[|rows| - 1]];
    }
  }

  lemma {:induction false} InsertKeepsChanges(x: Change, sorted: seq<Change>)
    ensures multiset(Insert(x, sorted)) == multiset(sorted) + multiset{x}
  {
    if sorted != [] && !SortsBefore(x, sorted[0]) {
      InsertKeepsChanges(x, sorted[1..]);
      assert sorted == [sorted[0]] + sorted[1..];
    }
  }

  // ---- rows to stored rows ----

  function FirstColon(s: string): (i: nat)
    ensures i <= |s|
    ensures i < |s| ==> s[i] == ':'
    ensures forall j | 0 <= j < i :: s[j] != ':'
  {
    if s == [] || s[0] == ':' then 0 else 1 + FirstColon(s[1..])
  }

  const EMPTY_OBJECT := Val("{}", false)
  const EMPTY_LIST := Val("[]", false)

  function TableOf(name: PhaseName): string {
    match name
    case Tombstones => ""
    case Documents => "documents"
    case SourceUnits => "source_units"
    case Chunks => "chunks"
    case ChunkFileBindings => "chunk_file_bindings"
    case Provenance => "provenance"
    case ResourceBindings => "bindings"
    case Fingerprints => "fingerprints"
    case Embeddings => "embeddings"
    case VectorComponents => "vector_components"
    case Graph => ""
    case Feedback => "feedback"
    case CheckpointCandidate => "checkpoints"
  }

  lemma EmbeddingsTable(name: PhaseName)
    ensures TableOf(name) == "embeddings" <==> name == Embeddings
  {
  }

  /** The defaults each `write_*` method fills in before `_upsert_point`. */
  function SectionRow(cfg: Config, name: PhaseName, change: Change): Row {
    var raw := RawIdentifier(TableOf(name), change);
    var row := change.row;
    match name
    case Documents =>
      var row := SetDefault(row, "ref", Text(raw));
      var i := FirstColon(raw);
      var row :=
        if i < |raw| then
          SetDefault(SetDefault(row, "namespace", Text(raw[..i])), "document_ref", Text(raw[i + 1..]))
        else row;
      SetDefault(row, "metadata", EMPTY_OBJECT)
    case SourceUnits => SetDefault(SetDefault(row, "ref", Text(raw)), "metadata", EMPTY_OBJECT)
    case Chunks =>
      var row := SetDefault(row, "chunk_id", Or(Field(row, "chunk_id"), Text(raw)));
      var row := SetDefault(row, "original_chunk_id",
                            Or(Field(row, "original_chunk_id"), Field(row, "chunk_id")));
      SetDefault(SetDefault(row, "ref", Text(raw)), "metadata", EMPTY_OBJECT)
    case ChunkFileBindings => SetDefault(SetDefault(row, "binding_id", Text(raw)), "metadata", EMPTY_OBJECT)
    case Provenance =>
      SetDefault(SetDefault(SetDefault(row, "provenance_id", Text(raw)), "source_unit_refs", EMPTY_LIST),
                 "metadata", EMPTY_OBJECT)
    case ResourceBindings => BindingRow(change)
    case Fingerprints => SetDefault(SetDefault(row, "fingerprint_id", Text(raw)), "metadata", EMPTY_OBJECT)
    case Embeddings =>
      var row := SetDefault(row, "metadata", EMPTY_OBJECT);
      if Field(row, "vector_rowid") in {Null, Text("")} then
        row["vector_rowid" := cfg.vectorRowid(raw, row)]
      else row
    case VectorComponents => SetDefault(row, "metadata", EMPTY_OBJECT)
    case Feedback => SetDefault(SetDefault(row, "original_feedback_id", Text(raw)), "metadata", EMPTY_OBJECT)
    case _ => row
  }

  /** The stored embeddings, the one table payload preparation may read. */
  function EmbeddingsIn(s: Store): Store {
    map k | k in s && k.table == "embeddings" :: s[k]
  }

  function Payload(cfg: Config, name: PhaseName, change: Change, embeddings: Store): Row {
    var table := TableOf(name);
    var raw := RawIdentifier(table, change);
    if name == VectorComponents then cfg.prepareComponent(raw, SectionRow(cfg, name, change), embeddings)
    else cfg.prepare(table, raw, SectionRow(cfg, name, change))
  }

  function SectionKey(name: PhaseName, change: Change): Key {
    Key(TableOf(name), RawIdentifier(TableOf(name), change))
  }

  // ---- graph rows ----

  predicate NodeTable(table: string) {
    table in {"files", "sections", "entities", "tags"}
  }

  predicate IsRelation(change: Change) {
    NormalizeTable(change.table) == "relations"
  }

  function GraphKey(change: Change): Key {
    var table := NormalizeTable(change.table);
    Key(table, RawIdentifier(table, change))
  }

  function Endpoint(table: Value, raw: Value): Value {
    if table in {Null, Text("")} || raw in {Null, Text("")} then Null
    else Val(NormalizeTable(table.text) + ":" + raw.text, true)
  }

  function SetUnlessNull(row: Row, name: string, v: Value): Row {
    if v.Null? then row else SetDefault(row, name, v)
  }

  function TypedRelationRow(row: Row, raw: string): Row {
    var relType := Or(Field(row, "rel_type"), Field(row, "relation_type"));
    SetUnlessNull(SetUnlessNull(SetDefault(row, "relation_id", Text(raw)), "rel_type", relType),
                  "relation_type", relType)
  }

  function RelationRow(row: Row, raw: string): Row {
    var row := TypedRelationRow(row, raw);
    var row := SetDefault(SetDefault(row, "weight", Val("1.0", true)), "properties", EMPTY_OBJECT);
    var row := SetUnlessNull(row, "in", Endpoint(Field(row, "source_table"), Field(row, "source_id")));
    var row := SetUnlessNull(row, "out", Endpoint(Field(row, "target_table"), Field(row, "target_id")));
    SetDefault(row, "metadata", EMPTY_OBJECT)
  }

  /** The defaults `write_graph` fills in. */
  function GraphRow(change: Change): Row {
    var key := GraphKey(change);
    var row := change.row;
    match key.table
    case "files" =>
      var row := SetDefault(row, "original_id", Text(key.raw));
      var row := SetDefault(row, "path", Or(Or(Field(row, "path"), Field(row, "file_path")), Text(key.raw)));
      SetDefault(row, "file_path", Or(Field(row, "file_path"), Field(row, "path")))
    case "sections" =>
      SetDefault(SetDefault(row, "original_id", Text(key.raw)),
                 "chunk_id", Or(Field(row, "chunk_id"), Text(key.raw)))
    case "entities" =>
      var row := SetDefault(row, "original_id", Text(key.raw));
      var row := SetDefault(row, "name", Or(Field(row, "name"), Text(key.raw)));
      SetDefault(row, "original_entity_name", Or(Field(row, "original_entity_name"), Field(row, "name")))
    case "tags" =>
      SetDefault(SetDefault(row, "original_id", Text(key.raw)), "name", Or(Field(row, "name"), Text(key.raw)))
    case "relations" => RelationRow(row, key.raw)
    case _ => row
  }

  function GraphPayload(cfg: Config, change: Change): Row {
    cfg.prepare(GraphKey(change).table, GraphKey(change).raw, GraphRow(change))
  }

  const FRONTMATTER_TYPES: set<string> := {"HAS_TAG", "HAS_PARTICIPANT"}

  function RelationType(row: Row): string {
    StrOrEmpty(Or(Field(row, "rel_type"), Field(row, "relation_type")))
  }

  /** A relation row that says which frontmatter relation of a file should exist. */
  predicate Desires(change: Change) {
    && IsRelation(change)
    && RelationType(change.row) in FRONTMATTER_TYPES
    && StrOrEmpty(Field(change.row, "source_table")) == "files"
    && StrOrEmpty(Field(change.row, "source_id")) != ""
    && StrOrEmpty(Field(change.row, "target_id")) != ""
  }

  predicate NamesFile(change: Change) {
    NormalizeTable(change.table) == "files" && GraphKey(change).raw != ""
  }

  /** The files whose frontmatter relations a batch reconciles. */
  function SourcesOf(rows: seq<Change>): set<string> {
    (set c | c in rows && NamesFile(c) :: GraphKey(c).raw)
    + (set c | c in rows && Desires(c) :: StrOrEmpty(Field(c.row, "source_id")))
  }

  /** (file, relation id) pairs a batch wants kept. */
  function DesiredBy(rows: seq<Change>): set<(string, string)> {
    set c | c in rows && Desires(c) :: (StrOrEmpty(Field(c.row, "source_id")), GraphKey(c).raw)
  }

  /** The identifier `_delete_stale_frontmatter_relations` computes for an existing row. */
  function ExistingRelationId(k: Key, row: Row): string {
    var ref := Or(Field(row, "relation_id"), Text(k.table + ":" + k.raw));
    RawIdentifier("relations", Change(ref.text, "relations", row, None))
  }

  predicate Stale(rows: seq<Change>, k: Key, row: Row) {
    && k.table == "relations"
    && RelationType(row) in FRONTMATTER_TYPES
    && StrOrEmpty(Field(row, "source_id")) in SourcesOf(rows)
    && (StrOrEmpty(Field(row, "source_id")), ExistingRelationId(k, row)) !in DesiredBy(rows)
  }

  // ---- phases to operations ----

  ghost function RowOp(cfg: Config, name: PhaseName, change: Change, embeddings: Store): Op {
    if name == Tombstones then Delete(TombstoneKey(change))
    else Upsert(SectionKey(name, change), Payload(cfg, name, change, embeddings))
  }

  ghost function RowOps(cfg: Config, name: PhaseName, rows: seq<Change>, embeddings: Store): (ops: seq<Op>)
    ensures |ops| == |rows|
    ensures forall i | 0 <= i < |rows| :: ops[i] == RowOp(cfg, name, rows[i], embeddings)
  {
    if rows == [] then []
    else [RowOp(cfg, name, rows[0], embeddings)] + RowOps(cfg, name, rows[1..], embeddings)
  }

  /** A graph row as it is to be stored. */
  datatype GraphItem = GraphItem(key: Key, payload: Row) {
    predicate IsRelation() {
      key.table == "relations"
    }
  }

  function Items(cfg: Config, rows: seq<Change>): (items: seq<GraphItem>)
    ensures |items| == |rows|
    ensures forall i | 0 <= i < |rows| :: items[i] == GraphItem(GraphKey(rows[i]), GraphPayload(cfg, rows[i]))
  {
    if rows == [] then []
    else [GraphItem(GraphKey(rows[0]), GraphPayload(cfg, rows[0]))] + Items(cfg, rows[1..])
  }

  ghost function NodeOps(items: seq<GraphItem>): seq<Op> {
    if items == [] then []
    else (if items[0].IsRelation() then [] else [Upsert(items[0].key, items[0].payload)]) + NodeOps(items[1..])
  }

  ghost function RelationOps(items: seq<GraphItem>): seq<Op> {
    if items == [] then []
    else (if items[0].IsRelation() then [Upsert(items[0].key, items[0].payload)] else []) + RelationOps(items[1..])
  }

  ghost function SweepOf(rows: seq<Change>): Op {
    Sweep((k: Key, row: Row) => Stale(rows, k, row))
  }

  ghost function PlainBatchOps(sweep: Op, items: seq<GraphItem>): seq<Op> {
    [sweep] + NodeOps(items) + RelationOps(items)
  }

  /** What a graph batch should do: drop stale frontmatter relations, write nodes, write relations. */
  ghost function GraphBatchOps(cfg: Config, rows: seq<Change>): seq<Op> {
    PlainBatchOps(SweepOf(rows), Items(cfg, rows))
  }

  /** `_chunk_rows`. */
  function Batches(rows: seq<Change>, size: nat): (bs: seq<seq<Change>>)
    requires size > 0
  {
    if rows == [] then []
    else if |rows| <= size then [rows]
    else [rows[..size]] + Batches(rows[size..], size)
  }

  function Flat(bs: seq<seq<Change>>): seq<Change> {
    if bs == [] then [] else bs[0] + Flat(bs[1..])
  }

  lemma {:induction false} FlatBatches(rows: seq<Change>, size: nat)
    requires size > 0
    ensures Flat(Batches(rows, size)) == rows
    decreases |rows|
  {
    if |rows| > size {
      FlatBatches(rows[size..], size);
      assert Batches(rows, size)[1..] == Batches(rows[size..], size);
      assert rows == rows[..size] + rows[size..];
    } else if rows != [] {
      assert [rows][1..] == [] && rows + [] == rows;
    }
  }

  /** Batches are full but for the last one, none is empty, and together they are the rows in order. */
  lemma {:induction false} BatchesAreFull(rows: seq<Change>, size: nat)
    requires size > 0
    ensures Flat(Batches(rows, size)) == rows
    ensures forall b | b in Batches(rows, size) :: 0 < |b| <= size
    ensures forall i | 0 <= i < |Batches(rows, size)| - 1 :: |Batches(rows, size)[i]| == size
    decreases |rows|
  {
    FlatBatches(rows, size);
    if |rows| > size {
      BatchesAreFull(rows[size..], size);
      var rest := Batches(rows[size..], size);
      assert Batches(rows, size) == [rows[..size]] + rest;
      assert forall i | 0 < i < |rest| :: Batches(rows, size)[i] == rest[i - 1];
    }
  }

  ghost function BatchOps(cfg: Config, name: PhaseName, batch: seq<Change>, embeddings: Store): seq<Op> {
    if name == Graph then GraphBatchOps(cfg, batch) else RowOps(cfg, name, batch, embeddings)
  }

  ghost function BatchesOps(cfg: Config, name: PhaseName, bs: seq<seq<Change>>, embeddings: Store): seq<Op> {
    if bs == [] then []
    else BatchOps(cfg, name, bs[0], embeddings) + BatchesOps(cfg, name, bs[1..], embeddings)
  }

  function CheckpointPayload(cfg: Config, c: Checkpoint): Row {
    var raw := cfg.checkpointNamespace;
    cfg.prepare("checkpoints", raw,
                map["namespace" := Text(raw), "checkpoint_cursor" := c.cursor,
                    "last_success_at" := c.sourceTime, "last_error" := Null,
                    "metadata" := Val("watermark=" + Str(c.watermark) + ",advanced=False", true)])
  }

  function CheckpointKey(cfg: Config): Key {
    Key("checkpoints", cfg.checkpointNamespace)
  }

  ghost function PhaseOps(cfg: Config, c: Checkpoint, size: nat, p: Phase, embeddings: Store): seq<Op>
    requires size > 0
  {
    if p.name == CheckpointCandidate then [Upsert(CheckpointKey(cfg), CheckpointPayload(cfg, c))]
    else BatchesOps(cfg, p.name, Batches(p.rows, size), embeddings)
  }

  lemma RowOpsConcat(cfg: Config, name: PhaseName, a: seq<Change>, b: seq<Change>, embeddings: Store)
    ensures RowOps(cfg, name, a + b, embeddings) == RowOps(cfg, name, a, embeddings) + RowOps(cfg, name, b, embeddings)
  {
    var whole, left, right :=
      RowOps(cfg, name, a + b, embeddings), RowOps(cfg, name, a, embeddings), RowOps(cfg, name, b, embeddings);
    assert forall i | 0 <= i < |whole| :: whole[i] == (left + right)[i];
  }

  /** The batches of a plain section are just its rows in order, whatever the batch size. */
  lemma {:induction false} SectionOpsIgnoreBatchSize(
    cfg: Config, name: PhaseName, rows: seq<Change>, size: nat, embeddings: Store)
    requires size > 0 && name != Graph
    ensures BatchesOps(cfg, name, Batches(rows, size), embeddings) == RowOps(cfg, name, rows, embeddings)
    decreases |rows|
  {
    if |rows| > size {
      SectionOpsIgnoreBatchSize(cfg, name, rows[size..], size, embeddings);
      BatchesOpsCons(cfg, name, rows[..size], Batches(rows[size..], size), embeddings);
      RowOpsConcat(cfg, name, rows[..size], rows[size..], embeddings);
      assert rows == rows[..size] + rows[size..];
    } else if rows != [] {
      BatchesOpsCons(cfg, name, rows, [], embeddings);
      assert [rows] + [] == [rows];
    }
  }

  lemma BatchesOpsCons(cfg: Config, name: PhaseName, b: seq<Change>, bs: seq<seq<Change>>, embeddings: Store)
    ensures BatchesOps(cfg, name, [b] + bs, embeddings) ==
            BatchOps(cfg, name, b, embeddings) + BatchesOps(cfg, name, bs, embeddings)
  {
    assert ([b] + bs)[1..] == bs;
  }
}
