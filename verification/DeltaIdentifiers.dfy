/** How the store writer derives record identifiers from rows. */
module DeltaIdentifiers {
  import opened DeltaTypes
  import opened Wrappers

  const SEPARATOR: char := '\U{1f}'

  /** `"\x1f".join(parts)`. */
  function Join(parts: seq<string>): string {
    if parts == [] then ""
    else if |parts| == 1 then parts[0]
    else parts[0] + [SEPARATOR] + Join(parts[1..])
  }

  predicate SeparatorFree(s: string) {
    SEPARATOR !in s
  }

  /** Composite identifiers name their columns: separator-free parts can be read back. */
  lemma {:induction false} JoinInjective(a: seq<string>, b: seq<string>)
    requires a != [] && b != []
    requires forall s | s in a :: SeparatorFree(s)
    requires forall s | s in b :: SeparatorFree(s)
    requires Join(a) == Join(b)
    ensures a == b
  {
    assert a[0] in a && b[0] in b;
    JoinSeparators(a);
    JoinSeparators(b);
    if |a| > 1 {
      SplitAtSeparator(a[0], Join(a[1..]), b[0], Join(b[1..]));
      JoinInjective(a[1..], b[1..]);
      assert a == [a[0]] + a[1..] && b == [b[0]] + b[1..];
    }
  }

  lemma JoinSeparators(parts: seq<string>)
    requires parts != [] && SeparatorFree(parts[0])
    ensures SEPARATOR in Join(parts) <==> |parts| > 1
  {
    if |parts| > 1 {
      assert Join(parts)[|parts[0]|] == SEPARATOR;
    }
  }

  lemma SplitAtSeparator(x: string, xs: string, y: string, ys: string)
    requires SeparatorFree(x) && SeparatorFree(y)
    requires x + [SEPARATOR] + xs == y + [SEPARATOR] + ys
    ensures x == y && xs == ys
  {
    var u := x + [SEPARATOR] + xs;
    assert u[|x|] == SEPARATOR == u[|y|];
    assert forall i | 0 <= i < |x| :: u[i] == x[i] && x[i] in x;
    assert forall i | 0 <= i < |y| :: u[i] == y[i] && y[i] in y;
    assert x == u[..|x|] && y == u[..|y|];
    assert xs == u[|x| + 1..] && ys == u[|y| + 1..];
  }

  predicate AllPresent(row: Row, names: seq<string>) {
    forall n | n in names :: Present(row, n)
  }

  function Texts(row: Row, names: seq<string>): (texts: seq<string>)
    ensures |texts| == |names|
    ensures forall i | 0 <= i < |names| :: texts[i] == Str(Field(row, names[i]))
  {
    if names == [] then [] else [Str(Field(row, names[0]))] + Texts(row, names[1..])
  }

  /** The first column when present, else the joined columns when all are present, else the change's ref. */
  function FirstOrComposite(change: Change, single: string, columns: seq<string>): string {
    if Present(change.row, single) then Str(Field(change.row, single))
    else Composite(change, columns)
  }

  function Composite(change: Change, columns: seq<string>): string {
    if AllPresent(change.row, columns) then Join(Texts(change.row, columns)) else change.ref
  }

  function FirstPresent(change: Change, columns: seq<string>): string {
    if columns == [] then change.ref
    else if Present(change.row, columns[0]) then Str(Field(change.row, columns[0]))
    else FirstPresent(change, columns[1..])
  }

  function VectorComponentIdentifier(change: Change): string {
    var row := change.row;
    var owner := Or(Field(row, "chunk_id"), Field(row, "entity_id"));
    if AllPresent(row, ["chunk_strategy", "embedding_model", "component"]) && owner.Val? then
      Join([Str(Field(row, "chunk_strategy")), Str(Field(row, "embedding_model")), owner.text,
            Str(Field(row, "component"))])
    else
      change.ref
  }

  function RelationIdentifier(change: Change): string {
    var row := change.row;
    var relType := Or(Field(row, "rel_type"), Field(row, "relation_type"));
    if Present(row, "relation_id") then Str(Field(row, "relation_id"))
    else if AllPresent(row, ["source_id", "target_id"]) && relType.Val? then
      Join([Str(Field(row, "source_id")), Str(Field(row, "target_id")), relType.text])
    else
      change.ref
  }

  /** The `_TABLE_ALIASES` of the writer. */
  function NormalizeTable(table: string): string {
    match table
    case "source_documents" => "documents"
    case "source_unit_fingerprints" => "source_units"
    case "chunk_provenance" => "provenance"
    case "resource_bindings" => "bindings"
    case _ => table
  }

  /** The raw identifier the writer uses for a row of a (normalized) table. */
  function RawIdentifier(table: string, change: Change): string {
    match table
    case "documents" =>
      var ref := Field(change.row, "ref");
      if IsTrue(ref) then ref.text else change.ref
    case "source_units" => FirstOrComposite(change, "ref", ["namespace", "document_ref", "unit_ref"])
    case "chunks" => FirstPresent(change, ["chunk_id", "original_chunk_id"])
    case "chunk_file_bindings" =>
      FirstOrComposite(change, "binding_id", ["chunk_id", "file_path", "chunk_index"])
    case "provenance" =>
      FirstOrComposite(change, "provenance_id", ["chunk_id", "namespace", "document_ref"])
    case "bindings" => Composite(change, ["namespace", "resource_ref"])
    case "fingerprints" => FirstPresent(change, ["fingerprint_id"])
    case "embeddings" => Composite(change, ["chunk_strategy", "embedding_model", "chunk_id"])
    case "vector_components" => VectorComponentIdentifier(change)
    case "feedback" => FirstPresent(change, ["original_feedback_id"])
    case "files" => FirstPresent(change, ["original_id", "path"])
    case "sections" => FirstPresent(change, ["original_id", "chunk_id"])
    case "entities" => FirstPresent(change, ["original_id", "name"])
    case "tags" => FirstPresent(change, ["original_id", "name"])
    case "relations" => RelationIdentifier(change)
    case _ => change.ref
  }

  /** The record a tombstone deletes: documents by ref, other tables by the columns of the previous row. */
  function TombstoneKey(change: Change): Key {
    match change.tombstone
    case None => Key(NormalizeTable(change.table), change.ref)
    case Some(t) =>
      var table := NormalizeTable(t.table);
      var ref := if t.ref != "" then t.ref else change.ref;
      if table == "documents" || t.previousRow == map[] then Key(table, ref)
      else
        var raw := RawIdentifier(table, Change(t.ref, table, t.previousRow, None));
        Key(table, if KnownTable(table) then raw else ref)
  }

  predicate KnownTable(table: string) {
    table in {"files", "sections", "entities", "tags", "relations", "source_units", "chunks",
              "chunk_file_bindings", "provenance", "bindings", "fingerprints", "embeddings",
              "vector_components", "feedback"}
  }

  /** The row `write_resource_bindings` stores before payload preparation. */
  function BindingRow(change: Change): Row {
    var raw := RawIdentifier("bindings", change);
    var row := SetDefault(change.row, "ref", Text(raw));
    var row := SetDefault(row, "resource_ref",
                          Or(Field(row, "resource_ref"), Field(row, "document_ref")));
    SetDefault(row, "metadata", Val("{}", false))
  }

  /**
   * A binding written and later tombstoned with its own stored row: the tombstone reaches the record
   * that was written unless the row lacked `resource_ref` and the default filled in at write time
   * names another record.
   */
  lemma BindingTombstoneReachesItsRecord(change: Change)
    requires change.ref != ""
    ensures
      var stored := BindingRow(change);
      var t := Change(change.ref, "bindings", map[], Some(Tombstone(change.ref, "bindings", stored)));
      (TombstoneKey(t).raw == RawIdentifier("bindings", change)) <==>
      ( "resource_ref" in change.row
        || !Present(change.row, "namespace")
        || !Present(change.row, "document_ref")
        || change.ref == Join([Str(Field(change.row, "namespace")), Str(Field(change.row, "document_ref"))]))
  {
    var row := change.row;
    var stored := BindingRow(change);
    var columns := ["namespace", "resource_ref"];
    assert stored != map[] by { assert "metadata" in stored; }
    assert columns[0] == "namespace" && columns[1] == "resource_ref";
    assert Field(stored, "namespace") == Field(row, "namespace");
    assert AllPresent(stored, columns) <==> Present(stored, "namespace") && Present(stored, "resource_ref");
    assert AllPresent(row, columns) <==> Present(row, "namespace") && Present(row, "resource_ref");
    if "resource_ref" in row {
      assert Field(stored, "resource_ref") == Field(row, "resource_ref");
      assert Texts(stored, columns) == Texts(row, columns);
    } else {
      assert Field(stored, "resource_ref") == Field(row, "document_ref");
      assert Texts(stored, columns) == [Str(Field(row, "namespace")), Str(Field(row, "document_ref"))];
    }
  }
}
