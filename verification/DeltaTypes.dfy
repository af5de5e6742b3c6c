/** Rows, changes and the keyed store of the delta sync. */
module DeltaTypes {
  import opened Wrappers

  /** A Python field value as this code sees it: `None`, or a value with its `str()` and its truth value. */
  datatype Value = Null | Val(text: string, truthy: bool)

  type Row = map<string, Value>

  function Text(s: string): Value {
    Val(s, s != "")
  }

  /** `row.get(name)`. */
  function Field(row: Row, name: string): Value {
    if name in row then row[name] else Null
  }

  /** `row.get(name) is not None`. */
  predicate Present(row: Row, name: string) {
    Field(row, name).Val?
  }

  predicate IsTrue(v: Value) {
    v.Val? && v.truthy
  }

  /** `str(v)`. */
  function Str(v: Value): string {
    if v.Null? then "None" else v.text
  }

  /** `a or b`. */
  function Or(a: Value, b: Value): Value {
    if IsTrue(a) then a else b
  }

  /** `str(v or "")`. */
  function StrOrEmpty(v: Value): string {
    if IsTrue(v) then v.text else ""
  }

  /** `row.setdefault(name, v)`. */
  function SetDefault(row: Row, name: string, v: Value): Row {
    if name in row then row else row[name := v]
  }

  datatype Tombstone = Tombstone(ref: string, table: string, previousRow: Row)

  /** A change is a tombstone exactly when it carries a tombstone payload. */
  datatype Change = Change(ref: string, table: string, row: Row, tombstone: Option<Tombstone>)

  datatype Section = Section(deferred: bool, rows: seq<Change>)

  datatype Checkpoint = Checkpoint(cursor: Value, watermark: Value, sourceTime: Value)

  datatype Manifest = Manifest(
    checkpoint: Checkpoint,
    documents: Section,
    sourceUnits: Section,
    chunks: Section,
    chunkFileBindings: Section,
    provenance: Section,
    resourceBindings: Section,
    fingerprints: Section,
    embeddings: Section,
    vectorComponents: Section,
    graph: Section,
    feedback: Section)

  /** A record id: the table and the caller's raw identifier. The id codec is injective, so it is left out. */
  datatype Key = Key(table: string, raw: string)

  /** The remote tables; rows are stored without their `id` column. */
  type Store = map<Key, Row>

  function Cell(s: Store, k: Key): Option<Row> {
    if k in s then Some(s[k]) else None
  }

  lemma SameCellsSameStore(a: Store, b: Store)
    requires forall k :: Cell(a, k) == Cell(b, k)
    ensures a == b
  {
    forall k
      ensures k in a <==> k in b
      ensures k in a ==> a[k] == b[k]
    {
      assert Cell(a, k) == Cell(b, k);
    }
    assert a.Keys == b.Keys;
  }
}
