/** What is stored for a row: the record it names and the columns it gets, table by table. */
module DeltaStoredRows {
  import opened DeltaTypes
  import opened Wrappers
  import opened DeltaIdentifiers
  import opened DeltaOps
  import opened DeltaPlan

  // ---- which record a row names ----

  /** The columns that name a record alone when they are present; an earlier one goes before a later one. */
  function OwnColumns(table: string): seq<string> {
    match table
    case "source_units" => ["ref"]
    case "chunks" => ["chunk_id", "original_chunk_id"]
    case "chunk_file_bindings" => ["binding_id"]
    case "provenance" => ["provenance_id"]
    case "fingerprints" => ["fingerprint_id"]
    case "feedback" => ["original_feedback_id"]
    case "files" => ["original_id", "path"]
    case "sections" => ["original_id", "chunk_id"]
    case "entities" => ["original_id", "name"]
    case "tags" => ["original_id", "name"]
    case "relations" => ["relation_id"]
    case _ => []
  }

  /** The values as text, if all are there. */
  function AllTexts(vs: seq<Value>): Option<seq<string>> {
    if forall v | v in vs :: v.Val? then Some(seq(|vs|, i requires 0 <= i < |vs| => Str(vs[i]))) else None
  }

  /** Where no such column is present, the parts that are joined into the name, if the row has them all. */
  function Parts(table: string, row: Row): Option<seq<string>> {
    match table
    case "source_units" =>
      AllTexts([Field(row, "namespace"), Field(row, "document_ref"), Field(row, "unit_ref")])
    case "chunk_file_bindings" =>
      AllTexts([Field(row, "chunk_id"), Field(row, "file_path"), Field(row, "chunk_index")])
    case "provenance" =>
      AllTexts([Field(row, "chunk_id"), Field(row, "namespace"), Field(row, "document_ref")])
    case "bindings" => AllTexts([Field(row, "namespace"), Field(row, "resource_ref")])
    case "embeddings" =>
      AllTexts([Field(row, "chunk_strategy"), Field(row, "embedding_model"), Field(row, "chunk_id")])
    case "vector_components" =>
      AllTexts([Field(row, "chunk_strategy"), Field(row, "embedding_model"),
                Or(Field(row, "chunk_id"), Field(row, "entity_id")), Field(row, "component")])
    case "relations" =>
      AllTexts([Field(row, "source_id"), Field(row, "target_id"),
                Or(Field(row, "rel_type"), Field(row, "relation_type"))])
    case _ => None
  }

  predicate NoOwnColumn(table: string, row: Row) {
    forall name | name in OwnColumns(table) :: !Present(row, name)
  }

  lemma AllOfThree(a: Value, b: Value, c: Value)
    ensures AllTexts([a, b, c]) == if a.Val? && b.Val? && c.Val? then Some([Str(a), Str(b), Str(c)]) else None
  {
    var vs := [a, b, c];
    assert vs[0] == a && vs[1] == b && vs[2] == c;
    assert (forall v | v in vs :: v.Val?) <==> a.Val? && b.Val? && c.Val?;
    assert seq(|vs|, i requires 0 <= i < |vs| => Str(vs[i])) == [Str(a), Str(b), Str(c)];
  }

  lemma AllOfFour(a: Value, b: Value, c: Value, d: Value)
    ensures AllTexts([a, b, c, d]) ==
            if a.Val? && b.Val? && c.Val? && d.Val? then Some([Str(a), Str(b), Str(c), Str(d)]) else None
  {
    var vs := [a, b, c, d];
    assert vs[0] == a && vs[1] == b && vs[2] == c && vs[3] == d;
    assert (forall v | v in vs :: v.Val?) <==> a.Val? && b.Val? && c.Val? && d.Val?;
    assert seq(|vs|, i requires 0 <= i < |vs| => Str(vs[i])) == [Str(a), Str(b), Str(c), Str(d)];
  }

  lemma PresentThree(row: Row, x: string, y: string, z: string)
    ensures AllPresent(row, [x, y, z]) <==> Present(row, x) && Present(row, y) && Present(row, z)
  {
    var names := [x, y, z];
    assert names[0] == x && names[1] == y && names[2] == z;
  }

  lemma TextsOfThree(row: Row, x: string, y: string, z: string)
    ensures AllTexts([Field(row, x), Field(row, y), Field(row, z)]) ==
            if AllPresent(row, [x, y, z]) then Some(Texts(row, [x, y, z])) else None
  {
    AllOfThree(Field(row, x), Field(row, y), Field(row, z));
    PresentThree(row, x, y, z);
    assert Texts(row, [x, y, z]) == [Str(Field(row, x)), Str(Field(row, y)), Str(Field(row, z))];
  }

  lemma PresentTwo(row: Row, x: string, y: string)
    ensures AllPresent(row, [x, y]) <==> Present(row, x) && Present(row, y)
  {
    var names := [x, y];
    assert names[0] == x && names[1] == y;
  }

  lemma AllOfTwo(a: Value, b: Value)
    ensures AllTexts([a, b]) == if a.Val? && b.Val? then Some([Str(a), Str(b)]) else None
  {
    var vs := [a, b];
    assert vs[0] == a && vs[1] == b;
    assert (forall v | v in vs :: v.Val?) <==> a.Val? && b.Val?;
    assert seq(|vs|, i requires 0 <= i < |vs| => Str(vs[i])) == [Str(a), Str(b)];
  }

  lemma TextsOfTwo(row: Row, x: string, y: string)
    ensures AllTexts([Field(row, x), Field(row, y)]) ==
            if AllPresent(row, [x, y]) then Some(Texts(row, [x, y])) else None
  {
    PresentTwo(row, x, y);
    AllOfTwo(Field(row, x), Field(row, y));
    assert Texts(row, [x, y]) == [Str(Field(row, x)), Str(Field(row, y))];
  }

  lemma ComponentParts(row: Row)
    ensures
      var owner := Or(Field(row, "chunk_id"), Field(row, "entity_id"));
      Parts("vector_components", row) ==
      if AllPresent(row, ["chunk_strategy", "embedding_model", "component"]) && owner.Val? then
        Some([Str(Field(row, "chunk_strategy")), Str(Field(row, "embedding_model")), owner.text,
              Str(Field(row, "component"))])
      else None
  {
    PresentThree(row, "chunk_strategy", "embedding_model", "component");
    AllOfFour(Field(row, "chunk_strategy"), Field(row, "embedding_model"),
              Or(Field(row, "chunk_id"), Field(row, "entity_id")), Field(row, "component"));
  }

  lemma RelationParts(row: Row)
    ensures
      var kind := Or(Field(row, "rel_type"), Field(row, "relation_type"));
      Parts("relations", row) ==
      if AllPresent(row, ["source_id", "target_id"]) && kind.Val? then
        Some([Str(Field(row, "source_id")), Str(Field(row, "target_id")), kind.text])
      else None
  {
    PresentTwo(row, "source_id", "target_id");
    AllOfThree(Field(row, "source_id"), Field(row, "target_id"),
               Or(Field(row, "rel_type"), Field(row, "relation_type")));
  }

  /** A composite name is used only where no own column is present and all parts are; the ref comes last. */
  lemma IdentifierFromParts(table: string, c: Change)
    requires NoOwnColumn(table, c.row) && table != "documents"
    ensures RawIdentifier(table, c) ==
            if Parts(table, c.row).Some? then Join(Parts(table, c.row).value) else c.ref
  {
    var row, own := c.row, OwnColumns(table);
    assert forall i | 0 <= i < |own| :: own[i] in own;
    match table
    case "source_units" => TextsOfThree(row, "namespace", "document_ref", "unit_ref");
    case "chunk_file_bindings" => TextsOfThree(row, "chunk_id", "file_path", "chunk_index");
    case "provenance" => TextsOfThree(row, "chunk_id", "namespace", "document_ref");
    case "bindings" => TextsOfTwo(row, "namespace", "resource_ref");
    case "embeddings" => TextsOfThree(row, "chunk_strategy", "embedding_model", "chunk_id");
    case "vector_components" => ComponentParts(row);
    case "relations" => RelationParts(row);
    case _ =>
      NothingPresent(c, own);
  }

  lemma {:induction false} NothingPresent(c: Change, names: seq<string>)
    requires forall name | name in names :: !Present(c.row, name)
    ensures FirstPresent(c, names) == c.ref
  {
    if names == [] {
    } else {
      assert names[0] in names;
      NothingPresent(c, names[1..]);
    }
  }

  /** An own column that is present names the record, whatever the row has besides. */
  lemma IdentifierFromOwnColumn(table: string, c: Change, i: nat)
    requires i < |OwnColumns(table)| && Present(c.row, OwnColumns(table)[i])
    requires forall j | 0 <= j < i :: !Present(c.row, OwnColumns(table)[j])
    ensures RawIdentifier(table, c) == Str(Field(c.row, OwnColumns(table)[i]))
  {
    var own := OwnColumns(table);
    if i > 0 {
      assert !Present(c.row, own[0]);
    }
    FirstPresentReads(c, own, i);
  }

  lemma {:induction false} FirstPresentReads(c: Change, names: seq<string>, i: nat)
    requires i < |names| && Present(c.row, names[i]) && forall j | 0 <= j < i :: !Present(c.row, names[j])
    ensures FirstPresent(c, names) == Str(Field(c.row, names[i]))
  {
    if i > 0 {
      assert !Present(c.row, names[0]);
      FirstPresentReads(c, names[1..], i - 1);
    }
  }

  /** A document is named by its own ref unless that is empty. */
  lemma DocumentIdentifier(c: Change)
    ensures RawIdentifier("documents", c) ==
            if "ref" in c.row && c.row["ref"].Val? && c.row["ref"].truthy then c.row["ref"].text else c.ref
  {
  }

  // ---- which columns a row gets ----

  /** The raw identifier a section's row is stored under. */
  function NameOf(name: PhaseName, c: Change): string {
    SectionKey(name, c).raw
  }

  function Entry(name: string, v: Value): Row {
    map[name := v]
  }

  function Unless(absent: bool, row: Row): Row {
    if absent then map[] else row
  }

  /** A document ref is split at its first colon, if it has one. */
  function DocumentParts(raw: string): Row {
    Unless(':' !in raw,
           Entry("namespace", Text(raw[..FirstColon(raw)])) + Entry("document_ref", Text(After(raw, FirstColon(raw)))))
  }

  function After(s: string, i: nat): string {
    if i < |s| then s[i + 1..] else ""
  }

  /** What a section fills in for the columns a row does not have. */
  function Defaults(name: PhaseName, c: Change): Row {
    var raw := Text(NameOf(name, c));
    match name
    case Documents => Entry("ref", raw) + DocumentParts(raw.text) + Entry("metadata", Val("{}", false))
    case SourceUnits => Entry("ref", raw) + Entry("metadata", Val("{}", false))
    case Chunks =>
      Entry("chunk_id", raw)
      + Entry("original_chunk_id", if "chunk_id" in c.row then c.row["chunk_id"] else raw)
      + Entry("ref", raw) + Entry("metadata", Val("{}", false))
    case ChunkFileBindings => Entry("binding_id", raw) + Entry("metadata", Val("{}", false))
    case Provenance =>
      Entry("provenance_id", raw) + Entry("source_unit_refs", Val("[]", false)) + Entry("metadata", Val("{}", false))
    case ResourceBindings =>
      Entry("ref", raw) + Entry("resource_ref", Field(c.row, "document_ref")) + Entry("metadata", Val("{}", false))
    case Fingerprints => Entry("fingerprint_id", raw) + Entry("metadata", Val("{}", false))
    case Embeddings => Entry("metadata", Val("{}", false))
    case VectorComponents => Entry("metadata", Val("{}", false))
    case Feedback => Entry("original_feedback_id", raw) + Entry("metadata", Val("{}", false))
    case _ => map[]
  }

  /** A column is filled in only where the row does not have it, and nothing the row has is changed. */
  lemma OneDefault(d: Row, row: Row, name: string, v: Value)
    requires name !in d
    ensures SetDefault(d + row, name, v) == d + Entry(name, v) + row
  {
  }

  lemma FirstDefault(row: Row, name: string, v: Value)
    ensures SetDefault(row, name, v) == Entry(name, v) + row
  {
  }

  /**
   * A section stores a row's own columns as they are and fills in the others; embeddings alone replace a
   * blank vector row id.
   */
  lemma SectionRowIsDefaultsAndRow(cfg: Config, name: PhaseName, c: Change)
    ensures
      var row := Defaults(name, c) + c.row;
      SectionRow(cfg, name, c) ==
      if name == Embeddings && Field(c.row, "vector_rowid") in {Null, Text("")}
      then row["vector_rowid" := cfg.vectorRowid(NameOf(name, c), row)] else row
  {
    var row, raw := c.row, Text(NameOf(name, c));
    match name
    case Documents => DocumentRowIsDefaultsAndRow(cfg, c);
    case SourceUnits => TwoDefaults(row, "ref", raw);
    case Chunks => ChunkRowIsDefaultsAndRow(cfg, c);
    case ChunkFileBindings => TwoDefaults(row, "binding_id", raw);
    case Provenance =>
      FirstDefault(row, "provenance_id", raw);
      OneDefault(Entry("provenance_id", raw), row, "source_unit_refs", EMPTY_LIST);
      OneDefault(Entry("provenance_id", raw) + Entry("source_unit_refs", EMPTY_LIST), row, "metadata", EMPTY_OBJECT);
    case ResourceBindings =>
      FirstDefault(row, "ref", raw);
      OneDefault(Entry("ref", raw), row, "resource_ref", Field(row, "document_ref"));
      OneDefault(Entry("ref", raw) + Entry("resource_ref", Field(row, "document_ref")), row, "metadata", EMPTY_OBJECT);
    case Fingerprints => TwoDefaults(row, "fingerprint_id", raw);
    case Embeddings => FirstDefault(row, "metadata", EMPTY_OBJECT);
    case VectorComponents => FirstDefault(row, "metadata", EMPTY_OBJECT);
    case Feedback => TwoDefaults(row, "original_feedback_id", raw);
    case _ => NoDefaults(row);
  }

  lemma NoDefaults(row: Row)
    ensures map[] + row == row
  {
  }

  lemma TwoDefaults(row: Row, name: string, v: Value)
    requires name != "metadata"
    ensures SetDefault(SetDefault(row, name, v), "metadata", EMPTY_OBJECT) ==
            Entry(name, v) + Entry("metadata", EMPTY_OBJECT) + row
  {
    FirstDefault(row, name, v);
    OneDefault(Entry(name, v), row, "metadata", EMPTY_OBJECT);
  }

  lemma DocumentRowIsDefaultsAndRow(cfg: Config, c: Change)
    ensures SectionRow(cfg, Documents, c) == Defaults(Documents, c) + c.row
  {
    var raw := NameOf(Documents, c);
    FirstDefault(c.row, "ref", Text(raw));
    DocumentDefaults(c.row, raw);
  }

  lemma DocumentDefaults(row: Row, raw: string)
    ensures
      var i, ref := FirstColon(raw), Entry("ref", Text(raw)) + row;
      var split := if i < |raw| then SetDefault(SetDefault(ref, "namespace", Text(raw[..i])), "document_ref",
                                                Text(raw[i + 1..])) else ref;
      SetDefault(split, "metadata", EMPTY_OBJECT)
      == Entry("ref", Text(raw)) + DocumentParts(raw) + Entry("metadata", EMPTY_OBJECT) + row
  {
    var i := FirstColon(raw);
    PartsOfRef(raw);
    if i < |raw| {
      SplitDocument(row, Text(raw), Text(raw[..i]), Text(raw[i + 1..]));
    } else {
      OneDefault(Entry("ref", Text(raw)), row, "metadata", EMPTY_OBJECT);
      NothingAdded(Entry("ref", Text(raw)));
    }
  }

  lemma NothingAdded(row: Row)
    ensures row + map[] == row
  {
  }

  lemma PartsOfRef(raw: string)
    ensures
      var i := FirstColon(raw);
      DocumentParts(raw) ==
      if i < |raw| then Entry("namespace", Text(raw[..i])) + Entry("document_ref", Text(raw[i + 1..])) else map[]
  {
    var i := FirstColon(raw);
    if i < |raw| {
      assert raw[i] == ':';
    } else {
      assert ':' !in raw;
    }
  }

  lemma SplitDocument(row: Row, ref: Value, namespace: Value, document: Value)
    ensures
      var d := Entry("ref", ref);
      var split := Entry("namespace", namespace) + Entry("document_ref", document);
      SetDefault(SetDefault(SetDefault(d + row, "namespace", namespace), "document_ref", document),
                 "metadata", EMPTY_OBJECT)
      == d + split + Entry("metadata", EMPTY_OBJECT) + row
  {
    var d := Entry("ref", ref);
    var d1 := d + Entry("namespace", namespace);
    OneDefault(d, row, "namespace", namespace);
    OneDefault(d1, row, "document_ref", document);
    OneDefault(d1 + Entry("document_ref", document), row, "metadata", EMPTY_OBJECT);
    assert d + (Entry("namespace", namespace) + Entry("document_ref", document))
        == d1 + Entry("document_ref", document);
  }

  lemma ChunkRowIsDefaultsAndRow(cfg: Config, c: Change)
    ensures SectionRow(cfg, Chunks, c) == Defaults(Chunks, c) + c.row
  {
    var row, raw := c.row, Text(NameOf(Chunks, c));
    var chunk := if "chunk_id" in row then row["chunk_id"] else raw;
    var d := Entry("chunk_id", raw);
    var d1 := d + Entry("original_chunk_id", chunk);
    var d2 := d1 + Entry("ref", raw);
    FirstDefault(row, "chunk_id", raw);
    OneDefault(d, row, "original_chunk_id", chunk);
    OneDefault(d1, row, "ref", raw);
    OneDefault(d2, row, "metadata", EMPTY_OBJECT);
    assert Field(d + row, "chunk_id") == chunk;
    MissingDefault(row, "chunk_id", Or(Field(row, "chunk_id"), raw), raw);
    MissingDefault(d + row, "original_chunk_id", Or(Field(d + row, "original_chunk_id"), chunk), chunk);
  }

  lemma MissingDefault(row: Row, name: string, v: Value, w: Value)
    requires name !in row ==> v == w
    ensures SetDefault(row, name, v) == SetDefault(row, name, w)
  {
  }

  /** The columns a section stores before payload preparation. */
  function StoredColumns(cfg: Config, name: PhaseName, c: Change): Row {
    var row := Defaults(name, c) + c.row;
    if name == Embeddings && Field(c.row, "vector_rowid") in {Null, Text("")}
    then row["vector_rowid" := cfg.vectorRowid(NameOf(name, c), row)] else row
  }

  /** What a row is stored as: its prepared columns; components are prepared next to the stored embeddings. */
  function StoredRow(cfg: Config, name: PhaseName, c: Change, embeddings: Store): Row {
    if name == VectorComponents then cfg.prepareComponent(NameOf(name, c), StoredColumns(cfg, name, c), embeddings)
    else cfg.prepare(TableOf(name), NameOf(name, c), StoredColumns(cfg, name, c))
  }

  lemma PayloadIsStoredRow(cfg: Config, name: PhaseName, c: Change, embeddings: Store)
    ensures Payload(cfg, name, c, embeddings) == StoredRow(cfg, name, c, embeddings)
  {
    SectionRowIsDefaultsAndRow(cfg, name, c);
  }

  // ---- tombstones of stored rows ----

  /** The table names under which a section's rows are known. */
  function KnownAs(name: PhaseName): set<string> {
    match name
    case Documents => {"documents", "source_documents"}
    case SourceUnits => {"source_units", "source_unit_fingerprints"}
    case Chunks => {"chunks"}
    case ChunkFileBindings => {"chunk_file_bindings"}
    case Provenance => {"provenance", "chunk_provenance"}
    case ResourceBindings => {"bindings", "resource_bindings"}
    case Fingerprints => {"fingerprints"}
    case Embeddings => {"embeddings"}
    case VectorComponents => {"vector_components"}
    case Feedback => {"feedback"}
    case CheckpointCandidate => {"checkpoints"}
    case _ => {}
  }

  lemma EveryNameLeadsToItsTable(name: PhaseName, table: string)
    requires table in KnownAs(name)
    ensures NormalizeTable(table) == TableOf(name)
    ensures name !in {Documents, CheckpointCandidate} ==> KnownTable(NormalizeTable(table))
  {
  }

  lemma SameComposite(c: Change, c': Change, columns: seq<string>)
    requires c'.ref == c.ref && forall name | name in columns :: Field(c'.row, name) == Field(c.row, name)
    ensures Composite(c', columns) == Composite(c, columns)
  {
    assert Texts(c'.row, columns) == Texts(c.row, columns);
  }

  /** One own column: stored with the row's name where the row does not have it. */
  lemma StoredOwnColumn(c: Change, c': Change, own: string)
    requires c'.ref == c.ref
    requires Field(c'.row, own) == if own in c.row then c.row[own] else Text(FirstPresent(c, [own]))
    ensures FirstPresent(c', [own]) == FirstPresent(c, [own])
  {
    assert [own][1..] == [];
  }

  /** The same where a composite name stands behind the own column. */
  lemma StoredOwnOrComposite(c: Change, c': Change, own: string, columns: seq<string>)
    requires c'.ref == c.ref && forall name | name in columns :: Field(c'.row, name) == Field(c.row, name)
    requires Field(c'.row, own) == if own in c.row then c.row[own] else Text(FirstOrComposite(c, own, columns))
    ensures FirstOrComposite(c', own, columns) == FirstOrComposite(c, own, columns)
  {
    SameComposite(c, c', columns);
  }

  lemma StoredChunkName(c: Change, c': Change)
    requires c'.ref == c.ref
    requires
      var raw := Text(FirstPresent(c, ["chunk_id", "original_chunk_id"]));
      && Field(c'.row, "chunk_id") == (if "chunk_id" in c.row then c.row["chunk_id"] else raw)
      && Field(c'.row, "original_chunk_id") ==
         if "original_chunk_id" in c.row then c.row["original_chunk_id"]
         else if "chunk_id" in c.row then c.row["chunk_id"] else raw
    ensures FirstPresent(c', ["chunk_id", "original_chunk_id"]) == FirstPresent(c, ["chunk_id", "original_chunk_id"])
  {
    var own := ["chunk_id", "original_chunk_id"];
    assert own[1..] == ["original_chunk_id"] && own[1..][1..] == [];
    assert FirstPresent(c, own[1..]) ==
           if Present(c.row, "original_chunk_id") then Str(Field(c.row, "original_chunk_id")) else c.ref;
    assert FirstPresent(c', own[1..]) ==
           if Present(c'.row, "original_chunk_id") then Str(Field(c'.row, "original_chunk_id")) else c.ref;
  }

  lemma StoredField(cfg: Config, name: PhaseName, c: Change, column: string)
    requires column != "vector_rowid"
    ensures Field(StoredColumns(cfg, name, c), column) ==
            if column in c.row then c.row[column] else Field(Defaults(name, c), column)
  {
  }

  lemma UnfilledColumns(cfg: Config, name: PhaseName, c: Change, columns: seq<string>)
    requires forall column | column in columns :: column != "vector_rowid" && column !in Defaults(name, c)
    ensures forall column | column in columns :: Field(StoredColumns(cfg, name, c), column) == Field(c.row, column)
  {
    forall column | column in columns
      ensures Field(StoredColumns(cfg, name, c), column) == Field(c.row, column)
    {
      StoredField(cfg, name, c, column);
    }
  }

  predicate Single(name: PhaseName) {
    name in {Fingerprints, Feedback}
  }

  lemma SingleNames(cfg: Config, name: PhaseName, c: Change)
    requires Single(name)
    ensures
      var stored := StoredColumns(cfg, name, c);
      RawIdentifier(TableOf(name), Change(c.ref, TableOf(name), stored, None)) == NameOf(name, c)
  {
    var own := if name == Fingerprints then "fingerprint_id" else "original_feedback_id";
    StoredField(cfg, name, c, own);
    StoredOwnColumn(c, Change(c.ref, TableOf(name), StoredColumns(cfg, name, c), None), own);
  }

  lemma OwnOrCompositeNames(cfg: Config, name: PhaseName, c: Change, own: string, columns: seq<string>)
    requires forall change: Change :: RawIdentifier(TableOf(name), change) == FirstOrComposite(change, own, columns)
    requires own in Defaults(name, c) && Defaults(name, c)[own] == Text(NameOf(name, c)) && own != "vector_rowid"
    requires forall column | column in columns :: column != "vector_rowid" && column !in Defaults(name, c)
    ensures
      var stored := StoredColumns(cfg, name, c);
      RawIdentifier(TableOf(name), Change(c.ref, TableOf(name), stored, None)) == NameOf(name, c)
  {
    var c' := Change(c.ref, TableOf(name), StoredColumns(cfg, name, c), None);
    UnfilledColumns(cfg, name, c, columns);
    StoredField(cfg, name, c, own);
    assert NameOf(name, c) == FirstOrComposite(c, own, columns);
    StoredOwnOrComposite(c, c', own, columns);
  }

  lemma ChunkNames(cfg: Config, c: Change)
    ensures
      var stored := StoredColumns(cfg, Chunks, c);
      RawIdentifier("chunks", Change(c.ref, "chunks", stored, None)) == NameOf(Chunks, c)
  {
    StoredField(cfg, Chunks, c, "chunk_id");
    StoredField(cfg, Chunks, c, "original_chunk_id");
    StoredChunkName(c, Change(c.ref, "chunks", StoredColumns(cfg, Chunks, c), None));
  }

  /** Embeddings and components get metadata only, and embeddings their vector row id. */
  lemma MetadataOnly(cfg: Config, name: PhaseName, c: Change)
    requires name in {Embeddings, VectorComponents}
    ensures forall column | column !in {"metadata", "vector_rowid"} ::
              Field(StoredColumns(cfg, name, c), column) == Field(c.row, column)
  {
    assert Defaults(name, c) == Entry("metadata", Val("{}", false));
    forall column | column !in {"metadata", "vector_rowid"}
      ensures Field(StoredColumns(cfg, name, c), column) == Field(c.row, column)
    {
      StoredField(cfg, name, c, column);
    }
  }

  lemma EmbeddingNames(cfg: Config, c: Change)
    ensures
      var stored := StoredColumns(cfg, Embeddings, c);
      RawIdentifier("embeddings", Change(c.ref, "embeddings", stored, None)) == NameOf(Embeddings, c)
  {
    MetadataOnly(cfg, Embeddings, c);
    SameEmbedding(c, Change(c.ref, "embeddings", StoredColumns(cfg, Embeddings, c), None));
  }

  lemma SameEmbedding(c: Change, c': Change)
    requires c'.ref == c.ref
    requires forall column | column !in {"metadata", "vector_rowid"} :: Field(c'.row, column) == Field(c.row, column)
    ensures RawIdentifier("embeddings", c') == RawIdentifier("embeddings", c)
  {
    SameComposite(c, c', ["chunk_strategy", "embedding_model", "chunk_id"]);
  }

  lemma ComponentNames(cfg: Config, c: Change)
    ensures
      var stored := StoredColumns(cfg, VectorComponents, c);
      RawIdentifier("vector_components", Change(c.ref, "vector_components", stored, None)) ==
      NameOf(VectorComponents, c)
  {
    MetadataOnly(cfg, VectorComponents, c);
    SameComponent(c, Change(c.ref, "vector_components", StoredColumns(cfg, VectorComponents, c), None));
  }

  lemma SameComponent(c: Change, c': Change)
    requires c'.ref == c.ref
    requires forall column | column !in {"metadata", "vector_rowid"} :: Field(c'.row, column) == Field(c.row, column)
    ensures RawIdentifier("vector_components", c') == RawIdentifier("vector_components", c)
  {
    PresentThree(c.row, "chunk_strategy", "embedding_model", "component");
    PresentThree(c'.row, "chunk_strategy", "embedding_model", "component");
  }

  /** A row that is stored and read back names the record it was stored under. */
  lemma StoredRowNamesItsRecord(cfg: Config, name: PhaseName, c: Change)
    requires name !in {Tombstones, Graph, CheckpointCandidate, Documents, ResourceBindings}
    ensures
      var stored := StoredColumns(cfg, name, c);
      RawIdentifier(TableOf(name), Change(c.ref, TableOf(name), stored, None)) == NameOf(name, c)
  {
    match name
    case SourceUnits => OwnOrCompositeNames(cfg, name, c, "ref", ["namespace", "document_ref", "unit_ref"]);
    case Chunks => ChunkNames(cfg, c);
    case ChunkFileBindings =>
      OwnOrCompositeNames(cfg, name, c, "binding_id", ["chunk_id", "file_path", "chunk_index"]);
    case Provenance =>
      OwnOrCompositeNames(cfg, name, c, "provenance_id", ["chunk_id", "namespace", "document_ref"]);
    case Fingerprints => SingleNames(cfg, name, c);
    case Embeddings => EmbeddingNames(cfg, c);
    case VectorComponents => ComponentNames(cfg, c);
    case Feedback => SingleNames(cfg, name, c);
  }

  /**
   * A tombstone made from a stored row, under any name of its table, deletes the very record the row was
   * written to.
   */
  lemma TombstoneReachesItsRecord(cfg: Config, name: PhaseName, c: Change, table: string)
    requires name !in {Tombstones, Graph, CheckpointCandidate, Documents, ResourceBindings}
    requires table in KnownAs(name) && c.ref != ""
    ensures
      var stored := StoredColumns(cfg, name, c);
      TombstoneKey(Change(c.ref, table, map[], Some(Tombstone(c.ref, table, stored)))) == SectionKey(name, c)
  {
    var stored := StoredColumns(cfg, name, c);
    EveryNameLeadsToItsTable(name, table);
    StoredRowNamesItsRecord(cfg, name, c);
    assert "metadata" in stored;
    NoDocuments(name);
  }

  lemma NoDocuments(name: PhaseName)
    requires name != Documents
    ensures TableOf(name) != "documents"
  {
  }

  /** Documents are deleted by ref: the tombstone's own ref, or that of the change that carries it. */
  lemma DocumentTombstone(table: string, c: Change, t: Tombstone)
    requires t.table in KnownAs(Documents) && c.tombstone == Some(t)
    ensures TombstoneKey(c) == Key("documents", if t.ref == "" then c.ref else t.ref)
  {
    EveryNameLeadsToItsTable(Documents, t.table);
  }

  /** A tombstone without a previous row deletes the record of its own ref, or of the change that carries it. */
  lemma BareTombstone(name: PhaseName, c: Change, t: Tombstone)
    requires t.table in KnownAs(name) && c.tombstone == Some(t) && t.previousRow == map[]
    ensures TombstoneKey(c) == Key(TableOf(name), if t.ref == "" then c.ref else t.ref)
  {
    EveryNameLeadsToItsTable(name, t.table);
  }

  /** A tombstone of a graph row that has its own identifier deletes the record of that identifier. */
  lemma GraphTombstone(c: Change, t: Tombstone)
    requires c.tombstone == Some(t) && t.table in {"files", "sections", "entities", "tags", "relations"}
    requires Present(t.previousRow, if t.table == "relations" then "relation_id" else "original_id")
    ensures TombstoneKey(c) ==
            Key(t.table, Str(Field(t.previousRow, if t.table == "relations" then "relation_id" else "original_id")))
  {
    var own := if t.table == "relations" then "relation_id" else "original_id";
    assert own in t.previousRow;
    IdentifierFromOwnColumn(t.table, Change(t.ref, t.table, t.previousRow, None), 0);
  }

  // ---- graph rows ----

  function Given(name: string, v: Value): Row {
    Unless(v.Null?, Entry(name, v))
  }

  /** The record id of an endpoint; none when the table or the identifier is missing or empty. */
  function EndpointId(table: Value, raw: Value): Value {
    if table in {Null, Val("", false)} || raw in {Null, Val("", false)} then Null
    else Val(NormalizeTable(table.text) + ":" + raw.text, true)
  }

  /** What `write_graph` fills in for the columns a row does not have. */
  function GraphDefaults(c: Change): Row {
    var raw, row := Text(GraphKey(c).raw), c.row;
    match GraphKey(c).table
    case "files" =>
      var path := Or(Field(row, "file_path"), raw);
      Entry("original_id", raw) + Entry("path", path)
      + Entry("file_path", if "path" in row then row["path"] else path)
    case "sections" => Entry("original_id", raw) + Entry("chunk_id", raw)
    case "entities" =>
      Entry("original_id", raw) + Entry("name", raw)
      + Entry("original_entity_name", if "name" in row then row["name"] else raw)
    case "tags" => Entry("original_id", raw) + Entry("name", raw)
    case "relations" => RelationDefaults(row, raw)
    case _ => map[]
  }

  function RelationDefaults(row: Row, raw: Value): Row {
    RelationHead(row, raw)
    + Given("in", EndpointId(Field(row, "source_table"), Field(row, "source_id")))
    + Given("out", EndpointId(Field(row, "target_table"), Field(row, "target_id")))
    + Entry("metadata", Val("{}", false))
  }

  lemma OneGiven(d: Row, row: Row, name: string, v: Value)
    requires name !in d
    ensures SetUnlessNull(d + row, name, v) == d + Given(name, v) + row
  {
  }

  lemma MissingGiven(row: Row, name: string, v: Value, w: Value)
    requires name !in row ==> v == w
    ensures SetUnlessNull(row, name, v) == SetUnlessNull(row, name, w)
  {
  }

  /** `write_graph` stores a node's or relation's own columns as they are and fills in the others. */
  lemma GraphRowIsDefaultsAndRow(c: Change)
    ensures GraphRow(c) == GraphDefaults(c) + c.row
  {
    var row, raw := c.row, Text(GraphKey(c).raw);
    match GraphKey(c).table
    case "files" => FileRow(row, raw);
    case "sections" =>
      FirstDefault(row, "original_id", raw);
      MissingDefault(Entry("original_id", raw) + row, "chunk_id", Or(Field(row, "chunk_id"), raw), raw);
      OneDefault(Entry("original_id", raw), row, "chunk_id", raw);
    case "entities" => EntityRow(row, raw);
    case "tags" =>
      FirstDefault(row, "original_id", raw);
      MissingDefault(Entry("original_id", raw) + row, "name", Or(Field(row, "name"), raw), raw);
      OneDefault(Entry("original_id", raw), row, "name", raw);
    case "relations" => RelationRowIsDefaultsAndRow(row, GraphKey(c).raw);
    case _ => NoDefaults(row);
  }

  lemma FileRow(row: Row, raw: Value)
    ensures
      var path := Or(Field(row, "file_path"), raw);
      var row1 := SetDefault(row, "original_id", raw);
      var row2 := SetDefault(row1, "path", Or(Or(Field(row1, "path"), Field(row1, "file_path")), raw));
      SetDefault(row2, "file_path", Or(Field(row2, "file_path"), Field(row2, "path"))) ==
      Entry("original_id", raw) + Entry("path", path)
      + Entry("file_path", if "path" in row then row["path"] else path) + row
  {
    var path, d := Or(Field(row, "file_path"), raw), Entry("original_id", raw);
    var at := if "path" in row then row["path"] else path;
    var d1 := d + Entry("path", path);
    FirstDefault(row, "original_id", raw);
    MissingDefault(d + row, "path", Or(Or(Field(d + row, "path"), Field(d + row, "file_path")), raw), path);
    OneDefault(d, row, "path", path);
    assert Field(d1 + row, "path") == at;
    MissingDefault(d1 + row, "file_path", Or(Field(d1 + row, "file_path"), Field(d1 + row, "path")), at);
    OneDefault(d1, row, "file_path", at);
  }

  lemma EntityRow(row: Row, raw: Value)
    ensures
      var row1 := SetDefault(row, "original_id", raw);
      var row2 := SetDefault(row1, "name", Or(Field(row1, "name"), raw));
      SetDefault(row2, "original_entity_name", Or(Field(row2, "original_entity_name"), Field(row2, "name"))) ==
      Entry("original_id", raw) + Entry("name", raw)
      + Entry("original_entity_name", if "name" in row then row["name"] else raw) + row
  {
    var d := Entry("original_id", raw);
    var name := if "name" in row then row["name"] else raw;
    var d1 := d + Entry("name", raw);
    FirstDefault(row, "original_id", raw);
    MissingDefault(d + row, "name", Or(Field(d + row, "name"), raw), raw);
    OneDefault(d, row, "name", raw);
    assert Field(d1 + row, "name") == name;
    MissingDefault(d1 + row, "original_entity_name",
                   Or(Field(d1 + row, "original_entity_name"), Field(d1 + row, "name")), name);
    OneDefault(d1, row, "original_entity_name", name);
  }

  lemma TypedRowIsDefaultsAndRow(row: Row, raw: string)
    ensures TypedRelationRow(row, raw) ==
            Entry("relation_id", Text(raw)) + Given("rel_type", Field(row, "relation_type"))
            + Given("relation_type", Or(Field(row, "rel_type"), Null)) + row
  {
    var kind := Or(Field(row, "rel_type"), Field(row, "relation_type"));
    var d := Entry("relation_id", Text(raw));
    var d1 := d + Given("rel_type", Field(row, "relation_type"));
    FirstDefault(row, "relation_id", Text(raw));
    MissingGiven(d + row, "rel_type", kind, Field(row, "relation_type"));
    OneGiven(d, row, "rel_type", Field(row, "relation_type"));
    MissingGiven(d1 + row, "relation_type", kind, Or(Field(row, "rel_type"), Null));
    OneGiven(d1, row, "relation_type", Or(Field(row, "rel_type"), Null));
  }

  /** The defaults of a relation before its ends. */
  function RelationHead(row: Row, raw: Value): Row {
    Entry("relation_id", raw) + Given("rel_type", Field(row, "relation_type"))
    + Given("relation_type", Or(Field(row, "rel_type"), Null))
    + Entry("weight", Val("1.0", true)) + Entry("properties", EMPTY_OBJECT)
  }

  lemma RelationHeadIs(row: Row, raw: string)
    ensures SetDefault(SetDefault(TypedRelationRow(row, raw), "weight", Val("1.0", true)), "properties", EMPTY_OBJECT)
         == RelationHead(row, Text(raw)) + row
  {
    var d := Entry("relation_id", Text(raw)) + Given("rel_type", Field(row, "relation_type"))
             + Given("relation_type", Or(Field(row, "rel_type"), Null));
    TypedRowIsDefaultsAndRow(row, raw);
    OneDefault(d, row, "weight", Val("1.0", true));
    OneDefault(d + Entry("weight", Val("1.0", true)), row, "properties", EMPTY_OBJECT);
  }

  lemma RelationRowIsDefaultsAndRow(row: Row, raw: string)
    ensures RelationRow(row, raw) == RelationDefaults(row, Text(raw)) + row
  {
    var d := RelationHead(row, Text(raw));
    var source := EndpointId(Field(row, "source_table"), Field(row, "source_id"));
    var target := EndpointId(Field(row, "target_table"), Field(row, "target_id"));
    RelationHeadIs(row, raw);
    RelationHeadKeys(row, Text(raw));
    RelationEnds(row, d);
    EndsAndMetadata(row, d, source, target);
  }

  lemma RelationHeadKeys(row: Row, raw: Value)
    ensures RelationHead(row, raw).Keys <= {"relation_id", "rel_type", "relation_type", "weight", "properties"}
  {
  }

  /** The ends are read off the row's own columns. */
  lemma RelationEnds(row: Row, d: Row)
    requires d.Keys <= {"relation_id", "rel_type", "relation_type", "weight", "properties"}
    ensures
      var source := EndpointId(Field(row, "source_table"), Field(row, "source_id"));
      var row1 := SetUnlessNull(d + row, "in", source);
      && Endpoint(Field(d + row, "source_table"), Field(d + row, "source_id")) == source
      && Endpoint(Field(row1, "target_table"), Field(row1, "target_id"))
         == EndpointId(Field(row, "target_table"), Field(row, "target_id"))
  {
  }

  lemma EndsAndMetadata(row: Row, d: Row, source: Value, target: Value)
    requires "in" !in d && "out" !in d && "metadata" !in d
    ensures SetDefault(SetUnlessNull(SetUnlessNull(d + row, "in", source), "out", target), "metadata", EMPTY_OBJECT)
         == d + Given("in", source) + Given("out", target) + Entry("metadata", EMPTY_OBJECT) + row
  {
    OneGiven(d, row, "in", source);
    OneGiven(d + Given("in", source), row, "out", target);
    OneDefault(d + Given("in", source) + Given("out", target), row, "metadata", EMPTY_OBJECT);
  }

  /** What a graph row is stored as. */
  function StoredGraphRow(cfg: Config, c: Change): Row {
    cfg.prepare(GraphKey(c).table, GraphKey(c).raw, GraphDefaults(c) + c.row)
  }

  lemma GraphPayloadIsStoredRow(cfg: Config, c: Change)
    ensures GraphPayload(cfg, c) == StoredGraphRow(cfg, c)
  {
    GraphRowIsDefaultsAndRow(c);
  }
}
