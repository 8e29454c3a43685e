/** The metadata records of the warehouse API and their JSON form, as the derived serde
    `Serialize` and `Deserialize` implementations of src/bigquery/types.rs give it:
    members in declaration order, renamed keys, `Option` fields written as `null` and
    read back from `null` or from a missing key, unknown keys ignored, a repeated known
    key rejected, and `Table.schema` skipped in both directions. Records are read from
    JSON objects only. */
module Types {
  import opened Results
  import opened Json

  datatype DatasetReference = DatasetReference(projectId: string, datasetId: string)
  datatype Dataset = Dataset(datasetReference: DatasetReference)
  /** Body of a dataset listing. */
  datatype DatasetList = DatasetList(datasets: seq<Dataset>)

  datatype TableReference = TableReference(projectId: string, datasetId: string, tableId: string)
  /** A table and, once fetched, its top-level columns. */
  datatype Table = Table(tableReference: TableReference, schema: Option<seq<Column>>)
  /** Body of a table listing. */
  datatype TableList = TableList(tables: seq<Table>)

  /** Body of a single-table fetch, of which only the schema is read. */
  datatype TableGet = TableGet(schema: Schema)
  datatype Schema = Schema(fields: seq<Column>)

  /** A column; a RECORD column owns its nested columns, so a schema is a finite tree. */
  datatype Column = Column(name: string, fieldType: string, mode: Option<string>, fields: Fields)
  /** `Option<Vec<Column>>`: absent, or present and possibly empty. */
  datatype Fields = NoFields | SomeFields(columns: seq<Column>)

  // ---------------------------------------------------------------- decoding helpers

  function MissingField(key: string): string { "missing field `" + key + "`" }
  function DuplicateField(key: string): string { "duplicate field `" + key + "`" }

  /** A required `String` member. */
  function RequiredString(members: seq<(string, Json)>, key: string): (r: Result<string>)
    ensures r.Ok? <==> Find(members, key).Found? && members[Find(members, key).at].1.JString?
    ensures r.Ok? ==> members[Find(members, key).at].1 == JString(r.value)
    ensures Find(members, key).Missing? ==> r == Err(MissingField(key))
  {
    match Find(members, key)
    case Missing => Err(MissingField(key))
    case Repeated => Err(DuplicateField(key))
    case Found(k) =>
      match members[k].1
      case JString(s) => Ok(s)
      case _ => Err("invalid type: expected a string for `" + key + "`")
  }

  /** An `Option<String>` member: a missing key and `null` both read as `None`. */
  function OptionalString(members: seq<(string, Json)>, key: string): (r: Result<Option<string>>)
    ensures r.Ok? <==> Find(members, key).Missing? ||
                       (Find(members, key).Found? &&
                        (members[Find(members, key).at].1.JNull? || members[Find(members, key).at].1.JString?))
    ensures Find(members, key).Missing? ==> r == Ok(None)
    ensures Find(members, key).Repeated? ==> r == Err(DuplicateField(key))
    ensures Find(members, key).Found? && members[Find(members, key).at].1 == JNull ==> r == Ok(None)
    ensures Find(members, key).Found? && members[Find(members, key).at].1.JString? ==>
              r == Ok(Some(members[Find(members, key).at].1.s))
    ensures r.Ok? && r.value.Some? ==>
              Find(members, key).Found? && members[Find(members, key).at].1 == JString(r.value.value)
  {
    match Find(members, key)
    case Missing => Ok(None)
    case Repeated => Err(DuplicateField(key))
    case Found(k) =>
      match members[k].1
      case JNull => Ok(None)
      case JString(s) => Ok(Some(s))
      case _ => Err("invalid type: expected a string for `" + key + "`")
  }

  /** A required member decoded by `decode`. */
  function Required<T>(members: seq<(string, Json)>, key: string, decode: Json -> Result<T>): (r: Result<T>)
    ensures Find(members, key).Missing? ==> r == Err(MissingField(key))
    ensures Find(members, key).Repeated? ==> r == Err(DuplicateField(key))
    ensures Find(members, key).Found? ==> r == decode(members[Find(members, key).at].1)
  {
    match Find(members, key)
    case Missing => Err(MissingField(key))
    case Repeated => Err(DuplicateField(key))
    case Found(k) => decode(members[k].1)
  }

  /** A JSON array decoded element by element into a `Vec`; the first bad element fails
      the whole list. */
  function ListOf<T>(j: Json, decode: Json -> Result<T>): (r: Result<seq<T>>)
    ensures r.Ok? ==> j.JArray? && |r.value| == |j.items| &&
                      forall i :: 0 <= i < |j.items| ==> decode(j.items[i]) == Ok(r.value[i])
  {
    match j
    case JArray(items) =>
      var rs := seq(|items|, i requires 0 <= i < |items| => decode(items[i]));
      Collect(rs)
    case _ => Err("invalid type: expected a sequence")
  }

  /** A list whose every element decodes to the matching value decodes to the list. */
  lemma ListOfAllDecode<T>(items: seq<Json>, xs: seq<T>, decode: Json -> Result<T>)
    requires |items| == |xs|
    requires forall i :: 0 <= i < |xs| ==> decode(items[i]) == Ok(xs[i])
    ensures ListOf(JArray(items), decode) == Ok(xs)
  {
    var rs := seq(|items|, i requires 0 <= i < |items| => decode(items[i]));
    var r := Collect(rs);
    assert r.Ok?;
    assert forall i :: 0 <= i < |xs| ==> r.value[i] == xs[i];
    assert r.value == xs;
  }

  // ---------------------------------------------------------------- references

  function EncodeDatasetReference(r: DatasetReference): Json {
    JObject([("projectId", JString(r.projectId)), ("datasetId", JString(r.datasetId))])
  }

  function DecodeDatasetReference(j: Json): Result<DatasetReference> {
    match j
    case JObject(ms) =>
      var p :- RequiredString(ms, "projectId");
      var d :- RequiredString(ms, "datasetId");
      Ok(DatasetReference(p, d))
    case _ => Err("invalid type: expected struct DatasetReference")
  }

  lemma DatasetReferenceRoundTrip(r: DatasetReference)
    ensures DecodeDatasetReference(EncodeDatasetReference(r)) == Ok(r)
  {
    var ms := EncodeDatasetReference(r).members;
    assert ms[0].0 == "projectId" && ms[1].0 == "datasetId";
    FindUnique(ms, 0, "projectId");
    FindUnique(ms, 1, "datasetId");
  }

  function EncodeTableReference(r: TableReference): Json {
    JObject([("projectId", JString(r.projectId)), ("datasetId", JString(r.datasetId)),
             ("tableId", JString(r.tableId))])
  }

  function DecodeTableReference(j: Json): Result<TableReference> {
    match j
    case JObject(ms) =>
      var p :- RequiredString(ms, "projectId");
      var d :- RequiredString(ms, "datasetId");
      var t :- RequiredString(ms, "tableId");
      Ok(TableReference(p, d, t))
    case _ => Err("invalid type: expected struct TableReference")
  }

  lemma TableReferenceRoundTrip(r: TableReference)
    ensures DecodeTableReference(EncodeTableReference(r)) == Ok(r)
  {
    var ms := EncodeTableReference(r).members;
    assert ms[0].0 == "projectId" && ms[1].0 == "datasetId" && ms[2].0 == "tableId";
    FindUnique(ms, 0, "projectId");
    FindUnique(ms, 1, "datasetId");
    FindUnique(ms, 2, "tableId");
  }

  /** The references are read under their renamed keys only: an object without
      `projectId` (say, with `project_id` instead) does not decode. */
  lemma ReferencesNeedRenamedKeys(ms: seq<(string, Json)>)
    requires forall i :: 0 <= i < |ms| ==> ms[i].0 != "projectId"
    ensures DecodeDatasetReference(JObject(ms)) == Err(MissingField("projectId"))
    ensures DecodeTableReference(JObject(ms)) == Err(MissingField("projectId"))
  {
  }

  // ---------------------------------------------------------------- datasets

  function EncodeDataset(d: Dataset): Json {
    JObject([("datasetReference", EncodeDatasetReference(d.datasetReference))])
  }

  function DecodeDataset(j: Json): Result<Dataset> {
    match j
    case JObject(ms) =>
      var r :- Required(ms, "datasetReference", DecodeDatasetReference);
      Ok(Dataset(r))
    case _ => Err("invalid type: expected struct Dataset")
  }

  lemma DatasetRoundTrip(d: Dataset)
    ensures DecodeDataset(EncodeDataset(d)) == Ok(d)
  {
    DatasetReferenceRoundTrip(d.datasetReference);
    assert Find(EncodeDataset(d).members, "datasetReference") == Found(0);
  }

  function EncodeDatasetList(l: DatasetList): Json {
    JObject([("datasets", JArray(seq(|l.datasets|, i requires 0 <= i < |l.datasets| => EncodeDataset(l.datasets[i]))))])
  }

  function DecodeDatasetList(j: Json): Result<DatasetList> {
    match j
    case JObject(ms) =>
      var ds :- Required(ms, "datasets", (a: Json) => ListOf(a, DecodeDataset));
      Ok(DatasetList(ds))
    case _ => Err("invalid type: expected struct DatasetList")
  }

  lemma DatasetListRoundTrip(l: DatasetList)
    ensures DecodeDatasetList(EncodeDatasetList(l)) == Ok(l)
  {
    forall i | 0 <= i < |l.datasets| ensures DecodeDataset(EncodeDataset(l.datasets[i])) == Ok(l.datasets[i]) {
      DatasetRoundTrip(l.datasets[i]);
    }
    var items := seq(|l.datasets|, i requires 0 <= i < |l.datasets| => EncodeDataset(l.datasets[i]));
    ListOfAllDecode(items, l.datasets, DecodeDataset);
    assert ListOf(JArray(items), DecodeDataset) == Ok(l.datasets);
    var ms := EncodeDatasetList(l).members;
    assert ms == [("datasets", JArray(items))];
    FindUnique(ms, 0, "datasets");
    assert Required(ms, "datasets", (a: Json) => ListOf(a, DecodeDataset)) == Ok(l.datasets);
  }

  // ---------------------------------------------------------------- tables

  /** `schema` is `#[serde(skip)]`: it is never written ... */
  function EncodeTable(t: Table): Json {
    JObject([("tableReference", EncodeTableReference(t.tableReference))])
  }

  /** ... and never read: a decoded table has no schema, whatever the body holds. */
  function DecodeTable(j: Json): (r: Result<Table>)
    ensures r.Ok? ==> r.value.schema == None
  {
    match j
    case JObject(ms) =>
      var r :- Required(ms, "tableReference", DecodeTableReference);
      Ok(Table(r, None))
    case _ => Err("invalid type: expected struct Table")
  }

  /** A table survives encoding and decoding only up to its schema, which is reset. */
  lemma TableRoundTripDropsSchema(t: Table)
    ensures DecodeTable(EncodeTable(t)) == Ok(Table(t.tableReference, None))
    ensures t.schema.Some? ==> DecodeTable(EncodeTable(t)) != Ok(t)
  {
    TableReferenceRoundTrip(t.tableReference);
    assert Find(EncodeTable(t).members, "tableReference") == Found(0);
  }

  function EncodeTableList(l: TableList): Json {
    JObject([("tables", JArray(seq(|l.tables|, i requires 0 <= i < |l.tables| => EncodeTable(l.tables[i]))))])
  }

  function DecodeTableList(j: Json): (r: Result<TableList>)
    ensures r.Ok? ==> forall i :: 0 <= i < |r.value.tables| ==> r.value.tables[i].schema == None
  {
    match j
    case JObject(ms) =>
      var ts :- Required(ms, "tables", (a: Json) => ListOf(a, DecodeTable));
      Ok(TableList(ts))
    case _ => Err("invalid type: expected struct TableList")
  }

  /** A listing keeps its tables and their order but loses every schema. */
  lemma TableListRoundTrip(l: TableList)
    ensures DecodeTableList(EncodeTableList(l)) ==
            Ok(TableList(seq(|l.tables|, i requires 0 <= i < |l.tables| => Table(l.tables[i].tableReference, None))))
  {
    var reset := seq(|l.tables|, i requires 0 <= i < |l.tables| => Table(l.tables[i].tableReference, None));
    forall i | 0 <= i < |reset| ensures DecodeTable(EncodeTable(reset[i])) == Ok(reset[i]) {
      TableRoundTripDropsSchema(reset[i]);
    }
    var items := seq(|l.tables|, i requires 0 <= i < |l.tables| => EncodeTable(l.tables[i]));
    assert forall i :: 0 <= i < |reset| ==> items[i] == EncodeTable(reset[i]);
    ListOfAllDecode(items, reset, DecodeTable);
    assert ListOf(JArray(items), DecodeTable) == Ok(reset);
    var ms := EncodeTableList(l).members;
    assert ms == [("tables", JArray(items))];
    FindUnique(ms, 0, "tables");
    assert Required(ms, "tables", (a: Json) => ListOf(a, DecodeTable)) == Ok(reset);
  }

  /** The list members are required: a body without `tables` is a decode error, not an
      empty list. */
  lemma TableListRequiresTables(ms: seq<(string, Json)>)
    requires forall i :: 0 <= i < |ms| ==> ms[i].0 != "tables"
    ensures DecodeTableList(JObject(ms)) == Err(MissingField("tables"))
  {
  }

  // ---------------------------------------------------------------- columns

  function EncodeMode(mode: Option<string>): Json {
    match mode
    case None => JNull
    case Some(m) => JString(m)
  }

  function EncodeColumn(c: Column): Json
    decreases c
  {
    JObject([("name", JString(c.name)), ("type", JString(c.fieldType)), ("mode", EncodeMode(c.mode)),
             ("fields", match c.fields
                        case NoFields => JNull
                        case SomeFields(cs) => JArray(EncodeColumns(cs)))])
  }

  function EncodeColumns(cs: seq<Column>): (r: seq<Json>)
    ensures |r| == |cs|
    decreases cs
  {
    if cs == [] then [] else [EncodeColumn(cs[0])] + EncodeColumns(cs[1..])
  }

  function DecodeColumn(j: Json): Result<Column>
    decreases j
  {
    match j
    case JObject(ms) =>
      var name :- RequiredString(ms, "name");
      var fieldType :- RequiredString(ms, "type");
      var mode :- OptionalString(ms, "mode");
      var fields :- DecodeFields(ms);
      Ok(Column(name, fieldType, mode, fields))
    case _ => Err("invalid type: expected struct Column")
  }

  /** The `fields` member of a column: missing or `null` is `None`, an array is the
      nested columns. */
  function DecodeFields(ms: seq<(string, Json)>): Result<Fields>
    decreases JObject(ms), 0
  {
    match Find(ms, "fields")
    case Missing => Ok(NoFields)
    case Repeated => Err(DuplicateField("fields"))
    case Found(k) =>
      match ms[k].1
      case JNull => Ok(NoFields)
      case JArray(items) =>
        var cs :- DecodeColumns(items);
        Ok(SomeFields(cs))
      case _ => Err("invalid type: expected a sequence for `fields`")
  }

  function DecodeColumns(items: seq<Json>): Result<seq<Column>>
    decreases items
  {
    if items == [] then Ok([])
    else
      var c :- DecodeColumn(items[0]);
      var cs :- DecodeColumns(items[1..]);
      Ok([c] + cs)
  }

  lemma {:induction false} ColumnRoundTrip(c: Column)
    ensures DecodeColumn(EncodeColumn(c)) == Ok(c)
    decreases c
  {
    if c.fields.SomeFields? {
      ColumnsRoundTrip(c.fields.columns);
    }
    ColumnScalars(c);
    ColumnFields(c);
    ColumnFromMembers(EncodeColumn(c).members, c);
  }

  /** The nested columns of an encoded column read back as written, given that the
      nested list itself does. */
  lemma ColumnFields(c: Column)
    requires c.fields.SomeFields? ==> DecodeColumns(EncodeColumns(c.fields.columns)) == Ok(c.fields.columns)
    ensures DecodeFields(EncodeColumn(c).members) == Ok(c.fields)
  {
    var ms := EncodeColumn(c).members;
    ColumnKeys(c);
    match c.fields
    case NoFields =>
      NullFieldsAt(ms, 3);
    case SomeFields(cs) =>
      ArrayFieldsAt(ms, 3, EncodeColumns(cs), cs);
  }

  lemma NullFieldsAt(ms: seq<(string, Json)>, k: nat)
    requires Find(ms, "fields") == Found(k) && ms[k].1 == JNull
    ensures DecodeFields(ms) == Ok(NoFields)
  {
  }

  lemma ArrayFieldsAt(ms: seq<(string, Json)>, k: nat, items: seq<Json>, cs: seq<Column>)
    requires Find(ms, "fields") == Found(k) && ms[k].1 == JArray(items) && DecodeColumns(items) == Ok(cs)
    ensures DecodeFields(ms) == Ok(SomeFields(cs))
  {
  }

  /** A column decodes from members that give each of its parts. */
  lemma ColumnFromMembers(ms: seq<(string, Json)>, c: Column)
    requires RequiredString(ms, "name") == Ok(c.name) && RequiredString(ms, "type") == Ok(c.fieldType)
    requires OptionalString(ms, "mode") == Ok(c.mode) && DecodeFields(ms) == Ok(c.fields)
    ensures DecodeColumn(JObject(ms)) == Ok(c)
  {
  }

  /** The name, type and mode of an encoded column read back as written. */
  lemma ColumnScalars(c: Column)
    ensures var ms := EncodeColumn(c).members;
            && RequiredString(ms, "name") == Ok(c.name) && RequiredString(ms, "type") == Ok(c.fieldType)
            && OptionalString(ms, "mode") == Ok(c.mode)
  {
    var ms := EncodeColumn(c).members;
    ColumnKeys(c);
    StringAt(ms, "name", 0, c.name);
    StringAt(ms, "type", 1, c.fieldType);
    ModeAt(ms, 2, c.mode);
  }

  lemma StringAt(ms: seq<(string, Json)>, key: string, k: nat, s: string)
    requires Find(ms, key) == Found(k) && ms[k].1 == JString(s)
    ensures RequiredString(ms, key) == Ok(s)
  {
  }

  lemma ModeAt(ms: seq<(string, Json)>, k: nat, mode: Option<string>)
    requires Find(ms, "mode") == Found(k) && ms[k].1 == EncodeMode(mode)
    ensures OptionalString(ms, "mode") == Ok(mode)
  {
  }

  /** Each key of an encoded column is found once, where it was written. */
  lemma ColumnKeys(c: Column)
    ensures var ms := EncodeColumn(c).members;
            && Find(ms, "name") == Found(0) && Find(ms, "type") == Found(1)
            && Find(ms, "mode") == Found(2) && Find(ms, "fields") == Found(3)
  {
    var ms := EncodeColumn(c).members;
    assert ms[0].0 == "name" && ms[1].0 == "type" && ms[2].0 == "mode" && ms[3].0 == "fields";
    FindUnique(ms, 0, "name");
    FindUnique(ms, 1, "type");
    FindUnique(ms, 2, "mode");
    FindUnique(ms, 3, "fields");
  }

  lemma {:induction false} ColumnsRoundTrip(cs: seq<Column>)
    ensures DecodeColumns(EncodeColumns(cs)) == Ok(cs)
    decreases cs
  {
    if cs != [] {
      ColumnRoundTrip(cs[0]);
      ColumnsRoundTrip(cs[1..]);
      assert EncodeColumns(cs)[1..] == EncodeColumns(cs[1..]);
      assert [cs[0]] + cs[1..] == cs;
    }
  }

  /** A missing `mode` or `fields` reads as absent (this lemma), which is not the same
      value as a present empty string or empty list (the next one). */
  lemma AbsentModeAndFields(name: string, fieldType: string)
    ensures DecodeColumn(JObject([("name", JString(name)), ("type", JString(fieldType))])) ==
            Ok(Column(name, fieldType, None, NoFields))
  {
    var absent := [("name", JString(name)), ("type", JString(fieldType))];
    assert absent[0].0 == "name" && absent[1].0 == "type";
    FindUnique(absent, 0, "name");
    FindUnique(absent, 1, "type");
    assert Find(absent, "mode") == Missing && Find(absent, "fields") == Missing;
  }

  lemma EmptyModeAndFields(name: string, fieldType: string)
    ensures DecodeColumn(JObject([("name", JString(name)), ("type", JString(fieldType)),
                                  ("mode", JString("")), ("fields", JArray([]))])) ==
            Ok(Column(name, fieldType, Some(""), SomeFields([])))
  {
    var empty := [("name", JString(name)), ("type", JString(fieldType)),
                  ("mode", JString("")), ("fields", JArray([]))];
    assert empty[0].0 == "name" && empty[1].0 == "type" && empty[2].0 == "mode" && empty[3].0 == "fields";
    FindUnique(empty, 0, "name");
    FindUnique(empty, 1, "type");
    FindUnique(empty, 2, "mode");
    FindUnique(empty, 3, "fields");
    StringAt(empty, "name", 0, name);
    StringAt(empty, "type", 1, fieldType);
    ModeAt(empty, 2, Some(""));
    assert DecodeColumns([]) == Ok([]);
    ArrayFieldsAt(empty, 3, [], []);
    ColumnFromMembers(empty, Column(name, fieldType, Some(""), SomeFields([])));
  }

  /** The column type is read from the key `type`, not from the field's own name. */
  lemma ColumnNeedsTypeKey(name: string, fieldType: string)
    ensures DecodeColumn(JObject([("name", JString(name)), ("field_type", JString(fieldType))])) ==
            Err(MissingField("type"))
  {
    var ms := [("name", JString(name)), ("field_type", JString(fieldType))];
    assert ms[0].0 == "name" && ms[1].0 == "field_type";
    FindUnique(ms, 0, "name");
    assert Find(ms, "type") == Missing;
  }

  function EncodeSchema(s: Schema): Json {
    JObject([("fields", JArray(EncodeColumns(s.fields)))])
  }

  function DecodeSchema(j: Json): Result<Schema> {
    match j
    case JObject(ms) =>
      var cs :- Required(ms, "fields", (a: Json) => if a.JArray? then DecodeColumns(a.items)
                                                    else Err("invalid type: expected a sequence"));
      Ok(Schema(cs))
    case _ => Err("invalid type: expected struct Schema")
  }

  lemma SchemaRoundTrip(s: Schema)
    ensures DecodeSchema(EncodeSchema(s)) == Ok(s)
  {
    ColumnsRoundTrip(s.fields);
    assert Find(EncodeSchema(s).members, "fields") == Found(0);
  }

  function EncodeTableGet(t: TableGet): Json {
    JObject([("schema", EncodeSchema(t.schema))])
  }

  function DecodeTableGet(j: Json): Result<TableGet> {
    match j
    case JObject(ms) =>
      var s :- Required(ms, "schema", DecodeSchema);
      Ok(TableGet(s))
    case _ => Err("invalid type: expected struct TableGet")
  }

  lemma TableGetRoundTrip(t: TableGet)
    ensures DecodeTableGet(EncodeTableGet(t)) == Ok(t)
  {
    SchemaRoundTrip(t.schema);
    assert Find(EncodeTableGet(t).members, "schema") == Found(0);
  }
}
