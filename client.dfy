/** The warehouse metadata client of src/bigquery/client.rs: request URLs, the three
    remote calls with their JSON decoding, and the two gather policies (all-or-nothing
    for table enumeration, drop-failures for table fetches).

    The HTTP transport is a parameter: `send` gives, for each URL, the outcome of a GET
    (a transport error, or a status and a JSON body). Concurrency is not modelled; the
    gathers are folds in input order, which is also the order `join_all` and
    `try_join_all` return their values in. */
module Client {
  import opened Results
  import opened Strings
  import opened Json
  import opened Types

  datatype Response = Response(status: nat, body: Json)

  /** The outcome of a GET for each URL. */
  type Send = string -> Result<Response>

  const ApiBase: string := "https://bigquery.googleapis.com/bigquery/v2/projects/"

  // ---------------------------------------------------------------- URLs

  /** The request URLs are the API base followed by `/`-separated path segments, the
      ids in fixed positions among the literal segments. */
  function DatasetsUrl(projectId: string): string {
    ApiBase + Join([projectId, "datasets"], '/')
  }

  function TablesUrl(d: DatasetReference): string {
    ApiBase + Join([d.projectId, "datasets", d.datasetId, "tables"], '/')
  }

  function TableUrl(t: TableReference): string {
    ApiBase + Join([t.projectId, "datasets", t.datasetId, "tables", t.tableId], '/')
  }

  /** The text of the URLs, for every id. */
  lemma DatasetsUrlText(p: string)
    ensures DatasetsUrl(p) == ApiBase + p + "/datasets"
  {
    JoinCons(p, ["datasets"], '/');
  }

  lemma TablesUrlText(d: DatasetReference)
    ensures TablesUrl(d) == ApiBase + d.projectId + "/datasets/" + d.datasetId + "/tables"
  {
    var l2 := [d.datasetId, "tables"];
    JoinCons(d.datasetId, ["tables"], '/');
    var l1 := ["datasets"] + l2;
    JoinCons("datasets", l2, '/');
    JoinCons(d.projectId, l1, '/');
    assert [d.projectId] + l1 == [d.projectId, "datasets", d.datasetId, "tables"];
  }

  lemma TableUrlText(t: TableReference)
    ensures TableUrl(t) ==
            ApiBase + t.projectId + "/datasets/" + t.datasetId + "/tables/" + t.tableId
  {
    var l3 := ["tables", t.tableId];
    JoinCons("tables", [t.tableId], '/');
    var l2 := [t.datasetId] + l3;
    JoinCons(t.datasetId, l3, '/');
    var l1 := ["datasets"] + l2;
    JoinCons("datasets", l2, '/');
    JoinCons(t.projectId, l1, '/');
    assert [t.projectId] + l1 == [t.projectId, "datasets", t.datasetId, "tables", t.tableId];
  }

  /** Ids without `/` can be read back from the URLs. */
  lemma DatasetsUrlSegments(projectId: string)
    requires '/' !in projectId
    ensures DatasetsUrl(projectId)[..|ApiBase|] == ApiBase
    ensures Split(DatasetsUrl(projectId)[|ApiBase|..], '/') == [projectId, "datasets"]
  {
    PathSegments([projectId, "datasets"]);
  }

  lemma TablesUrlSegments(d: DatasetReference)
    requires '/' !in d.projectId && '/' !in d.datasetId
    ensures TablesUrl(d)[..|ApiBase|] == ApiBase
    ensures Split(TablesUrl(d)[|ApiBase|..], '/') == [d.projectId, "datasets", d.datasetId, "tables"]
  {
    PathSegments([d.projectId, "datasets", d.datasetId, "tables"]);
  }

  lemma TableUrlSegments(t: TableReference)
    requires '/' !in t.projectId && '/' !in t.datasetId && '/' !in t.tableId
    ensures TableUrl(t)[..|ApiBase|] == ApiBase
    ensures Split(TableUrl(t)[|ApiBase|..], '/') ==
            [t.projectId, "datasets", t.datasetId, "tables", t.tableId]
  {
    PathSegments([t.projectId, "datasets", t.datasetId, "tables", t.tableId]);
  }

  /** A URL made of the base and `/`-free segments splits back into them. */
  lemma PathSegments(parts: seq<string>)
    requires |parts| > 0 && forall i :: 0 <= i < |parts| ==> '/' !in parts[i]
    ensures (ApiBase + Join(parts, '/'))[..|ApiBase|] == ApiBase
    ensures Split((ApiBase + Join(parts, '/'))[|ApiBase|..], '/') == parts
  {
    assert (ApiBase + Join(parts, '/'))[|ApiBase|..] == Join(parts, '/');
    SplitJoin(parts, '/');
  }

  /** Distinct tables (with `/`-free ids) are fetched from distinct URLs. */
  lemma TableUrlInjective(t: TableReference, u: TableReference)
    requires '/' !in t.projectId && '/' !in t.datasetId && '/' !in t.tableId
    requires '/' !in u.projectId && '/' !in u.datasetId && '/' !in u.tableId
    requires TableUrl(t) == TableUrl(u)
    ensures t == u
  {
    TableUrlSegments(t);
    TableUrlSegments(u);
    var st := Split(TableUrl(t)[|ApiBase|..], '/');
    assert st[0] == t.projectId && st[0] == u.projectId;
    assert st[2] == t.datasetId && st[2] == u.datasetId;
    assert st[4] == t.tableId && st[4] == u.tableId;
  }

  // ---------------------------------------------------------------- the three calls

  /** `client.get(url).send().await?.json::<T>().await?`: a transport error or a body
      that does not decode fails the call; the status is not looked at. */
  function Get<T>(send: Send, url: string, decode: Json -> Result<T>): (r: Result<T>)
    ensures r.Ok? <==> send(url).Ok? && decode(send(url).value.body).Ok?
    ensures r.Ok? ==> r == decode(send(url).value.body)
  {
    var response :- send(url);
    decode(response.body)
  }

  /** `list_project_datasets`: the references of the listed datasets, one for one and
      in order. */
  function ListProjectDatasets(send: Send, projectId: string): (r: Result<seq<DatasetReference>>)
    ensures r.Ok? <==> Get(send, DatasetsUrl(projectId), DecodeDatasetList).Ok?
    ensures r.Ok? ==> var list := Get(send, DatasetsUrl(projectId), DecodeDatasetList).value;
                      |r.value| == |list.datasets| &&
                      forall i :: 0 <= i < |r.value| ==> r.value[i] == list.datasets[i].datasetReference
  {
    var list :- Get(send, DatasetsUrl(projectId), DecodeDatasetList);
    Ok(seq(|list.datasets|, i requires 0 <= i < |list.datasets| => list.datasets[i].datasetReference))
  }

  /** `list_dataset_tables`: the references of the listed tables, one for one and in
      order. */
  function ListDatasetTables(send: Send, dataset: DatasetReference): (r: Result<seq<TableReference>>)
    ensures r.Ok? <==> Get(send, TablesUrl(dataset), DecodeTableList).Ok?
    ensures r.Ok? ==> var list := Get(send, TablesUrl(dataset), DecodeTableList).value;
                      |r.value| == |list.tables| &&
                      forall i :: 0 <= i < |r.value| ==> r.value[i] == list.tables[i].tableReference
  {
    var list :- Get(send, TablesUrl(dataset), DecodeTableList);
    Ok(seq(|list.tables|, i requires 0 <= i < |list.tables| => list.tables[i].tableReference))
  }

  /** `get_table`: the body is decoded straight into `Table`, whose schema is not
      deserialised. */
  function GetTable(send: Send, table: TableReference): (r: Result<Table>)
    ensures r.Ok? <==> Get(send, TableUrl(table), DecodeTable).Ok?
    ensures r.Ok? ==> r.value.schema == None
  {
    Get(send, TableUrl(table), DecodeTable)
  }

  // ---------------------------------------------------------------- the gathers

  /** The per-dataset listing outcomes, in dataset order. */
  function DatasetListings(send: Send, datasets: seq<DatasetReference>): (r: seq<Result<seq<TableReference>>>)
    ensures |r| == |datasets| && forall i :: 0 <= i < |datasets| ==> r[i] == ListDatasetTables(send, datasets[i])
  {
    seq(|datasets|, i requires 0 <= i < |datasets| => ListDatasetTables(send, datasets[i]))
  }

  /** `list_project_tables`: list the datasets, then every dataset's tables; any failed
      call fails the whole enumeration (`?` and `try_join_all`). */
  function ListProjectTables(send: Send, projectId: string): Result<seq<TableReference>> {
    var datasets :- ListProjectDatasets(send, projectId);
    var lists :- Collect(DatasetListings(send, datasets));
    Ok(Flatten(lists))
  }

  /** A failed dataset listing is the result, and no table listing has any bearing on
      it: the outcome is the same whatever every other URL answers. */
  lemma ListProjectTablesDatasetsFail(send: Send, other: Send, projectId: string)
    requires ListProjectDatasets(send, projectId).Err?
    requires other(DatasetsUrl(projectId)) == send(DatasetsUrl(projectId))
    ensures ListProjectTables(send, projectId) == Err(ListProjectDatasets(send, projectId).error)
    ensures ListProjectTables(other, projectId) == ListProjectTables(send, projectId)
  {
  }

  /** One failing dataset listing fails the whole enumeration, even if every other
      dataset was listed. */
  lemma ListProjectTablesOneFails(send: Send, projectId: string, i: nat)
    requires ListProjectDatasets(send, projectId).Ok?
    requires i < |ListProjectDatasets(send, projectId).value|
    requires ListDatasetTables(send, ListProjectDatasets(send, projectId).value[i]).Err?
    ensures ListProjectTables(send, projectId).Err?
  {
    var ds := ListProjectDatasets(send, projectId).value;
    assert DatasetListings(send, ds)[i].Err?;
  }

  /** On success the result is the per-dataset lists concatenated in dataset order:
      each dataset's tables, in listing order, follow those of the datasets before it. */
  lemma ListProjectTablesSuccess(send: Send, projectId: string)
    requires ListProjectTables(send, projectId).Ok?
    ensures var ds := ListProjectDatasets(send, projectId).value;
            && (forall i :: 0 <= i < |ds| ==> ListDatasetTables(send, ds[i]).Ok?)
            && ListProjectTables(send, projectId).value ==
               Flatten(seq(|ds|, i requires 0 <= i < |ds| => ListDatasetTables(send, ds[i]).value))
  {
    var ds := ListProjectDatasets(send, projectId).value;
    var lists := Collect(DatasetListings(send, ds)).value;
    assert lists == seq(|ds|, i requires 0 <= i < |ds| => ListDatasetTables(send, ds[i]).value);
  }

  /** Conversely, a successful dataset listing whose every dataset is listed makes the
      enumeration succeed, with those lists concatenated in dataset order. */
  lemma ListProjectTablesAllOk(send: Send, projectId: string)
    requires ListProjectDatasets(send, projectId).Ok?
    requires var ds := ListProjectDatasets(send, projectId).value;
             forall i :: 0 <= i < |ds| ==> ListDatasetTables(send, ds[i]).Ok?
    ensures var ds := ListProjectDatasets(send, projectId).value;
            ListProjectTables(send, projectId) ==
            Ok(Flatten(seq(|ds|, i requires 0 <= i < |ds| => ListDatasetTables(send, ds[i]).value)))
  {
    var ds := ListProjectDatasets(send, projectId).value;
    var lists := Collect(DatasetListings(send, ds)).value;
    assert lists == seq(|ds|, i requires 0 <= i < |ds| => ListDatasetTables(send, ds[i]).value);
  }

  /** `get_tables`: fetch every table, keep the fetches that succeeded in input order,
      drop (and only log) the others; the gather itself never fails. */
  function GetTables(send: Send, tables: seq<TableReference>): (r: Result<seq<Table>>)
    ensures r.Ok?
  {
    Ok(Successes(seq(|tables|, i requires 0 <= i < |tables| => GetTable(send, tables[i]))))
  }

  /** The fetched tables are exactly the successful fetches, one per success, and none
      of them carries a schema. */
  lemma GetTablesKeepsSuccesses(send: Send, tables: seq<TableReference>)
    ensures var fetches := seq(|tables|, i requires 0 <= i < |tables| => GetTable(send, tables[i]));
            && GetTables(send, tables).value == Successes(fetches)
            && |GetTables(send, tables).value| == |tables| - |Failures(fetches)|
            && forall t :: t in GetTables(send, tables).value <==> Ok(t) in fetches
  {
    var fetches := seq(|tables|, i requires 0 <= i < |tables| => GetTable(send, tables[i]));
    SuccessesAndFailures(fetches);
  }

  /** No table returned by `get_tables` has a schema, whatever the responses hold. */
  lemma GetTablesCarryNoSchema(send: Send, tables: seq<TableReference>)
    ensures forall t :: t in GetTables(send, tables).value ==> t.schema == None
  {
    var fetches := seq(|tables|, i requires 0 <= i < |tables| => GetTable(send, tables[i]));
    forall t | t in GetTables(send, tables).value ensures t.schema == None {
      var i :| 0 <= i < |fetches| && fetches[i] == Ok(t);
    }
  }

  /** Even a successful response that does carry the table's schema yields a table
      without one. */
  lemma FetchedSchemaIsDiscarded(send: Send, table: TableReference, status: nat, schema: Schema)
    requires send(TableUrl(table)) ==
             Ok(Response(status, JObject([("tableReference", EncodeTableReference(table)),
                                          ("schema", EncodeSchema(schema))])))
    ensures GetTable(send, table) == Ok(Table(table, None))
  {
    var ms := [("tableReference", EncodeTableReference(table)), ("schema", EncodeSchema(schema))];
    assert ms[0].0 == "tableReference" && ms[1].0 == "schema";
    FindUnique(ms, 0, "tableReference");
    TableReferenceRoundTrip(table);
  }

  /** With exactly one failing fetch among n, `get_tables` returns n - 1 tables and
      the others are unaffected. */
  lemma GetTablesOneFailure(send: Send, tables: seq<TableReference>, j: nat)
    requires j < |tables| && GetTable(send, tables[j]).Err?
    requires forall i :: 0 <= i < |tables| && i != j ==> GetTable(send, tables[i]).Ok?
    ensures |GetTables(send, tables).value| == |tables| - 1
  {
    var fetches := seq(|tables|, i requires 0 <= i < |tables| => GetTable(send, tables[i]));
    SuccessesOneFailure(fetches, j);
  }
}
