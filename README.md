# schema-searcher, modelled in Dafny

schema-searcher discovers BigQuery metadata. It lists the datasets of some projects,
then the tables of those datasets (or takes the tables it is asked for). It fetches
each table's schema and writes one text section per table: a header, then the column
tree as indented lines. This project models the data-shaping core of that program and
proves properties of the model. The modules follow the source files:

- `Results` holds `Option`/`Result` and the two gather policies of the program. One
  keeps the successes (`join_all` then `filter_map`); the other fails as a whole
  (`try_join_all` followed by `?`).
- `Strings` holds `split`/`join` on one separator character, space padding, and the
  lexicographic order of Rust `String`s (Dafny's `<` on strings is the prefix order).
- `Json` holds a JSON value type and the by-key member lookup of serde's derived
  decoders, which tells a missing key from a repeated one.
- `Types` (`src/bigquery/types.rs`) holds the metadata records and their JSON form under
  the serde renames. `Table.schema` is skipped in both directions.
- `Client` (`src/bigquery/client.rs`) holds the request URLs, the three remote calls and
  the two gathers. The transport is a function `Send` from a URL to the outcome of a GET.
- `Writer` (`src/io/writer.rs`, also copied at `src/ref.rs:305-324`) holds the rendering
  of a column tree as lines, a `Sink` class for an output file whose writes can fail
  (with the text the file ends up holding), and the recursive `WriteColumn` method.
  `WriteColumn` is proved against the pure line function and the `Emitted` predicate
  ("the lines up to the first failed write").
- `Fuzzy` (`src/io/fuzzy.rs`) holds the candidate text for the table picker and the loop
  that parses the picked items.
- `Prototype` (`src/ref.rs`) holds the whole run: project derivation, the listing loops
  (which tolerate failure), table-string parsing, the in-place schema fetch over an
  `array<Table>`, and the write loop. A `Network` object records every GET it performs.
  Each GET is answered according to its URL and its position among the run's GETs. A
  URL requested twice (`--projects a,a`, or a table named twice) may therefore be
  answered differently each time.

Two behaviours of the code are modelled as written.

- A table fetched through the client never carries a schema. `Table.schema` is
  `#[serde(skip)]` (`src/bigquery/types.rs:33-34`), and `get_table` decodes the response
  straight into `Table` (`src/bigquery/client.rs:106`). `Client.FetchedSchemaIsDiscarded`
  shows that a response which does hold the schema still yields a table without one.
- `src/ref.rs:230-232` only counts the parts that `split('.')` yields, so `a..b` is
  accepted with an empty dataset id (`Prototype.EmptySegmentAccepted`).

`src/ref.rs:262` lacks the opening quote of its `format!` string. The model uses the
evidently intended URL, which is the one `get_table` builds.

## Model

| member | source | states |
|---|---|---|
| Results.Successes | src/bigquery/client.rs:117-127 | the kept values are at most as many as the outcomes, and a value is kept exactly when an `Ok` of it is among the outcomes |
| Results.Failures | src/bigquery/client.rs:120-125 | a message is reported exactly when an `Err` of it is among the outcomes |
| Results.SuccessesAndFailures | src/bigquery/client.rs:117-127 | every outcome is either kept or reported: the two counts add up to the number of outcomes |
| Results.SuccessesAppend | src/bigquery/client.rs:117-127 | keeping the successes distributes over concatenation, so input order is kept |
| Results.SuccessesOfAllOk | src/bigquery/client.rs:117-127 | with no failure, the kept values are all the values, one for one and in order |
| Results.SuccessesOneFailure | src/bigquery/client.rs:117-127 | with exactly one failure, one value fewer is kept |
| Results.Collect | src/bigquery/client.rs:92 | the gather succeeds exactly when every outcome is `Ok`, and then holds the values one for one; otherwise it is one of the errors (the first in input order, a choice of the model) |
| Results.CollectIsSuccessesWhenAllOk | src/bigquery/client.rs:91-92 | when the all-or-nothing gather succeeds it equals the tolerant one |
| Results.Flatten | src/bigquery/client.rs:92 | an element is in the flattened list exactly when it is in one of the lists |
| Results.FlattenAppend | src/bigquery/client.rs:92 | flattening distributes over concatenation, so lists keep their relative order |
| Strings.Join | src/io/fuzzy.rs:10 | definition (`join` with one separator character), specified by `Strings.JoinSplit` and `Strings.SplitJoin` |
| Strings.Split | src/ref.rs:230 | `split` yields at least one part, and no part contains the separator |
| Strings.SplitCount | src/ref.rs:230-232 | the number of parts is one more than the number of separators |
| Strings.JoinSplit | src/ref.rs:230 | joining the parts with the separator gives back the input |
| Strings.SplitJoin | src/ref.rs:230 | separator-free parts joined and split again give back the parts |
| Strings.Spaces | src/io/writer.rs:6 | `" ".repeat(n)` has length `n` and holds only spaces |
| Strings.LexLess | src/ref.rs:113 | definition (the byte-wise lexicographic order of Rust strings, a proper prefix sorting first), specified by the three lemmas below |
| Strings.LexLessIrreflexive | src/ref.rs:113 | no string sorts before itself |
| Strings.LexLessTransitive | src/ref.rs:113 | the string order is transitive |
| Strings.LexLessTotal | src/ref.rs:113 | of two distinct strings, one sorts before the other |
| Json.Find | src/bigquery/types.rs:4-66 | a key is missing exactly when no member has it; a found key is at a position holding it, and no other member has it; a repeated key occurs at two positions |
| Json.FindUnique | src/bigquery/types.rs:4-66 | the only member carrying a key is the one found |
| Types.RequiredString | src/bigquery/types.rs:15-21 | a `String` member decodes exactly when its key occurs once with a string value, and the result is that string; a missing key is the missing-field error |
| Types.OptionalString | src/bigquery/types.rs:64 | an `Option<String>` member is `None` when the key is missing or its value is `null`, `Some(s)` exactly when the key occurs once with the string `s`, a duplicate-field error when the key is repeated, and an error for any other value |
| Types.Required | src/bigquery/types.rs:9-13 | a nested member is the decoding of its value when its key occurs once, a missing-field error when the key is absent, and a duplicate-field error when it is repeated |
| Types.ListOf | src/bigquery/types.rs:4-7 | a decoded list comes from an array of the same length whose items decode to its elements, in order |
| Types.ListOfAllDecode | src/bigquery/types.rs:4-7 | an array whose items all decode decodes to those values, in order |
| Types.EncodeDatasetReference | src/bigquery/types.rs:15-21 | definition (an object with `projectId` and `datasetId`), specified by `Types.DatasetReferenceRoundTrip` |
| Types.DecodeDatasetReference | src/bigquery/types.rs:15-21 | definition, specified by `Types.DatasetReferenceRoundTrip` and `Types.ReferencesNeedRenamedKeys` |
| Types.EncodeTableReference | src/bigquery/types.rs:37-46 | definition (an object with `projectId`, `datasetId` and `tableId`), specified by `Types.TableReferenceRoundTrip` |
| Types.DecodeTableReference | src/bigquery/types.rs:37-46 | definition, specified by `Types.TableReferenceRoundTrip` and `Types.ReferencesNeedRenamedKeys` |
| Types.EncodeDataset | src/bigquery/types.rs:9-13 | definition (an object with `datasetReference`), specified by `Types.DatasetRoundTrip` |
| Types.DecodeDataset | src/bigquery/types.rs:9-13 | definition, specified by `Types.DatasetRoundTrip` |
| Types.EncodeDatasetList | src/bigquery/types.rs:4-7 | definition (an object with the `datasets` array), specified by `Types.DatasetListRoundTrip` |
| Types.DecodeDatasetList | src/bigquery/types.rs:4-7 | definition, specified by `Types.DatasetListRoundTrip` |
| Types.EncodeTable | src/bigquery/types.rs:29-35 | definition (an object with `tableReference` only), specified by `Types.TableRoundTripDropsSchema` |
| Types.EncodeTableList | src/bigquery/types.rs:24-27 | definition (an object with the `tables` array), specified by `Types.TableListRoundTrip` |
| Types.EncodeColumn | src/bigquery/types.rs:59-66 | definition (`name`, `type`, `mode` and `fields`, absent values as `null`), specified by `Types.ColumnKeys` and `Types.ColumnRoundTrip` |
| Types.DecodeColumn | src/bigquery/types.rs:59-66 | definition, specified by `Types.ColumnRoundTrip`, `Types.AbsentModeAndFields`, `Types.EmptyModeAndFields` and `Types.ColumnNeedsTypeKey` |
| Types.DecodeFields | src/bigquery/types.rs:65 | definition (missing or `null` is absent, an array is the nested columns), specified by `Types.AbsentModeAndFields` and `Types.EmptyModeAndFields` |
| Types.DecodeColumns | src/bigquery/types.rs:65 | definition (element by element, the first bad one failing the list), specified by `Types.ColumnsRoundTrip` |
| Types.EncodeSchema | src/bigquery/types.rs:54-57 | definition (an object with the `fields` array), specified by `Types.SchemaRoundTrip` |
| Types.DecodeSchema | src/bigquery/types.rs:54-57 | definition, specified by `Types.SchemaRoundTrip` |
| Types.EncodeTableGet | src/bigquery/types.rs:49-52 | definition (an object with `schema`), specified by `Types.TableGetRoundTrip` |
| Types.DecodeTableGet | src/bigquery/types.rs:49-52 | definition, specified by `Types.TableGetRoundTrip` and `Prototype.SchemaOnlyFromFetch` |
| Types.DatasetReferenceRoundTrip | src/bigquery/types.rs:15-21 | a dataset reference decodes back from its encoding under `projectId`/`datasetId` |
| Types.TableReferenceRoundTrip | src/bigquery/types.rs:37-46 | a table reference decodes back from its encoding under `projectId`/`datasetId`/`tableId` |
| Types.ReferencesNeedRenamedKeys | src/bigquery/types.rs:15-46 | an object without the renamed key `projectId` decodes to neither kind of reference: the missing-field error |
| Types.DatasetRoundTrip | src/bigquery/types.rs:9-13 | a dataset decodes back from its encoding under `datasetReference` |
| Types.DatasetListRoundTrip | src/bigquery/types.rs:4-7 | a dataset listing decodes back to the same datasets in the same order |
| Types.DecodeTable | src/bigquery/types.rs:29-35 | a decoded table never has a schema, whatever the body holds |
| Types.TableRoundTripDropsSchema | src/bigquery/types.rs:29-35 | encoding and decoding a table keeps its reference and resets its schema to `None`, so a table with a schema never round-trips |
| Types.DecodeTableList | src/bigquery/types.rs:24-27 | no table of a decoded listing has a schema |
| Types.TableListRoundTrip | src/bigquery/types.rs:24-27 | a table listing decodes back to the same references in the same order, every schema reset |
| Types.TableListRequiresTables | src/bigquery/types.rs:24-27 | a body without `tables` is a missing-field error, not an empty listing |
| Types.ColumnKeys | src/bigquery/types.rs:59-66 | an encoded column carries `name`, `type`, `mode` and `fields` once each, in declaration order |
| Types.ColumnRoundTrip | src/bigquery/types.rs:59-66 | any column tree decodes back from its encoding |
| Types.ColumnsRoundTrip | src/bigquery/types.rs:59-66 | any list of column trees decodes back to the same list, in order |
| Types.AbsentModeAndFields | src/bigquery/types.rs:64-65 | a column without `mode` and `fields` keys decodes with both absent |
| Types.EmptyModeAndFields | src/bigquery/types.rs:64-65 | an empty `mode` and an empty `fields` decode as present and empty, which differs from absent |
| Types.ColumnNeedsTypeKey | src/bigquery/types.rs:62 | the column type is read under `type`; a body that has only `field_type` is a missing-field error |
| Types.SchemaRoundTrip | src/bigquery/types.rs:54-57 | a schema decodes back to the same columns in the same order |
| Types.TableGetRoundTrip | src/bigquery/types.rs:49-52 | a table fetch body decodes back to the same schema |
| Client.DatasetsUrl | src/bigquery/client.rs:47-50 | definition (the API base, then the project id and `datasets`), specified by `Client.DatasetsUrlText` and `Client.DatasetsUrlSegments` |
| Client.TablesUrl | src/bigquery/client.rs:66-69 | definition, specified by `Client.TablesUrlText` and `Client.TablesUrlSegments` |
| Client.TableUrl | src/bigquery/client.rs:101-104 | definition, specified by `Client.TableUrlText`, `Client.TableUrlSegments` and `Client.TableUrlInjective` |
| Client.DatasetsUrlText | src/bigquery/client.rs:47-50 | for every project id `p`, the dataset listing URL is the API base followed by `p/datasets` |
| Client.TablesUrlText | src/bigquery/client.rs:66-69 | for every dataset `p.d`, the table listing URL is the API base followed by `p/datasets/d/tables` |
| Client.TableUrlText | src/bigquery/client.rs:101-104 | for every table `p.d.t`, the fetch URL is the API base followed by `p/datasets/d/tables/t` |
| Client.DatasetsUrlSegments | src/bigquery/client.rs:47-50 | for a `/`-free project id, the dataset listing URL starts with the API base, and its path splits into the project id and `datasets` |
| Client.TablesUrlSegments | src/bigquery/client.rs:66-69 | for `/`-free ids, the table listing URL starts with the API base, and its path splits into the ids in their fixed slots |
| Client.TableUrlSegments | src/bigquery/client.rs:101-104 | for `/`-free ids, the table fetch URL starts with the API base, and its path splits into the three ids in their fixed slots |
| Client.TableUrlInjective | src/bigquery/client.rs:101-104 | distinct tables with `/`-free ids are fetched from distinct URLs |
| Client.Get | src/bigquery/client.rs:51 | a call succeeds exactly when the GET succeeds and its body decodes, whatever the status; the result is the decoded body |
| Client.ListProjectDatasets | src/bigquery/client.rs:43-60 | succeeds exactly when the listing call succeeds; the result is the listed datasets' references, one for one and in order |
| Client.ListDatasetTables | src/bigquery/client.rs:62-79 | succeeds exactly when the listing call succeeds; the result is the listed tables' references, one for one and in order |
| Client.GetTable | src/bigquery/client.rs:97-109 | succeeds exactly when the fetch call succeeds, and the table returned has no schema |
| Client.ListProjectTablesDatasetsFail | src/bigquery/client.rs:85 | a failed dataset listing is the result, and no other URL's answer changes it (no table listing has any bearing) |
| Client.ListProjectTablesOneFails | src/bigquery/client.rs:92 | one failed per-dataset listing fails the whole enumeration |
| Client.ListProjectTables | src/bigquery/client.rs:81-95 | definition (list the datasets, then every dataset's tables, failing as a whole), specified by `Client.ListProjectTablesDatasetsFail`, `Client.ListProjectTablesOneFails`, `Client.ListProjectTablesAllOk` and `Client.ListProjectTablesSuccess` |
| Client.ListProjectTablesAllOk | src/bigquery/client.rs:85-94 | a successful dataset listing whose every dataset's listing succeeds makes the enumeration succeed, with those lists concatenated in dataset order |
| Client.ListProjectTablesSuccess | src/bigquery/client.rs:87-94 | on success every per-dataset listing succeeded, and the result is their lists concatenated in dataset order |
| Client.GetTables | src/bigquery/client.rs:111-130 | the drop-failures gather always returns `Ok` |
| Client.GetTablesKeepsSuccesses | src/bigquery/client.rs:115-129 | the result is the successful fetches in input order; its length is the number of tables less the number of failures; a table is in it exactly when its fetch produced it |
| Client.GetTablesCarryNoSchema | src/bigquery/client.rs:97-130 | no table returned by `get_tables` has a schema |
| Client.FetchedSchemaIsDiscarded | src/bigquery/client.rs:106 | a response that holds the table's schema still yields the table with no schema |
| Client.GetTablesOneFailure | src/bigquery/client.rs:117-127 | exactly one failed fetch among n leaves n - 1 tables |
| Writer.Line | src/io/writer.rs:7-14 | definition (`<indent spaces>|- <name> (<type>) [<mode or REQUIRED>]`), specified by `Writer.LineIndentation`, `Writer.LineShowsMode` and `Writer.MissingModeIsRequired` |
| Writer.ColumnLines | src/io/writer.rs:5-24 | definition (a column's line, then its nested columns' lines two spaces deeper), specified by `Writer.LineCount` and `Writer.LinesFollowPreorder` |
| Writer.ForestLines | src/io/writer.rs:17-21 | definition (sibling columns' lines one after another), specified by `Writer.ForestLineCount` and `Writer.ForestFollowsPreorder` |
| Writer.Emitted | src/io/writer.rs:14-19 | definition (the lines written one by one up to the first failed write), specified by `Writer.EmittedNothing`, `Writer.EmittedThen` and `Writer.EmittedStops` |
| Writer.Terminated | src/io/writer.rs:7-14 | definition (each written text followed by a newline), specified by `Writer.TerminatedAppend` |
| Writer.Sink.Text | src/io/writer.rs:7-14 | definition (the file's content), specified by `Writer.Sink.Writeln` |
| Writer.Preorder | src/io/writer.rs:5-24 | the preorder of a tree is non-empty and starts with the tree's own node |
| Writer.LineCount | src/io/writer.rs:5-24 | rendering a column writes one line per node of its tree |
| Writer.ForestLineCount | src/io/writer.rs:17-21 | rendering a list of sibling columns writes one line per node of their trees |
| Writer.LinesFollowPreorder | src/io/writer.rs:5-24 | the k-th line is the line of the k-th node in depth-first preorder, indented by two spaces per level below the starting column |
| Writer.ForestFollowsPreorder | src/io/writer.rs:17-21 | the same for a list of siblings: children follow their parent, siblings in declared order |
| Writer.LineIndentation | src/io/writer.rs:6-14 | a line has exactly `indent` leading spaces, followed by the marker `|- ` |
| Writer.LineShowsMode | src/io/writer.rs:13 | a column's mode appears verbatim between the closing brackets of its line |
| Writer.MissingModeIsRequired | src/io/writer.rs:13 | a column without a mode renders exactly like one whose mode is `REQUIRED` |
| Writer.EmptyFieldsLikeNone | src/io/writer.rs:17-21 | present but empty nested fields render like absent ones |
| Writer.FirstFailure | src/io/writer.rs:14-19 | the offset of the first failing write, when there is one, lies among the attempts considered |
| Writer.FirstFailureMeans | src/io/writer.rs:14-19 | there is no failure exactly when no attempt fails; a reported failure is a failing attempt with none before it |
| Writer.FirstFailureIs | src/io/writer.rs:14-19 | a failing attempt with no failure before it is the first failure |
| Writer.EmittedNothing | src/io/writer.rs:23 | writing no line succeeds and changes nothing |
| Writer.EmittedThen | src/io/writer.rs:14-19 | a successful run of writes followed by another run makes one run of their concatenation, with the second run's outcome |
| Writer.EmittedStops | src/io/writer.rs:14-19 | after a failed write nothing more is written, whatever lines were still to come |
| Writer.EmittedGrowsOrStops | src/io/writer.rs:18-19 | one more run after a successful one either extends the success or stops the whole output at the failure |
| Writer.Sink.constructor | src/ref.rs:326 | a fresh output file holds nothing and no write has been attempted |
| Writer.Sink.Writeln | src/io/writer.rs:7-14 | a write succeeds exactly when its attempt is not a failing one; only a successful write adds its line, and the file's text then grows by the line and a newline; every write counts as an attempt |
| Writer.TerminatedAppend | src/io/writer.rs:7-14 | the file's text grows by each written line and its newline, in order |
| Writer.WrittenLine | src/io/writer.rs:7-14 | a written text appears in the file after what was there, followed by a newline |
| Writer.SiblingWritten | src/io/writer.rs:18-20 | after one more nested column, the output has grown by that column's lines, or, on failure, has stopped for the whole parent column |
| Writer.WriteColumn | src/io/writer.rs:5-24 | writes the column's lines in preorder up to the first failed write, and reports success exactly when no write failed |
| Fuzzy.TablesToString | src/io/fuzzy.rs:5-11 | no tables give the empty string, one table gives its text with no newline, and more give the first text, a newline and the rest |
| Fuzzy.CandidateLines | src/io/fuzzy.rs:23-28 | when no text contains a newline, the picker's input splits into exactly the candidate texts, one per table and in order |
| Fuzzy.CollectTables | src/io/fuzzy.rs:33-42 | the result is the successful parses in selection order; with the failures they account for every selected item; a table is kept exactly when some item parses to it |
| Prototype.Network.constructor | src/ref.rs:156-159 | a fresh client has made no request |
| Prototype.Network.Get | src/ref.rs:169 | the answer is the transport's for this URL as the n-th GET, n being the number of GETs before it, and the URL is appended to the request log |
| Prototype.IsSuccess | src/ref.rs:174 | definition (`StatusCode::is_success`, a status from 200 to 299), specified by `Prototype.Fetch` and `Prototype.FetchRequiresSuccess` |
| Prototype.Fetch | src/ref.rs:169-191 | the n-th GET yields a value exactly when the transport succeeds, the status is 2xx and the body decodes; the value is the decoded body |
| Prototype.FetchRequiresSuccess | src/ref.rs:174 | the only difference from the client's handling of a GET is the 2xx check |
| Prototype.FirstSegment | src/ref.rs:111 | the project of a table string is its longest dot-free prefix: the text before the first dot, or all of it |
| Prototype.Insert | src/ref.rs:113-114 | insertion keeps a list strictly ascending and adds exactly the new value |
| Prototype.SortedUnique | src/ref.rs:113-114 | sort then dedup gives a strictly ascending list of exactly the input's values |
| Prototype.StrictlySortedUnique | src/ref.rs:113-114 | a strictly ascending list is determined by its values, so sort then dedup has only one possible result |
| Prototype.DeriveProjects | src/ref.rs:108-127 | requested tables override requested projects and give their distinct first segments, strictly ascending; otherwise the requested projects as given; with neither, the error |
| Prototype.Contributions | src/ref.rs:164-192 | definition (the entries of each successful listing, in order), specified by `Prototype.ContributionsMembers` and the two lemmas below |
| Prototype.ContributionsMembers | src/ref.rs:164-192 | an entry is gathered exactly when a successful listing holds it |
| Prototype.FailureContributesNothing | src/ref.rs:164-192 | a failed listing contributes nothing; the listings around it still contribute in their order |
| Prototype.ContributionsWhenAllOk | src/ref.rs:164-192 | when every listing succeeds, the tolerant loop gathers what the client's all-or-nothing gather does |
| Prototype.ListAll | src/ref.rs:164-227 | the loop gathers what successful, decoded listings hold, in URL order, and performs one GET per URL in order |
| Prototype.DatasetsIn | src/ref.rs:175-184 | definition (the `datasets` of a decoded dataset listing), specified by `Prototype.DatasetsInListing` |
| Prototype.DatasetsInListing | src/ref.rs:175-184 | the body of a dataset listing yields its datasets, in order |
| Prototype.TablesInListing | src/ref.rs:212-221 | the body of a table listing yields its tables' references, in order, each without a schema |
| Prototype.DatasetsOf | src/ref.rs:164-192 | definition (the contributions of the projects' dataset listings, numbered from the first GET), specified by `Prototype.ListAllDatasets` |
| Prototype.TablesOf | src/ref.rs:197-227 | definition (the contributions of the datasets' table listings), specified by `Prototype.ListAllTables` and `Prototype.ListedTablesHaveNoSchema` |
| Prototype.TablesIn | src/ref.rs:212-221 | decodes exactly when the body is a table listing, giving its tables, none of them with a schema |
| Prototype.ListAllDatasets | src/ref.rs:162-192 | the datasets of every project whose listing succeeded, in project order, after one GET per project |
| Prototype.ListAllTables | src/ref.rs:195-227 | the tables of every dataset whose listing succeeded, in dataset order, after one GET per dataset |
| Prototype.ListedTablesHaveNoSchema | src/ref.rs:212-221 | no listed table has a schema |
| Prototype.TableName | src/ref.rs:332 | definition (`{}.{}.{}` of the three ids), specified by `Prototype.ParsedNameIsInput` and `Prototype.NameParses` |
| Prototype.ParseTableString | src/ref.rs:230-237 | a table string is accepted exactly when it has two dots, and the ids are then dot-free |
| Prototype.ParsedNameIsInput | src/ref.rs:230-237 | an accepted string is the `p.d.t` name of the table it denotes |
| Prototype.NameParses | src/ref.rs:230-237 | the name of a table with dot-free ids parses back to the table, empty ids included |
| Prototype.EmptySegmentAccepted | src/ref.rs:230-237 | `a..b` is accepted, with an empty dataset id |
| Prototype.TwoPartsRejected | src/ref.rs:232-253 | two dot-free parts joined by a dot are rejected |
| Prototype.FourPartsRejected | src/ref.rs:232-253 | four dot-free parts joined by dots are rejected |
| Prototype.ParseDesiredTables | src/ref.rs:229-255 | the accepted table strings in input order, each without a schema; with the rejections they account for every input; each comes from some input string |
| Prototype.AcceptedComeFromInput | src/ref.rs:229-255 | every accepted table has no schema and is the parse of some input string |
| Prototype.WithSchema | src/ref.rs:274-299 | definition (the fetched columns after a 2xx, decoded GET, else the table as it was), specified by `Prototype.SchemaOnlyFromFetch` and `Prototype.FailedFetchKeepsTable` |
| Prototype.FetchesKeepTables | src/ref.rs:260-300 | the fetches keep every schema-less table at its index, and a failed fetch leaves it without a schema |
| Prototype.FetchSchemas | src/ref.rs:260-300 | the array afterwards holds each table after its own fetch, at its own index, and one GET per table was made in order |
| Prototype.FetchSchema | src/ref.rs:261-299 | one table after its fetch, and exactly that fetch's GET logged |
| Prototype.FailedFetchKeepsTable | src/ref.rs:274-299 | a failed fetch keeps the table in place, still without a schema, and the list keeps its length |
| Prototype.SchemaOnlyFromFetch | src/ref.rs:279-287 | a table gains a schema only through a successful 2xx fetch whose body decodes, and the schema is that body's fields |
| Prototype.Header | src/ref.rs:330-336 | definition (`\n=== Table: p.d.t ===`), specified by `Prototype.RequestedHeaders` |
| Prototype.Body | src/ref.rs:338-344 | definition (the column lines at indentation 0, or the placeholder), specified by `Prototype.SectionShapes` and `Prototype.SectionOfSchema` |
| Prototype.Section | src/ref.rs:330-344 | definition (the header, then the body), specified by `Prototype.SectionShapes` and `Prototype.SectionOfSchema` |
| Prototype.AllSections | src/ref.rs:329-353 | definition (every table's section, in order), specified by `Prototype.AllSectionsAppend` and `Prototype.WriteTables` |
| Prototype.AllSectionsAppend | src/ref.rs:329-353 | the output of consecutive tables is their sections one after another |
| Prototype.SectionShapes | src/ref.rs:329-344 | no schema gives the header and the placeholder line; an empty schema gives the header alone; the two differ |
| Prototype.SectionOfSchema | src/ref.rs:338-341 | a schema gives the header and one line per column node, and the placeholder is not among them |
| Prototype.PlaceholderIsNoLine | src/ref.rs:343 | no column line reads like the placeholder |
| Prototype.SectionWritten | src/ref.rs:329-353 | one more successful section extends the output written so far |
| Prototype.SectionsStop | src/ref.rs:329-353 | a failed write within the first sections stops the whole output there |
| Prototype.WriteSection | src/ref.rs:330-344 | writes one table's section up to the first failed write, and reports success exactly when none failed |
| Prototype.WriteSchema | src/ref.rs:338-341 | after the header, writes every column of the schema in order up to the first failed write |
| Prototype.WriteTables | src/ref.rs:326-355 | writes every table's section in order up to the first failed write; on success `tables_written` is every table, in order |
| Prototype.ListTables | src/ref.rs:161-256 | lists the datasets of every project, then lists their tables or takes the accepted requested tables, with exactly those GETs in order |
| Prototype.Listed | src/ref.rs:195-256 | definition (listed tables when none were requested, else the accepted ones), specified by `Prototype.ListTables` and `Prototype.RunListsNoSchema` |
| Prototype.Requests | src/ref.rs:164-300 | definition (the dataset listings, the table listings when no tables were requested, then one fetch per table), specified by `Prototype.Run` |
| Prototype.Report | src/ref.rs:260-300 | definition (the listed tables after their fetches), specified by `Prototype.ReportKeepsListedTables` |
| Prototype.Run | src/ref.rs:104-355 | with nothing requested, the run fails with no GET and no write; otherwise it makes exactly the GETs of the run, in order, and writes the sections of the fetched tables up to the first failed write |
| Prototype.RunListsNoSchema | src/ref.rs:195-256 | no table the run goes on to fetch has a schema yet, listed or requested |
| Prototype.ReportKeepsListedTables | src/ref.rs:195-300 | every listed or accepted table gets exactly one section, in order; a table whose own fetch failed is reported without a schema |
| Prototype.RequestedHeaders | src/ref.rs:229-336 | with requested tables, the k-th section header shows the k-th accepted table string verbatim |

## Left out

- Authentication (`authenticate` in `src/bigquery/client.rs`, and `src/ref.rs:129-159`): the service-account key, the token and the header map are calls into libraries outside this model.
- The HTTP transport and the parsing of response bytes as JSON: bodies are already JSON values. In `Prototype` a GET's outcome is a function of its number within the run and its URL.
- `Client.ListProjectTables`, `Client.GetTables`: the client's GET is the function `Send` from URL alone. A dataset that one listing names twice has its tables listed twice with the same answer, and a table reference given twice to `get_tables` is fetched twice with the same answer. The service could answer such repeated requests differently, since each element is a request of its own (`src/bigquery/client.rs:115-116`).
- Concurrency of `join_all`, `try_join_all` and `tokio`: the gathers are folds in input order, which is the order both combinators return values in.
- `Results.Collect` returns the first error in input order when several calls fail. `try_join_all` returns whichever error it observes first, which the model does not capture.
- The interactive picker (`src/io/fuzzy.rs:14-31`): only its input text and the parse of its selection are modelled. The selection is a given sequence, so the panic of `selected_items.unwrap()` (`src/io/fuzzy.rs:34`) when the picker returns no output is not modelled.
- `TableReference::to_str` and `TableReference::from_str` are not part of this model. They are parameters of `Fuzzy.TablesToString` and `Fuzzy.CollectTables`.
- Argument parsing (`src/io/cli.rs`, the `Args` struct of `src/ref.rs`) and `src/main.rs`: these only plumb arguments. `main.rs` imports a `write_table` that no shown file defines.
- `examples/bq_test.rs`: it calls `get_table_columns`, which no file of the repository defines, and imports `list_project_datasets`, which `src/bigquery/client.rs:43` defines as private.
- Logging, creating or truncating the output file, and the error captions: log output is not observable in the model, and error messages are plain strings.
- The error messages of serde and reqwest: any failure is an `Err` with a message of the model's own.
- Serde behaviour beyond the members modelled: number formats, escapes, and members of unrelated types.
- Decoding a struct from a JSON array: serde_json also accepts the fields in order as an array (`["p","d"]` is a `DatasetReference`). The decoders here accept objects only, which is the form the API returns.
- `Writer.Sink.Writeln`: a failed write adds nothing to the file. On an unbuffered `File`, `writeln!` writes piece by piece, so a failed write may leave part of the line behind; the model does not capture such partial lines.
- `Prototype.SortedUnique`: the in-place `sort` and `dedup` are modelled as a value computation on sequences, not in place; `Prototype.StrictlySortedUnique` shows that any correct sort then dedup gives the same list.
- `Prototype.FetchSchemas`: the element is changed through a copy that is stored back at its index, rather than through a `&mut` borrow; the resulting array is the same.
- `Client.ListProjectTables` has no contract of its own: its behaviour is stated by `Client.ListProjectTablesDatasetsFail`, `Client.ListProjectTablesOneFails`, `Client.ListProjectTablesAllOk` and `Client.ListProjectTablesSuccess`.
- `Prototype.Run` lists the datasets of every derived project even when tables were requested, as the code does, and the listing is then unused.
