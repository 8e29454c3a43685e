/** The single-file prototype src/ref.rs: derive the projects to scan, list their
    datasets and tables (or parse the requested tables), fetch each table's schema
    into the table list in place, and write every table's section to the output.

    Unlike the client of src/bigquery/client.rs, every remote step here tolerates
    failure: a failed call is logged and contributes nothing. The transport is the
    `Send` oracle of the client, wrapped in a `Network` object that records the URL
    of every GET it performs. The answer to a GET depends on the URL and on how many
    GETs came before it, so a repeated URL may be answered differently each time. */
module Prototype {
  import opened Results
  import opened Strings
  import opened Json
  import opened Types
  import opened Client
  import opened Writer

  // ---------------------------------------------------------------- the network

  /** The outcome of each GET of a run, given its number (from 0) and its URL. */
  type Answers = (nat, string) -> Result<Response>

  /** The HTTP client: the n-th GET is answered by `answers` and appended to `requests`. */
  class Network {
    const answers: Answers
    var requests: seq<string>

    constructor (answers: Answers)
      ensures this.answers == answers && requests == []
    {
      this.answers := answers;
      requests := [];
    }

    method Get(url: string) returns (r: Result<Response>)
      modifies this
      ensures r == answers(|old(requests)|, url)
      ensures requests == old(requests) + [url]
    {
      r := answers(|requests|, url);
      requests := requests + [url];
    }
  }

  /** `StatusCode::is_success`: a 2xx status. */
  predicate IsSuccess(status: nat) {
    200 <= status < 300
  }

  const NonSuccess: string := "non-success status"

  /** The n-th GET as the prototype handles it: a transport error, a non-2xx status and
      a body that does not decode are all failures. */
  function Fetch<T>(answers: Answers, n: nat, url: string, decode: Json -> Result<T>): (r: Result<T>)
    ensures r.Ok? <==> answers(n, url).Ok? && IsSuccess(answers(n, url).value.status) &&
                       decode(answers(n, url).value.body).Ok?
    ensures r.Ok? ==> r == decode(answers(n, url).value.body)
  {
    var response :- answers(n, url);
    if IsSuccess(response.status) then decode(response.body) else Err(NonSuccess)
  }

  /** A 2xx answer is the only difference from the client's handling of a GET. */
  lemma FetchRequiresSuccess<T>(answers: Answers, n: nat, url: string, decode: Json -> Result<T>)
    requires answers(n, url).Ok? && IsSuccess(answers(n, url).value.status)
    ensures Fetch(answers, n, url, decode) == Get((u: string) => answers(n, u), url, decode)
  {
  }

  // ---------------------------------------------------------------- project derivation

  /** `t.split(".").next().unwrap_or("")`: the text before the first dot, or all of it. */
  function FirstSegment(s: string): (r: string)
    ensures |r| <= |s| && r == s[..|r|] && '.' !in r
    ensures |r| < |s| ==> s[|r|] == '.'
    ensures '.' !in s ==> r == s
  {
    var parts := Split(s, '.');
    JoinSplit(s, '.');
    if |parts| == 1 then
      parts[0]
    else
      JoinCons(parts[0], parts[1..], '.');
      assert parts == [parts[0]] + parts[1..];
      assert s == parts[0] + ['.'] + Join(parts[1..], '.');
      assert s[|parts[0]|] == '.';
      parts[0]
  }

  /** The projects named by the requested tables, one per table and in order. */
  function Prefixes(desiredTables: seq<string>): (r: seq<string>)
    ensures |r| == |desiredTables| &&
            forall i :: 0 <= i < |r| ==> r[i] == FirstSegment(desiredTables[i])
  {
    seq(|desiredTables|, i requires 0 <= i < |desiredTables| => FirstSegment(desiredTables[i]))
  }

  /** Insertion into a strictly ascending list, dropping a duplicate. */
  function Insert(s: seq<string>, x: string): (r: seq<string>)
    requires StrictlySorted(s)
    ensures StrictlySorted(r)
    ensures forall y :: y in r <==> y in s || y == x
  {
    if s == [] then [x]
    else if s[0] == x then s
    else if LexLess(x, s[0]) then
      forall j | 0 <= j < |s| ensures LexLess(x, s[j]) {
        if j > 0 {
          LexLessTransitive(x, s[0], s[j]);
        }
      }
      [x] + s
    else
      LexLessTotal(x, s[0]);
      var rest := Insert(s[1..], x);
      assert forall y :: y in rest ==> y in s[1..] || y == x;
      assert forall y :: y in s[1..] ==> LexLess(s[0], y);
      assert forall y :: y in s <==> y == s[0] || y in s[1..];
      [s[0]] + rest
  }

  /** `sort()` followed by `dedup()`: the distinct values, strictly ascending. */
  function SortedUnique(xs: seq<string>): (r: seq<string>)
    ensures StrictlySorted(r)
    ensures forall y :: y in r <==> y in xs
  {
    if xs == [] then []
    else
      var init := xs[..|xs| - 1];
      assert xs == init + [xs[|xs| - 1]];
      Insert(SortedUnique(init), xs[|xs| - 1])
  }

  /** A strictly ascending list is determined by its elements, so any sort followed by
      a dedup of the same values yields this very list. */
  lemma {:induction false} StrictlySortedUnique(a: seq<string>, b: seq<string>)
    requires StrictlySorted(a) && StrictlySorted(b)
    requires forall y :: y in a <==> y in b
    ensures a == b
    decreases |a|
  {
    if a != [] {
      assert a[0] in b;
    }
    if b != [] {
      assert b[0] in a;
    }
    if a != [] && b != [] {
      if a[0] != b[0] {
        assert a[0] in b;
        assert b[0] in a;
        var i :| 0 <= i < |a| && a[i] == b[0];
        var j :| 0 <= j < |b| && b[j] == a[0];
        LexLessTransitive(a[0], b[0], a[0]);
        LexLessIrreflexive(a[0]);
      }
      LexLessIrreflexive(a[0]);
      assert forall y :: y in a[1..] ==> LexLess(a[0], y);
      assert forall y :: y in b[1..] ==> LexLess(b[0], y);
      assert forall y :: y in a <==> y == a[0] || y in a[1..];
      assert forall y :: y in b <==> y == b[0] || y in b[1..];
      StrictlySortedUnique(a[1..], b[1..]);
      assert a == [a[0]] + a[1..] && b == [b[0]] + b[1..];
    }
  }

  const NoRequests: string :=
    "No desired projects or tables provided. You must provide a list of projects or tables."

  /** The project list the run scans: the distinct first segments of the requested
      tables when there are any, else the requested projects as given. */
  function Projects(desiredTables: seq<string>, desiredProjects: seq<string>): Result<seq<string>> {
    if desiredTables != [] then Ok(SortedUnique(Prefixes(desiredTables)))
    else if desiredProjects != [] then Ok(desiredProjects)
    else Err(NoRequests)
  }

  /** src/ref.rs:104-127: the requested tables override the requested projects; with
      neither the run stops with an error. */
  method DeriveProjects(desiredTables: seq<string>, desiredProjects: seq<string>)
    returns (r: Result<seq<string>>)
    ensures r == Projects(desiredTables, desiredProjects)
    ensures desiredTables != [] ==>
              r.Ok? && StrictlySorted(r.value) &&
              forall p :: p in r.value <==> exists i :: 0 <= i < |desiredTables| && p == FirstSegment(desiredTables[i])
    ensures desiredTables == [] && desiredProjects != [] ==> r == Ok(desiredProjects)
    ensures desiredTables == [] && desiredProjects == [] ==> r == Err(NoRequests)
  {
    var projects := desiredProjects;
    if desiredTables != [] {
      projects := Prefixes(desiredTables);
      projects := SortedUnique(projects);
      assert forall p :: p in Prefixes(desiredTables) <==>
                         exists i :: 0 <= i < |desiredTables| && p == FirstSegment(desiredTables[i]);
      r := Ok(projects);
    } else if projects != [] {
      r := Ok(projects);
    } else {
      r := Err(NoRequests);
    }
  }

  // ---------------------------------------------------------------- listing loops

  /** What the listings contribute to the run: the entries of each successful one, in
      order. */
  function Contributions<T(!new)>(outcomes: seq<Result<seq<T>>>): seq<T> {
    Flatten(Successes(outcomes))
  }

  /** An entry is gathered exactly when a successful listing holds it. */
  lemma ContributionsMembers<T(!new)>(outcomes: seq<Result<seq<T>>>)
    ensures forall x :: x in Contributions(outcomes) <==>
              exists i :: 0 <= i < |outcomes| && outcomes[i].Ok? && x in outcomes[i].value
  {
    var kept := Successes(outcomes);
    forall x, k | 0 <= k < |kept| && x in kept[k]
      ensures exists i :: 0 <= i < |outcomes| && outcomes[i].Ok? && x in outcomes[i].value
    {
      assert Ok(kept[k]) in outcomes;
    }
    forall x, i | 0 <= i < |outcomes| && outcomes[i].Ok? && x in outcomes[i].value
      ensures exists k :: 0 <= k < |kept| && x in kept[k]
    {
      assert outcomes[i].value in kept;
    }
  }

  /** A failed listing contributes nothing; the listings around it still contribute in
      their order. */
  lemma FailureContributesNothing<T(!new)>(outcomes: seq<Result<seq<T>>>, j: nat)
    requires j < |outcomes| && outcomes[j].Err?
    ensures Contributions(outcomes) == Contributions(outcomes[..j]) + Contributions(outcomes[j + 1..])
  {
    assert outcomes == outcomes[..j] + [outcomes[j]] + outcomes[j + 1..];
    SuccessesAppend(outcomes[..j] + [outcomes[j]], outcomes[j + 1..]);
    SuccessesAppend(outcomes[..j], [outcomes[j]]);
    assert Successes([outcomes[j]]) == [];
    assert Successes(outcomes) == Successes(outcomes[..j]) + Successes(outcomes[j + 1..]);
    FlattenAppend(Successes(outcomes[..j]), Successes(outcomes[j + 1..]));
  }

  /** When every listing succeeds, the tolerant loop gathers what the all-or-nothing
      gather of the client does. */
  lemma {:induction false} ContributionsWhenAllOk<T(!new)>(outcomes: seq<Result<seq<T>>>)
    requires forall i :: 0 <= i < |outcomes| ==> outcomes[i].Ok?
    ensures Collect(outcomes).Ok? && Contributions(outcomes) == Flatten(Collect(outcomes).value)
  {
    CollectIsSuccessesWhenAllOk(outcomes);
  }

  /** The listings of the given URLs, in order, GETs numbered from `start`. */
  function Listings<T>(answers: Answers, start: nat, urls: seq<string>, decode: Json -> Result<seq<T>>)
    : (r: seq<Result<seq<T>>>)
    ensures |r| == |urls| && forall i :: 0 <= i < |urls| ==> r[i] == Fetch(answers, start + i, urls[i], decode)
  {
    seq(|urls|, i requires 0 <= i < |urls| => Fetch(answers, start + i, urls[i], decode))
  }

  /** The loops of lines 164-192 and 198-227: GET each URL in turn and extend the
      result with what a successful, decoded answer lists; anything else is logged and
      skipped. */
  method ListAll<T(!new)>(net: Network, urls: seq<string>, decode: Json -> Result<seq<T>>)
    returns (all: seq<T>)
    modifies net
    ensures all == Contributions(Listings(net.answers, |old(net.requests)|, urls, decode))
    ensures net.requests == old(net.requests) + urls
  {
    ghost var start := |net.requests|;
    all := [];
    var i := 0;
    while i < |urls|
      invariant 0 <= i <= |urls|
      invariant all == Contributions(Listings(net.answers, start, urls[..i], decode))
      invariant net.requests == old(net.requests) + urls[..i]
      invariant |net.requests| == start + i
    {
      var url := urls[i];
      ghost var added := Contributed(Fetch(net.answers, start + i, url, decode));
      ghost var before := all;
      assert Contributions(Listings(net.answers, start, urls[..i + 1], decode)) == before + added by {
        ListingsGrow(net.answers, start, urls, i, decode);
      }
      assert old(net.requests) + urls[..i + 1] == net.requests + [url] by {
        assert urls[..i + 1] == urls[..i] + [url];
      }
      var response := net.Get(url);
      if response.Ok? && IsSuccess(response.value.status) {
        match decode(response.value.body) {
          case Ok(list) =>
            all := all + list;
          case Err(_) =>
        }
      }
      assert all == before + added;
      i := i + 1;
    }
    assert urls[..i] == urls;
  }

  /** What one outcome adds to the gathered entries. */
  function Contributed<T>(outcome: Result<seq<T>>): seq<T> {
    match outcome
    case Ok(list) => list
    case Err(_) => []
  }

  lemma ContributionsSnoc<T(!new)>(outcomes: seq<Result<seq<T>>>, outcome: Result<seq<T>>)
    ensures Contributions(outcomes + [outcome]) == Contributions(outcomes) + Contributed(outcome)
  {
    SuccessesAppend(outcomes, [outcome]);
    var kept, more := Successes(outcomes), Successes([outcome]);
    FlattenAppend(kept, more);
    assert more == if outcome.Ok? then [outcome.value] else [];
    assert Flatten(more) == Contributed(outcome) by {
      if outcome.Ok? {
        assert Flatten(more) == outcome.value + Flatten([]);
      }
    }
  }

  lemma ListingsGrow<T(!new)>(answers: Answers, start: nat, urls: seq<string>, i: nat,
                              decode: Json -> Result<seq<T>>)
    requires i < |urls|
    ensures Contributions(Listings(answers, start, urls[..i + 1], decode)) ==
            Contributions(Listings(answers, start, urls[..i], decode)) +
            Contributed(Fetch(answers, start + i, urls[i], decode))
  {
    var before, outcome := Listings(answers, start, urls[..i], decode), Fetch(answers, start + i, urls[i], decode);
    assert Listings(answers, start, urls[..i + 1], decode) == before + [outcome];
    ContributionsSnoc(before, outcome);
  }

  /** The `datasets` of a dataset listing. */
  function DatasetsIn(body: Json): (r: Result<seq<Dataset>>)
    ensures r.Ok? <==> DecodeDatasetList(body).Ok?
    ensures r.Ok? ==> r.value == DecodeDatasetList(body).value.datasets
  {
    var list :- DecodeDatasetList(body);
    Ok(list.datasets)
  }

  /** The `tables` of a table listing. */
  function TablesIn(body: Json): (r: Result<seq<Table>>)
    ensures r.Ok? <==> DecodeTableList(body).Ok?
    ensures r.Ok? ==> r.value == DecodeTableList(body).value.tables
    ensures r.Ok? ==> forall i :: 0 <= i < |r.value| ==> r.value[i].schema == None
  {
    var list :- DecodeTableList(body);
    Ok(list.tables)
  }

  /** A dataset listing body yields its datasets, in order. */
  lemma DatasetsInListing(l: DatasetList)
    ensures DatasetsIn(EncodeDatasetList(l)) == Ok(l.datasets)
  {
    DatasetListRoundTrip(l);
  }

  /** A table listing body yields its tables' references, in order, without schemas. */
  lemma TablesInListing(l: TableList)
    ensures TablesIn(EncodeTableList(l)) ==
            Ok(seq(|l.tables|, i requires 0 <= i < |l.tables| => Table(l.tables[i].tableReference, None)))
  {
    TableListRoundTrip(l);
  }

  function ProjectUrls(projects: seq<string>): (r: seq<string>)
    ensures |r| == |projects| && forall i :: 0 <= i < |r| ==> r[i] == DatasetsUrl(projects[i])
  {
    seq(|projects|, i requires 0 <= i < |projects| => DatasetsUrl(projects[i]))
  }

  function DatasetUrls(datasets: seq<Dataset>): (r: seq<string>)
    ensures |r| == |datasets| && forall i :: 0 <= i < |r| ==> r[i] == TablesUrl(datasets[i].datasetReference)
  {
    seq(|datasets|, i requires 0 <= i < |datasets| => TablesUrl(datasets[i].datasetReference))
  }

  /** Every dataset of every project whose listing succeeded, in project order, the
      listings being GETs numbered from `start`. */
  function DatasetsOf(answers: Answers, start: nat, projects: seq<string>): seq<Dataset> {
    Contributions(Listings(answers, start, ProjectUrls(projects), DatasetsIn))
  }

  /** Every table of every dataset whose listing succeeded, in dataset order. */
  function TablesOf(answers: Answers, start: nat, datasets: seq<Dataset>): seq<Table> {
    Contributions(Listings(answers, start, DatasetUrls(datasets), TablesIn))
  }

  /** The dataset loop of src/ref.rs:162-192: one listing GET per project, in order,
      keeping the datasets of every successful listing. */
  method ListAllDatasets(net: Network, projects: seq<string>) returns (datasets: seq<Dataset>)
    modifies net
    ensures datasets == DatasetsOf(net.answers, |old(net.requests)|, projects)
    ensures net.requests == old(net.requests) + ProjectUrls(projects)
  {
    datasets := ListAll(net, ProjectUrls(projects), DatasetsIn);
  }

  /** The table loop of src/ref.rs:195-227: one listing GET per dataset, in order,
      keeping the tables of every successful listing. */
  method ListAllTables(net: Network, datasets: seq<Dataset>) returns (tables: seq<Table>)
    modifies net
    ensures tables == TablesOf(net.answers, |old(net.requests)|, datasets)
    ensures net.requests == old(net.requests) + DatasetUrls(datasets)
  {
    tables := ListAll(net, DatasetUrls(datasets), TablesIn);
  }

  /** Listed tables come without a schema. */
  lemma ListedTablesHaveNoSchema(answers: Answers, start: nat, datasets: seq<Dataset>)
    ensures var tables := TablesOf(answers, start, datasets);
            forall i :: 0 <= i < |tables| ==> tables[i].schema == None
  {
    var outcomes := Listings(answers, start, DatasetUrls(datasets), TablesIn);
    ContributionsMembers(outcomes);
    NoSchemaAtEachIndex(Contributions(outcomes));
  }

  lemma NoSchemaAtEachIndex(tables: seq<Table>)
    requires forall t :: t in tables ==> t.schema == None
    ensures forall i :: 0 <= i < |tables| ==> tables[i].schema == None
  {
  }

  // ---------------------------------------------------------------- requested tables

  const InvalidTable: string := "Expected format: project.dataset.table."

  /** src/ref.rs:230-254: a table string is accepted when splitting it on `.` gives exactly
      three parts, which become the project, dataset and table ids. */
  function ParseTableString(s: string): (r: Result<TableReference>)
    ensures r.Ok? <==> Occurrences(s, '.') == 2
    ensures r.Ok? ==> '.' !in r.value.projectId && '.' !in r.value.datasetId && '.' !in r.value.tableId
  {
    var parts := Split(s, '.');
    SplitCount(s, '.');
    if |parts| == 3 then Ok(TableReference(parts[0], parts[1], parts[2])) else Err(InvalidTable)
  }

  /** `p.d.t`, the name of a table as the section header shows it. */
  function TableName(t: TableReference): string {
    t.projectId + "." + t.datasetId + "." + t.tableId
  }

  /** An accepted table string is the name of the table it denotes. */
  lemma ParsedNameIsInput(s: string)
    requires ParseTableString(s).Ok?
    ensures TableName(ParseTableString(s).value) == s
  {
    var parts := Split(s, '.');
    SplitCount(s, '.');
    assert |parts| == 3;
    var t := ParseTableString(s).value;
    assert t == TableReference(parts[0], parts[1], parts[2]);
    assert Join(parts, '.') == TableName(t) by { ThreeJoined(parts); }
    JoinSplit(s, '.');
  }

  /** Three pieces joined by dots. */
  lemma ThreeJoined(parts: seq<string>)
    requires |parts| == 3
    ensures Join(parts, '.') == parts[0] + "." + parts[1] + "." + parts[2]
  {
    var x, y, z := parts[0], parts[1], parts[2];
    assert parts[1..][1..] == [z];
    assert Join(parts[1..], '.') == y + "." + z;
    assert x + "." + (y + "." + z) == x + "." + y + "." + z;
  }

  /** Names whose ids have no dot parse back to their table, empty ids included. */
  lemma {:induction false} NameParses(t: TableReference)
    requires '.' !in t.projectId && '.' !in t.datasetId && '.' !in t.tableId
    ensures ParseTableString(TableName(t)) == Ok(t)
  {
    var parts := [t.projectId, t.datasetId, t.tableId];
    assert Join(parts[1..], '.') == t.datasetId + "." + t.tableId;
    assert TableName(t) == Join(parts, '.');
    SplitJoin(parts, '.');
  }

  /** Empty segments are not rejected. */
  lemma EmptySegmentAccepted()
    ensures ParseTableString("a..b") == Ok(TableReference("a", "", "b"))
  {
    NameParses(TableReference("a", "", "b"));
    assert TableName(TableReference("a", "", "b")) == "a..b";
  }

  /** A string of two dot-free parts is rejected ... */
  lemma TwoPartsRejected(project: string, table: string)
    requires '.' !in project && '.' !in table
    ensures ParseTableString(project + "." + table).Err?
  {
    NoDots(project);
    NoDots(table);
    DotCount(project, table);
  }

  /** ... and so is a string of four. */
  lemma FourPartsRejected(a: string, b: string, c: string, d: string)
    requires '.' !in a && '.' !in b && '.' !in c && '.' !in d
    ensures ParseTableString(a + "." + b + "." + c + "." + d).Err?
  {
    NoDots(a);
    NoDots(b);
    NoDots(c);
    NoDots(d);
    DotCount(a, b);
    DotCount(c, d);
    DotCount(a + "." + b, c + "." + d);
    assert a + "." + b + "." + c + "." + d == (a + "." + b) + "." + (c + "." + d);
  }

  lemma NoDots(s: string)
    requires '.' !in s
    ensures Occurrences(s, '.') == 0
  {
  }

  /** Joining two strings with a dot adds one dot. */
  lemma DotCount(a: string, b: string)
    ensures Occurrences(a + "." + b, '.') == Occurrences(a, '.') + 1 + Occurrences(b, '.')
  {
    assert multiset(a + "." + b) == multiset(a) + multiset(".") + multiset(b);
  }

  function TableStringParses(desired: seq<string>): (r: seq<Result<TableReference>>)
    ensures |r| == |desired| && forall i :: 0 <= i < |r| ==> r[i] == ParseTableString(desired[i])
  {
    seq(|desired|, i requires 0 <= i < |desired| => ParseTableString(desired[i]))
  }

  /** Tables not yet fetched: the given references, without a schema. */
  function Unfetched(refs: seq<TableReference>): (r: seq<Table>)
    ensures |r| == |refs| && forall i :: 0 <= i < |r| ==> r[i] == Table(refs[i], None)
  {
    seq(|refs|, i requires 0 <= i < |refs| => Table(refs[i], None))
  }

  /** src/ref.rs:229-255: accepted table strings are pushed in input order with no schema,
      rejected ones are skipped. */
  method ParseDesiredTables(desired: seq<string>) returns (tables: seq<Table>)
    ensures tables == Unfetched(Successes(TableStringParses(desired)))
    ensures |tables| + |Failures(TableStringParses(desired))| == |desired|
    ensures forall t :: t in tables ==>
              t.schema == None &&
              exists i :: 0 <= i < |desired| && ParseTableString(desired[i]) == Ok(t.tableReference)
  {
    tables := [];
    var i := 0;
    while i < |desired|
      invariant 0 <= i <= |desired|
      invariant tables == Unfetched(Successes(TableStringParses(desired[..i])))
    {
      var parsed := ParseTableString(desired[i]);
      AcceptedGrow(desired, i);
      if parsed.Ok? {
        tables := tables + [Table(parsed.value, None)];
      }
      i := i + 1;
    }
    assert desired[..i] == desired;
    SuccessesAndFailures(TableStringParses(desired));
    AcceptedComeFromInput(desired);
  }

  lemma AcceptedGrow(desired: seq<string>, i: nat)
    requires i < |desired|
    ensures var parsed := ParseTableString(desired[i]);
            Unfetched(Successes(TableStringParses(desired[..i + 1]))) ==
            Unfetched(Successes(TableStringParses(desired[..i]))) +
            (if parsed.Ok? then [Table(parsed.value, None)] else [])
  {
    var before, parsed := TableStringParses(desired[..i]), ParseTableString(desired[i]);
    assert TableStringParses(desired[..i + 1]) == before + [parsed];
    SuccessesAppend(before, [parsed]);
    var kept := Successes(before);
    assert Successes([parsed]) == if parsed.Ok? then [parsed.value] else [];
    UnfetchedAppend(kept, Successes([parsed]));
  }

  lemma UnfetchedAppend(a: seq<TableReference>, b: seq<TableReference>)
    ensures Unfetched(a + b) == Unfetched(a) + Unfetched(b)
  {
    assert forall i :: 0 <= i < |a| ==> (a + b)[i] == a[i];
    assert forall i :: 0 <= i < |b| ==> (a + b)[|a| + i] == b[i];
  }

  lemma AcceptedComeFromInput(desired: seq<string>)
    ensures forall t :: t in Unfetched(Successes(TableStringParses(desired))) ==>
              t.schema == None &&
              exists i :: 0 <= i < |desired| && ParseTableString(desired[i]) == Ok(t.tableReference)
  {
    var parses := TableStringParses(desired);
    var tables := Unfetched(Successes(parses));
    forall t | t in tables
      ensures t.schema == None &&
              exists i :: 0 <= i < |desired| && ParseTableString(desired[i]) == Ok(t.tableReference)
    {
      var k :| 0 <= k < |tables| && tables[k] == t;
      assert Successes(parses)[k] in Successes(parses);
      assert Ok(t.tableReference) in parses;
    }
  }

  // ---------------------------------------------------------------- schema fetches

  /** A table after its schema fetch as the n-th GET (lines 261-299): the fetched
      columns when the GET succeeded with a 2xx status and the body decoded as a
      `TableGet`, otherwise the table as it was. */
  function WithSchema(answers: Answers, n: nat, t: Table): Table {
    match Fetch(answers, n, TableUrl(t.tableReference), DecodeTableGet)
    case Ok(g) => t.(schema := Some(g.schema.fields))
    case Err(_) => t
  }

  /** The tables after their fetches, GETs numbered from `start` in table order. */
  function WithSchemas(answers: Answers, start: nat, tables: seq<Table>): (r: seq<Table>)
    ensures |r| == |tables| && forall i :: 0 <= i < |r| ==> r[i] == WithSchema(answers, start + i, tables[i])
  {
    seq(|tables|, i requires 0 <= i < |tables| => WithSchema(answers, start + i, tables[i]))
  }

  function TableUrls(tables: seq<Table>): (r: seq<string>)
    ensures |r| == |tables| && forall i :: 0 <= i < |r| ==> r[i] == TableUrl(tables[i].tableReference)
  {
    seq(|tables|, i requires 0 <= i < |tables| => TableUrl(tables[i].tableReference))
  }

  /** The loop over `&mut all_tables`: every table is fetched in turn and its schema
      set in place; no table is added, dropped or moved. */
  method FetchSchemas(net: Network, tables: array<Table>)
    modifies net, tables
    ensures tables[..] == WithSchemas(net.answers, |old(net.requests)|, old(tables[..]))
    ensures net.requests == old(net.requests) + TableUrls(old(tables[..]))
  {
    ghost var before := tables[..];
    ghost var after := WithSchemas(net.answers, |net.requests|, before);
    var i := 0;
    while i < tables.Length
      invariant 0 <= i <= tables.Length
      invariant tables[..i] == after[..i]
      invariant tables[i..] == before[i..]
      invariant net.requests == old(net.requests) + TableUrls(before)[..i]
    {
      assert tables[i] == before[i];
      assert |net.requests| == |old(net.requests)| + i;
      var table := FetchSchema(net, tables[i]);
      assert table == after[i];
      tables[i] := table;
      assert tables[..i + 1] == after[..i + 1];
      UrlsGrow(before, i);
      i := i + 1;
    }
    assert TableUrls(before)[..i] == TableUrls(before);
  }

  /** The body of that loop for one table: the schema is set only when the GET
      succeeded with a 2xx status and the body decoded; the table is otherwise left as
      it was. */
  method FetchSchema(net: Network, table: Table) returns (updated: Table)
    modifies net
    ensures updated == WithSchema(net.answers, |old(net.requests)|, table)
    ensures net.requests == old(net.requests) + [TableUrl(table.tableReference)]
  {
    updated := table;
    var response := net.Get(TableUrl(table.tableReference));
    if response.Ok? && IsSuccess(response.value.status) {
      match DecodeTableGet(response.value.body) {
        case Ok(tableGet) =>
          updated := table.(schema := Some(tableGet.schema.fields));
        case Err(_) =>
      }
    }
  }

  lemma UrlsGrow(tables: seq<Table>, i: nat)
    requires i < |tables|
    ensures TableUrls(tables)[..i + 1] == TableUrls(tables)[..i] + [TableUrl(tables[i].tableReference)]
  {
    var urls := TableUrls(tables);
    assert urls[..i + 1] == urls[..i] + [urls[i]];
  }

  /** The fetch loop keeps every table, in place: where `get_tables` of the client drops
      a failed fetch, a failed fetch here leaves the table without a schema. */
  lemma FailedFetchKeepsTable(answers: Answers, start: nat, tables: seq<Table>, i: nat)
    requires i < |tables| && tables[i].schema == None
    requires Fetch(answers, start + i, TableUrl(tables[i].tableReference), DecodeTableGet).Err?
    ensures |WithSchemas(answers, start, tables)| == |tables|
    ensures WithSchemas(answers, start, tables)[i] == Table(tables[i].tableReference, None)
  {
  }

  /** A table ends up with a schema only through a successful, decoded fetch. */
  lemma SchemaOnlyFromFetch(answers: Answers, n: nat, t: Table)
    requires t.schema == None && WithSchema(answers, n, t).schema.Some?
    ensures answers(n, TableUrl(t.tableReference)).Ok?
    ensures IsSuccess(answers(n, TableUrl(t.tableReference)).value.status)
    ensures DecodeTableGet(answers(n, TableUrl(t.tableReference)).value.body).Ok?
    ensures WithSchema(answers, n, t).schema ==
            Some(DecodeTableGet(answers(n, TableUrl(t.tableReference)).value.body).value.schema.fields)
  {
  }

  // ---------------------------------------------------------------- the output file

  /** The header line of a table's section; `writeln!` adds the final newline. */
  function Header(t: TableReference): string {
    "\n=== Table: " + TableName(t) + " ==="
  }

  const NoSchemaLine: string := "No schema available"

  /** The lines after the header: the columns' renderings at indentation 0, or the
      placeholder when the table has no schema. */
  function Body(t: Table): seq<string> {
    match t.schema
    case None => [NoSchemaLine]
    case Some(cs) => ForestLines(cs, 0)
  }

  function Section(t: Table): seq<string> {
    [Header(t.tableReference)] + Body(t)
  }

  function AllSections(tables: seq<Table>): seq<string> {
    if tables == [] then [] else Section(tables[0]) + AllSections(tables[1..])
  }

  lemma {:induction false} AllSectionsAppend(a: seq<Table>, b: seq<Table>)
    ensures AllSections(a + b) == AllSections(a) + AllSections(b)
  {
    if a == [] {
      assert a + b == b;
    } else {
      assert (a + b)[1..] == a[1..] + b;
      AllSectionsAppend(a[1..], b);
    }
  }

  /** A table without a schema gets its header and one placeholder line; a table with
      an empty schema gets its header alone; the two are told apart. */
  lemma SectionShapes(r: TableReference)
    ensures Section(Table(r, None)) == [Header(r), NoSchemaLine]
    ensures Section(Table(r, Some([]))) == [Header(r)]
    ensures Section(Table(r, None)) != Section(Table(r, Some([])))
  {
  }

  /** A table with a schema gets its header and then one line per column node, in
      preorder; the placeholder never appears among them. */
  lemma SectionOfSchema(r: TableReference, cs: seq<Column>)
    ensures |Section(Table(r, Some(cs)))| == 1 + ForestSize(cs)
    ensures NoSchemaLine !in Body(Table(r, Some(cs)))
  {
    ForestLineCount(cs, 0);
    ForestFollowsPreorder(cs, 0, 0);
    forall k | 0 <= k < |ForestLines(cs, 0)|
      ensures ForestLines(cs, 0)[k] != NoSchemaLine
    {
      var p := ForestPreorder(cs, 0)[k];
      LineIndentation(p.column, 2 * p.depth);
      PlaceholderIsNoLine(p.column, 2 * p.depth);
    }
  }

  /** No column line reads like the placeholder. */
  lemma PlaceholderIsNoLine(c: Column, indent: nat)
    ensures Line(c, indent) != NoSchemaLine
  {
    LineIndentation(c, indent);
    assert Indentation(NoSchemaLine) == 0;
    if indent == 0 {
      assert Line(c, indent)[0] == '|';
    }
  }

  /** One more section written after the sections before it: on success the prefix
      grows by that section ... */
  lemma SectionWritten(failing: set<nat>, w0: seq<string>, a0: nat, tables: seq<Table>, i: nat,
                       w1: seq<string>, a1: nat, w2: seq<string>, a2: nat)
    requires i < |tables|
    requires Emitted(failing, w0, a0, AllSections(tables[..i]), w1, a1, true)
    requires Emitted(failing, w1, a1, Section(tables[i]), w2, a2, true)
    ensures Emitted(failing, w0, a0, AllSections(tables[..i + 1]), w2, a2, true)
  {
    SectionsGrow(tables, i);
    EmittedThen(failing, w0, a0, AllSections(tables[..i]), w1, a1, Section(tables[i]), w2, a2, true);
  }

  /** A failure within the first `i` sections stops the whole output. */
  lemma SectionsStop(failing: set<nat>, w0: seq<string>, a0: nat, tables: seq<Table>, i: nat,
                     w: seq<string>, a: nat)
    requires i <= |tables|
    requires Emitted(failing, w0, a0, AllSections(tables[..i]), w, a, false)
    ensures Emitted(failing, w0, a0, AllSections(tables), w, a, false)
  {
    SectionsSplit(tables, i);
    EmittedStops(failing, w0, a0, AllSections(tables[..i]), w, a, AllSections(tables[i..]));
  }

  lemma SectionsGrow(tables: seq<Table>, i: nat)
    requires i < |tables|
    ensures AllSections(tables[..i + 1]) == AllSections(tables[..i]) + Section(tables[i])
  {
    assert tables[..i + 1] == tables[..i] + [tables[i]];
    SectionOfOne(tables[i]);
    AllSectionsAppend(tables[..i], [tables[i]]);
  }

  lemma SectionsSplit(tables: seq<Table>, i: nat)
    requires i <= |tables|
    ensures AllSections(tables) == AllSections(tables[..i]) + AllSections(tables[i..])
  {
    var a, b := tables[..i], tables[i..];
    PrefixThenRest(tables, i);
    AllSectionsAppend(a, b);
  }

  lemma SectionOfOne(t: Table)
    ensures AllSections([t]) == Section(t)
  {
    assert [t][1..] == [];
  }

  /** src/ref.rs:330-344 for one table: the header, then each column with `write_column` at
      indentation 0 or the placeholder, returning the first write error. */
  method WriteSection(sink: Sink, t: Table) returns (r: Result<()>)
    modifies sink
    ensures Emitted(sink.failing, old(sink.written), old(sink.attempts), Section(t),
                    sink.written, sink.attempts, r.Ok?)
  {
    ghost var w0, a0 := sink.written, sink.attempts;
    var header := Header(t.tableReference);
    r := sink.Writeln(header);
    if r.Err? {
      EmittedStops(sink.failing, w0, a0, [header], sink.written, sink.attempts, Body(t));
      return;
    }
    match t.schema {
      case None =>
        ghost var w1, a1 := sink.written, sink.attempts;
        r := sink.Writeln(NoSchemaLine);
        EmittedThen(sink.failing, w0, a0, [header], w1, a1, [NoSchemaLine], sink.written, sink.attempts, r.Ok?);
      case Some(cs) =>
        r := WriteSchema(sink, w0, a0, header, cs);
    }
  }

  /** The columns of a section after its header, each with `write_column` at
      indentation 0; the first write error ends the section. */
  method WriteSchema(sink: Sink, ghost w0: seq<string>, ghost a0: nat, header: string, cs: seq<Column>)
    returns (r: Result<()>)
    modifies sink
    requires Emitted(sink.failing, w0, a0, [header], sink.written, sink.attempts, true)
    ensures Emitted(sink.failing, w0, a0, [header] + ForestLines(cs, 0), sink.written, sink.attempts, r.Ok?)
  {
    r := Ok(());
    var j := 0;
    assert cs[..0] == [];
    while j < |cs|
      invariant 0 <= j <= |cs|
      invariant Emitted(sink.failing, w0, a0, [header] + ForestLines(cs[..j], 0),
                        sink.written, sink.attempts, true)
    {
      ghost var w1, a1 := sink.written, sink.attempts;
      var rc := WriteColumn(sink, cs[j], 0);
      SiblingWritten(sink.failing, w0, a0, header, cs, j, 0, w1, a1, sink.written, sink.attempts, rc.Ok?);
      if rc.Err? {
        return rc;
      }
      j := j + 1;
    }
    assert cs[..j] == cs;
  }

  /** src/ref.rs:326-355: write every table's section in order, pushing each table onto
      `tables_written` once its section is complete; the first write error ends the
      run with nothing more written. */
  method WriteTables(sink: Sink, tables: seq<Table>) returns (r: Result<seq<Table>>)
    modifies sink
    ensures Emitted(sink.failing, old(sink.written), old(sink.attempts), AllSections(tables),
                    sink.written, sink.attempts, r.Ok?)
    ensures r.Ok? ==> r.value == tables
  {
    ghost var w0, a0 := sink.written, sink.attempts;
    var tablesWritten: seq<Table> := [];
    EmittedNothing(sink.failing, w0, a0);
    assert tables[..0] == [];
    var i := 0;
    while i < |tables|
      invariant 0 <= i <= |tables|
      invariant tablesWritten == tables[..i]
      invariant Emitted(sink.failing, w0, a0, AllSections(tables[..i]), sink.written, sink.attempts, true)
    {
      ghost var w1, a1 := sink.written, sink.attempts;
      var s := WriteSection(sink, tables[i]);
      if s.Err? {
        SectionsGrow(tables, i);
        EmittedThen(sink.failing, w0, a0, AllSections(tables[..i]), w1, a1, Section(tables[i]),
                    sink.written, sink.attempts, false);
        SectionsStop(sink.failing, w0, a0, tables, i + 1, sink.written, sink.attempts);
        return Err(s.error);
      }
      SectionWritten(sink.failing, w0, a0, tables, i, w1, a1, sink.written, sink.attempts);
      tablesWritten := tablesWritten + [tables[i]];
      i := i + 1;
    }
    assert tables[..i] == tables;
    r := Ok(tablesWritten);
  }

  // ---------------------------------------------------------------- the whole run

  /** The table listings of the run (GETs numbered from `start` onwards): one per listed
      dataset when no tables were requested, else none. */
  function ListingUrls(answers: Answers, start: nat, desiredTables: seq<string>, projects: seq<string>)
    : seq<string>
  {
    if desiredTables == [] then DatasetUrls(DatasetsOf(answers, start, projects)) else []
  }

  /** The tables the run goes on to fetch: those listed for the datasets of the
      projects when no tables were requested, else the accepted requested tables. */
  function Listed(answers: Answers, start: nat, desiredTables: seq<string>, projects: seq<string>)
    : seq<Table>
  {
    if desiredTables == [] then TablesOf(answers, start + |projects|, DatasetsOf(answers, start, projects))
    else Unfetched(Successes(TableStringParses(desiredTables)))
  }

  /** The number of the first schema fetch. */
  function FirstFetch(answers: Answers, start: nat, desiredTables: seq<string>, projects: seq<string>): nat {
    start + |projects| + |ListingUrls(answers, start, desiredTables, projects)|
  }

  /** Every GET of the run, in order. The dataset listing of each project is performed
      even when tables were requested, although its result is then unused. */
  function Requests(answers: Answers, start: nat, desiredTables: seq<string>, projects: seq<string>)
    : seq<string>
  {
    ProjectUrls(projects) + ListingUrls(answers, start, desiredTables, projects) +
    TableUrls(Listed(answers, start, desiredTables, projects))
  }

  /** The tables whose sections are written. */
  function Report(answers: Answers, start: nat, desiredTables: seq<string>, projects: seq<string>)
    : seq<Table>
  {
    WithSchemas(answers, FirstFetch(answers, start, desiredTables, projects),
                Listed(answers, start, desiredTables, projects))
  }

  /** src/ref.rs:161-256: list the datasets of every project, then either list their tables
      or take the accepted requested tables. */
  method ListTables(net: Network, desiredTables: seq<string>, projects: seq<string>) returns (tables: seq<Table>)
    modifies net
    ensures tables == Listed(net.answers, |old(net.requests)|, desiredTables, projects)
    ensures net.requests == old(net.requests) + ProjectUrls(projects) +
                            ListingUrls(net.answers, |old(net.requests)|, desiredTables, projects)
  {
    ghost var start := |net.requests|;
    var datasets := ListAllDatasets(net, projects);
    assert |net.requests| == start + |projects|;
    if desiredTables == [] {
      tables := ListAllTables(net, datasets);
    } else {
      tables := ParseDesiredTables(desiredTables);
    }
  }

  /** `main` of src/ref.rs without its authentication and logging. */
  method Run(net: Network, sink: Sink, desiredTables: seq<string>, desiredProjects: seq<string>)
    returns (r: Result<()>)
    modifies net, sink
    ensures desiredTables == [] && desiredProjects == [] ==>
              r == Err(NoRequests) && net.requests == old(net.requests) &&
              sink.written == old(sink.written) && sink.attempts == old(sink.attempts)
    ensures desiredTables != [] || desiredProjects != [] ==>
              var projects := Projects(desiredTables, desiredProjects).value;
              var start := |old(net.requests)|;
              && net.requests == old(net.requests) + Requests(net.answers, start, desiredTables, projects)
              && Emitted(sink.failing, old(sink.written), old(sink.attempts),
                         AllSections(Report(net.answers, start, desiredTables, projects)),
                         sink.written, sink.attempts, r.Ok?)
  {
    ghost var requests0 := net.requests;
    ghost var start := |net.requests|;
    var projects :- DeriveProjects(desiredTables, desiredProjects);
    var tables := ListTables(net, desiredTables, projects);
    ghost var listings := ListingUrls(net.answers, start, desiredTables, projects);
    var allTables := new Table[|tables|](i requires 0 <= i < |tables| => tables[i]);
    assert allTables[..] == tables;
    ghost var requests2 := net.requests;
    assert |requests2| == FirstFetch(net.answers, start, desiredTables, projects);
    FetchSchemas(net, allTables);
    assert net.requests == requests2 + TableUrls(tables);
    assert Requests(net.answers, start, desiredTables, projects) == ProjectUrls(projects) + listings + TableUrls(tables);
    AppendAssociates(requests0, ProjectUrls(projects), listings, TableUrls(tables));
    var report := allTables[..];
    assert report == Report(net.answers, start, desiredTables, projects);
    var tablesWritten :- WriteTables(sink, report);
    r := Ok(());
  }

  lemma AppendAssociates(a: seq<string>, b: seq<string>, c: seq<string>, d: seq<string>)
    ensures a + b + c + d == a + (b + c + d)
  {
  }

  /** Every table that was listed or accepted gets exactly one section, in order; a
      table whose fetch failed is reported without a schema. */
  lemma ReportKeepsListedTables(answers: Answers, start: nat, desiredTables: seq<string>, projects: seq<string>)
    ensures var listed := Listed(answers, start, desiredTables, projects);
            var report := Report(answers, start, desiredTables, projects);
            var first := FirstFetch(answers, start, desiredTables, projects);
            && |report| == |listed|
            && forall i :: 0 <= i < |report| ==>
                 report[i].tableReference == listed[i].tableReference &&
                 (Fetch(answers, first + i, TableUrl(listed[i].tableReference), DecodeTableGet).Err? ==>
                    report[i].schema == None)
  {
    RunListsNoSchema(answers, start, desiredTables, projects);
    FetchesKeepTables(answers, FirstFetch(answers, start, desiredTables, projects),
                      Listed(answers, start, desiredTables, projects));
  }

  /** The tables a run goes on to fetch have no schema yet, listed or requested. */
  lemma RunListsNoSchema(answers: Answers, start: nat, desiredTables: seq<string>, projects: seq<string>)
    ensures var listed := Listed(answers, start, desiredTables, projects);
            forall i :: 0 <= i < |listed| ==> listed[i].schema == None
  {
    if desiredTables == [] {
      ListedTablesHaveNoSchema(answers, start + |projects|, DatasetsOf(answers, start, projects));
    }
  }

  /** Fetching the schemas of tables that have none keeps each table at its index, and a
      failed fetch leaves it without a schema. */
  lemma FetchesKeepTables(answers: Answers, start: nat, tables: seq<Table>)
    requires forall i :: 0 <= i < |tables| ==> tables[i].schema == None
    ensures var fetched := WithSchemas(answers, start, tables);
            && |fetched| == |tables|
            && forall i :: 0 <= i < |fetched| ==>
                 fetched[i].tableReference == tables[i].tableReference &&
                 (Fetch(answers, start + i, TableUrl(tables[i].tableReference), DecodeTableGet).Err? ==>
                    fetched[i].schema == None)
  {
  }

  /** With requested tables, the k-th section is headed by the k-th accepted table
      string, verbatim. */
  lemma RequestedHeaders(answers: Answers, start: nat, desiredTables: seq<string>, projects: seq<string>, k: nat)
    requires desiredTables != []
    requires k < |Report(answers, start, desiredTables, projects)|
    ensures var accepted := Successes(TableStringParses(desiredTables));
            k < |accepted| &&
            exists i :: 0 <= i < |desiredTables| &&
                        ParseTableString(desiredTables[i]) == Ok(accepted[k]) &&
                        Header(Report(answers, start, desiredTables, projects)[k].tableReference) ==
                        "\n=== Table: " + desiredTables[i] + " ==="
  {
    var accepted := Successes(TableStringParses(desiredTables));
    assert accepted[k] in accepted;
    var i :| 0 <= i < |desiredTables| && TableStringParses(desiredTables)[i] == Ok(accepted[k]);
    ParsedNameIsInput(desiredTables[i]);
  }
}
