/** The data side of the interactive table picker in src/io/fuzzy.rs: the candidate
    list handed to the picker, and the loop that parses the picked items back into
    table references. The picker itself is not modelled; the textual form of a
    reference (`to_str`) and its parser (`from_str`) are parameters. */
module Fuzzy {
  import opened Results
  import opened Strings
  import opened Types

  /** The candidate texts, one per table, in input order. */
  function Candidates(tables: seq<TableReference>, toStr: TableReference -> string): (r: seq<string>)
    ensures |r| == |tables| && forall i :: 0 <= i < |tables| ==> r[i] == toStr(tables[i])
  {
    seq(|tables|, i requires 0 <= i < |tables| => toStr(tables[i]))
  }

  /** `tables_to_string`: the candidate texts joined by newlines. */
  function TablesToString(tables: seq<TableReference>, toStr: TableReference -> string): (r: string)
    ensures tables == [] ==> r == ""
    ensures |tables| == 1 ==> r == toStr(tables[0])
    ensures |tables| > 1 ==> r == toStr(tables[0]) + "\n" + TablesToString(tables[1..], toStr)
  {
    var texts := Candidates(tables, toStr);
    if |tables| > 1 then
      assert texts[1..] == Candidates(tables[1..], toStr);
      texts[0] + "\n" + Join(texts[1..], '\n')
    else
      Join(texts, '\n')
  }

  /** The picker reads its input line by line: when no text contains a newline, the
      lines of the candidate list are exactly the candidate texts, one per table and
      in order. */
  lemma CandidateLines(tables: seq<TableReference>, toStr: TableReference -> string)
    requires tables != []
    requires forall i :: 0 <= i < |tables| ==> '\n' !in toStr(tables[i])
    ensures Split(TablesToString(tables, toStr), '\n') == Candidates(tables, toStr)
  {
    var texts := Candidates(tables, toStr);
    assert TablesToString(tables, toStr) == Join(texts, '\n');
    SplitJoin(texts, '\n');
  }

  /** The parse outcome of each picked item, in selection order. */
  function Parses(selected: seq<string>, fromStr: string -> Result<TableReference>): (r: seq<Result<TableReference>>)
    ensures |r| == |selected| && forall i :: 0 <= i < |selected| ==> r[i] == fromStr(selected[i])
  {
    seq(|selected|, i requires 0 <= i < |selected| => fromStr(selected[i]))
  }

  /** The loop of `collect_tables`: every picked item is parsed, successes are pushed in
      selection order, and a failed parse is only reported. */
  method CollectTables(selected: seq<string>, fromStr: string -> Result<TableReference>)
    returns (tables: seq<TableReference>)
    ensures tables == Successes(Parses(selected, fromStr))
    ensures |tables| + |Failures(Parses(selected, fromStr))| == |selected|
    ensures forall t :: t in tables <==> exists i :: 0 <= i < |selected| && fromStr(selected[i]) == Ok(t)
  {
    tables := [];
    var i := 0;
    while i < |selected|
      invariant 0 <= i <= |selected|
      invariant tables == Successes(Parses(selected[..i], fromStr))
    {
      var parsed := fromStr(selected[i]);
      assert Successes(Parses(selected[..i + 1], fromStr)) == tables + Successes([parsed]) by {
        ParsesGrow(selected, fromStr, i);
        SuccessesAppend(Parses(selected[..i], fromStr), [parsed]);
      }
      match parsed {
        case Ok(table) => tables := tables + [table];
        case Err(_) =>
      }
      i := i + 1;
    }
    assert selected[..i] == selected;
    SuccessesAndFailures(Parses(selected, fromStr));
  }

  lemma ParsesGrow(selected: seq<string>, fromStr: string -> Result<TableReference>, i: nat)
    requires i < |selected|
    ensures Parses(selected[..i + 1], fromStr) == Parses(selected[..i], fromStr) + [fromStr(selected[i])]
  {
  }
}
