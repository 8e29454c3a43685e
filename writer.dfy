/** Rendering of a column tree as indented text lines (src/io/writer.rs, and the copy
    nested in src/ref.rs), written line by line to a sink that may fail. */
module Writer {
  import opened Results
  import opened Strings
  import opened Types

  // ---------------------------------------------------------------- the text

  /** The mode as rendered: `REQUIRED` when the API omitted it. */
  function ModeText(mode: Option<string>): string {
    match mode
    case None => "REQUIRED"
    case Some(m) => m
  }

  /** The text of one `writeln!` for a column: `<indent>|- <name> (<type>) [<mode>]`. */
  function Line(c: Column, indent: nat): string {
    Spaces(indent) + "|- " + c.name + " (" + c.fieldType + ") [" + ModeText(c.mode) + "]"
  }

  /** The lines of a column and all its descendants, in the order they are written. */
  function ColumnLines(c: Column, indent: nat): seq<string>
    decreases c
  {
    [Line(c, indent)] + FieldLines(c.fields, indent + 2)
  }

  function FieldLines(f: Fields, indent: nat): seq<string>
    decreases f
  {
    match f
    case NoFields => []
    case SomeFields(cs) => ForestLines(cs, indent)
  }

  /** The lines of a list of sibling columns, one after another. */
  function ForestLines(cs: seq<Column>, indent: nat): seq<string>
    decreases cs
  {
    if cs == [] then [] else ColumnLines(cs[0], indent) + ForestLines(cs[1..], indent)
  }

  lemma {:induction false} ForestLinesAppend(a: seq<Column>, b: seq<Column>, indent: nat)
    ensures ForestLines(a + b, indent) == ForestLines(a, indent) + ForestLines(b, indent)
  {
    if a == [] {
      assert a + b == b;
    } else {
      assert (a + b)[1..] == a[1..] + b;
      ForestLinesAppend(a[1..], b, indent);
    }
  }

  // ---------------------------------------------------------------- an independent view

  /** A node of the tree together with its depth below the column rendering started at. */
  datatype Placed = Placed(column: Column, depth: nat)

  /** The nodes of a tree in depth-first preorder: each node before its descendants,
      siblings in declared order. */
  function Preorder(c: Column, depth: nat): (r: seq<Placed>)
    ensures |r| > 0 && r[0] == Placed(c, depth)
    decreases c
  {
    [Placed(c, depth)] + FieldsPreorder(c.fields, depth + 1)
  }

  function FieldsPreorder(f: Fields, depth: nat): seq<Placed>
    decreases f
  {
    match f
    case NoFields => []
    case SomeFields(cs) => ForestPreorder(cs, depth)
  }

  function ForestPreorder(cs: seq<Column>, depth: nat): seq<Placed>
    decreases cs
  {
    if cs == [] then [] else Preorder(cs[0], depth) + ForestPreorder(cs[1..], depth)
  }

  /** The number of nodes of a tree. */
  function Size(c: Column): nat
    decreases c
  {
    1 + (match c.fields
         case NoFields => 0
         case SomeFields(cs) => ForestSize(cs))
  }

  function ForestSize(cs: seq<Column>): nat
    decreases cs
  {
    if cs == [] then 0 else Size(cs[0]) + ForestSize(cs[1..])
  }

  /** Rendering writes exactly one line per node of the tree. */
  lemma {:induction false} LineCount(c: Column, indent: nat)
    ensures |ColumnLines(c, indent)| == Size(c)
    decreases c
  {
    match c.fields
    case NoFields =>
    case SomeFields(cs) => ForestLineCount(cs, indent + 2);
  }

  lemma {:induction false} ForestLineCount(cs: seq<Column>, indent: nat)
    ensures |ForestLines(cs, indent)| == ForestSize(cs)
    decreases cs
  {
    if cs != [] {
      LineCount(cs[0], indent);
      ForestLineCount(cs[1..], indent);
    }
  }

  /** `lines` holds, for each node of `nodes` in turn, that node's line indented by two
      spaces per level of depth beyond `base`. */
  predicate LinesOfNodes(lines: seq<string>, nodes: seq<Placed>, base: nat) {
    |lines| == |nodes| &&
    forall k :: 0 <= k < |nodes| ==> lines[k] == Line(nodes[k].column, base + 2 * nodes[k].depth)
  }

  lemma LinesOfNodesAppend(l1: seq<string>, n1: seq<Placed>, l2: seq<string>, n2: seq<Placed>, base: nat)
    requires LinesOfNodes(l1, n1, base) && LinesOfNodes(l2, n2, base)
    ensures LinesOfNodes(l1 + l2, n1 + n2, base)
  {
    forall k | 0 <= k < |n1 + n2|
      ensures (l1 + l2)[k] == Line((n1 + n2)[k].column, base + 2 * (n1 + n2)[k].depth)
    {
      if k >= |n1| {
        assert (l1 + l2)[k] == l2[k - |n1|] && (n1 + n2)[k] == n2[k - |n1|];
      }
    }
  }

  /** The k-th line written is the line of the k-th node in preorder, indented by two
      spaces per level below the starting column: rendering is a preorder walk. */
  lemma {:induction false} LinesFollowPreorder(c: Column, base: nat, depth: nat)
    ensures LinesOfNodes(ColumnLines(c, base + 2 * depth), Preorder(c, depth), base)
    decreases c
  {
    var own := [Line(c, base + 2 * depth)];
    var nodes := [Placed(c, depth)];
    assert LinesOfNodes(own, nodes, base);
    match c.fields
    case NoFields =>
      assert ColumnLines(c, base + 2 * depth) == own;
      assert Preorder(c, depth) == nodes + [];
    case SomeFields(cs) =>
      assert base + 2 * depth + 2 == base + 2 * (depth + 1);
      ForestFollowsPreorder(cs, base, depth + 1);
      LinesOfNodesAppend(own, nodes, ForestLines(cs, base + 2 * (depth + 1)), ForestPreorder(cs, depth + 1), base);
  }

  lemma {:induction false} ForestFollowsPreorder(cs: seq<Column>, base: nat, depth: nat)
    ensures LinesOfNodes(ForestLines(cs, base + 2 * depth), ForestPreorder(cs, depth), base)
    decreases cs
  {
    if cs != [] {
      var indent := base + 2 * depth;
      LinesFollowPreorder(cs[0], base, depth);
      ForestFollowsPreorder(cs[1..], base, depth);
      LinesOfNodesAppend(ColumnLines(cs[0], indent), Preorder(cs[0], depth),
                         ForestLines(cs[1..], indent), ForestPreorder(cs[1..], depth), base);
    }
  }

  /** The number of leading spaces of a line. */
  function Indentation(s: string): nat {
    if s != [] && s[0] == ' ' then 1 + Indentation(s[1..]) else 0
  }

  /** A line's indentation can be read back from the text, and the marker `|- `
      follows it. */
  lemma LineIndentation(c: Column, indent: nat)
    ensures Indentation(Line(c, indent)) == indent
    ensures Line(c, indent)[indent..indent + 3] == "|- "
  {
    var tail := "|- " + c.name + " (" + c.fieldType + ") [" + ModeText(c.mode) + "]";
    assert Line(c, indent) == Spaces(indent) + tail;
    IndentationOfSpaces(indent, tail);
  }

  lemma {:induction false} IndentationOfSpaces(n: nat, tail: string)
    requires tail != [] && tail[0] != ' '
    ensures Indentation(Spaces(n) + tail) == n
  {
    if n > 0 {
      assert (Spaces(n) + tail)[1..] == Spaces(n - 1) + tail;
      IndentationOfSpaces(n - 1, tail);
    } else {
      assert Spaces(n) + tail == tail;
    }
  }

  /** A column is rendered with the mode it carries, verbatim, between the closing
      brackets of its line ... */
  lemma LineShowsMode(c: Column, indent: nat, m: string)
    requires c.mode == Some(m)
    ensures var l := Line(c, indent); |l| >= |m| + 2 && l[|l| - |m| - 2..] == "[" + m + "]"
  {
  }

  /** ... and a column without a mode is rendered exactly like one whose mode is
      `REQUIRED`. */
  lemma MissingModeIsRequired(c: Column, indent: nat)
    requires c.mode == None
    ensures Line(c, indent) == Line(c.(mode := Some("REQUIRED")), indent)
  {
  }

  /** A present but empty list of nested fields renders like an absent one. */
  lemma EmptyFieldsLikeNone(c: Column, indent: nat)
    ensures ColumnLines(c.(fields := SomeFields([])), indent) == ColumnLines(c.(fields := NoFields), indent)
  {
  }

  // ---------------------------------------------------------------- the sink

  /** The offset, among `n` consecutive write attempts numbered from `start`, of the
      first one in `failing`. */
  function FirstFailure(failing: set<nat>, start: nat, n: nat): (r: Option<nat>)
    ensures r.Some? ==> r.value < n
    decreases n
  {
    if n == 0 then None
    else if start in failing then Some(0)
    else
      match FirstFailure(failing, start + 1, n - 1)
      case None => None
      case Some(k) => Some(k + 1)
  }

  /** There is no failure exactly when none of the attempts is in `failing`; a failure
      is an attempt in `failing` with none before it. */
  lemma {:induction false} FirstFailureMeans(failing: set<nat>, start: nat, n: nat)
    ensures FirstFailure(failing, start, n).None? <==> forall a :: start <= a < start + n ==> a !in failing
    ensures FirstFailure(failing, start, n).Some? ==>
              var k := FirstFailure(failing, start, n).value;
              k < n && start + k in failing && forall a :: start <= a < start + k ==> a !in failing
    decreases n
  {
    if n > 0 && start !in failing {
      FirstFailureMeans(failing, start + 1, n - 1);
    }
  }

  /** The first failure is determined by the attempts it ranges over. */
  lemma {:induction false} FirstFailureIs(failing: set<nat>, start: nat, n: nat, k: nat)
    requires k < n && start + k in failing
    requires forall a :: start <= a < start + k ==> a !in failing
    ensures FirstFailure(failing, start, n) == Some(k)
    decreases k
  {
    if k > 0 {
      assert start !in failing;
      FirstFailureIs(failing, start + 1, n - 1, k - 1);
    }
  }

  /** Writing `lines` one `writeln!` at a time, starting at attempt `a0` with `w0`
      already written, stopping at the first failed write, ends with `w1` written after
      `a1` attempts and reports `ok`: all lines and success when no attempt fails,
      otherwise exactly the lines before the failed one, and the error. */
  predicate Emitted(failing: set<nat>, w0: seq<string>, a0: nat, lines: seq<string>,
                    w1: seq<string>, a1: nat, ok: bool)
  {
    match FirstFailure(failing, a0, |lines|)
    case None => ok && w1 == w0 + lines && a1 == a0 + |lines|
    case Some(k) => !ok && w1 == w0 + lines[..k] && a1 == a0 + k + 1
  }

  /** Writing nothing succeeds and changes nothing. */
  lemma EmittedNothing(failing: set<nat>, w: seq<string>, a: nat)
    ensures Emitted(failing, w, a, [], w, a, true)
  {
    assert w + [] == w;
  }

  /** Two successful runs of writes compose into one. */
  lemma EmittedThen(failing: set<nat>, w0: seq<string>, a0: nat, l1: seq<string>,
                    w1: seq<string>, a1: nat, l2: seq<string>, w2: seq<string>, a2: nat, ok: bool)
    requires Emitted(failing, w0, a0, l1, w1, a1, true)
    requires Emitted(failing, w1, a1, l2, w2, a2, ok)
    ensures Emitted(failing, w0, a0, l1 + l2, w2, a2, ok)
  {
    var n1 := |l1|;
    FirstFailureMeans(failing, a0, n1);
    FirstFailureMeans(failing, a1, |l2|);
    assert FirstFailure(failing, a0, n1).None?;
    assert a1 == a0 + n1 && w1 == w0 + l1;
    match FirstFailure(failing, a1, |l2|)
    case None =>
      FirstFailureMeans(failing, a0, |l1 + l2|);
      assert FirstFailure(failing, a0, |l1 + l2|).None?;
      assert (w0 + l1) + l2 == w0 + (l1 + l2);
    case Some(k) =>
      FirstFailureIs(failing, a0, |l1 + l2|, n1 + k);
      assert (l1 + l2)[..n1 + k] == l1 + l2[..k];
  }

  /** After a failed write nothing more is written, whatever was still to come. */
  lemma EmittedStops(failing: set<nat>, w0: seq<string>, a0: nat, l1: seq<string>,
                     w1: seq<string>, a1: nat, l2: seq<string>)
    requires Emitted(failing, w0, a0, l1, w1, a1, false)
    ensures Emitted(failing, w0, a0, l1 + l2, w1, a1, false)
  {
    FirstFailureMeans(failing, a0, |l1|);
    var k := FirstFailure(failing, a0, |l1|).value;
    FirstFailureIs(failing, a0, |l1 + l2|, k);
    assert (l1 + l2)[..k] == l1[..k];
  }

  /** One more run of writes after a successful run: on success the written prefix
      grows by it, on failure the whole of `all` stops at the same point. */
  lemma EmittedGrowsOrStops(failing: set<nat>, w0: seq<string>, a0: nat, done: seq<string>,
                            w1: seq<string>, a1: nat, next: seq<string>, w2: seq<string>, a2: nat,
                            ok: bool, grown: seq<string>, rest: seq<string>, all: seq<string>)
    requires grown == done + next && all == grown + rest
    requires Emitted(failing, w0, a0, done, w1, a1, true)
    requires Emitted(failing, w1, a1, next, w2, a2, ok)
    ensures ok ==> Emitted(failing, w0, a0, grown, w2, a2, true)
    ensures !ok ==> Emitted(failing, w0, a0, all, w2, a2, false)
  {
    EmittedThen(failing, w0, a0, done, w1, a1, next, w2, a2, ok);
    if !ok {
      EmittedStops(failing, w0, a0, grown, w2, a2, rest);
    }
  }

  /** An output file. Each entry of `written` is the text of one `writeln!` that
      succeeded; the file holds those texts each followed by a newline. Which write
      attempts fail is fixed in advance by `failing`, attempts being numbered from 0. */
  class Sink {
    const failing: set<nat>
    var written: seq<string>
    var attempts: nat

    constructor (failing: set<nat>)
      ensures this.failing == failing && written == [] && attempts == 0
    {
      this.failing := failing;
      written := [];
      attempts := 0;
    }

    /** The content of the file. */
    function Text(): string
      reads this
    {
      Terminated(written)
    }

    /** `writeln!(file, "{}", line)`. */
    method Writeln(line: string) returns (r: Result<()>)
      modifies this
      ensures r.Ok? <==> old(attempts) !in failing
      ensures attempts == old(attempts) + 1
      ensures written == if r.Ok? then old(written) + [line] else old(written)
      ensures Emitted(failing, old(written), old(attempts), [line], written, attempts, r.Ok?)
      ensures Text() == if r.Ok? then old(Text()) + line + "\n" else old(Text())
    {
      if attempts in failing {
        r := Err("write error");
      } else {
        WrittenLine(written, line);
        written := written + [line];
        r := Ok(());
      }
      attempts := attempts + 1;
      assert [line][..0] == [];
    }
  }

  /** Each text followed by a newline. */
  function Terminated(lines: seq<string>): string {
    if lines == [] then "" else lines[0] + "\n" + Terminated(lines[1..])
  }

  /** The file grows by each written text and its newline, in the order written. */
  lemma {:induction false} TerminatedAppend(a: seq<string>, b: seq<string>)
    ensures Terminated(a + b) == Terminated(a) + Terminated(b)
  {
    if a == [] {
      assert a + b == b;
    } else {
      assert (a + b)[1..] == a[1..] + b;
      TerminatedAppend(a[1..], b);
    }
  }

  /** A written text appears in the file after what was there, followed by a newline. */
  lemma WrittenLine(written: seq<string>, line: string)
    ensures Terminated(written + [line]) == Terminated(written) + line + "\n"
  {
    TerminatedAppend(written, [line]);
    assert [line][1..] == [];
  }

  // ---------------------------------------------------------------- write_column

  /** One more sibling written after a column's own line and the siblings before it:
      on success the prefix grows by that sibling, on failure the whole column's output
      stops there. */
  lemma SiblingWritten(failing: set<nat>, w0: seq<string>, a0: nat, own: string, cs: seq<Column>,
                       i: nat, indent: nat, w1: seq<string>, a1: nat, w2: seq<string>, a2: nat, ok: bool)
    requires i < |cs|
    requires Emitted(failing, w0, a0, [own] + ForestLines(cs[..i], indent), w1, a1, true)
    requires Emitted(failing, w1, a1, ColumnLines(cs[i], indent), w2, a2, ok)
    ensures ok ==> Emitted(failing, w0, a0, [own] + ForestLines(cs[..i + 1], indent), w2, a2, true)
    ensures !ok ==> Emitted(failing, w0, a0, [own] + ForestLines(cs, indent), w2, a2, false)
  {
    var done, next := [own] + ForestLines(cs[..i], indent), ColumnLines(cs[i], indent);
    var grown, rest := [own] + ForestLines(cs[..i + 1], indent), ForestLines(cs[i + 1..], indent);
    OwnThenGrows(own, cs, i, indent);
    OwnThenSplits(own, cs, i + 1, indent);
    EmittedGrowsOrStops(failing, w0, a0, done, w1, a1, next, w2, a2, ok, grown, rest,
                        [own] + ForestLines(cs, indent));
  }

  lemma OwnThenGrows(own: string, cs: seq<Column>, i: nat, indent: nat)
    requires i < |cs|
    ensures [own] + ForestLines(cs[..i + 1], indent) == ([own] + ForestLines(cs[..i], indent)) + ColumnLines(cs[i], indent)
  {
    ForestGrows(cs, i, indent);
  }

  lemma OwnThenSplits(own: string, cs: seq<Column>, i: nat, indent: nat)
    requires i <= |cs|
    ensures [own] + ForestLines(cs, indent) == ([own] + ForestLines(cs[..i], indent)) + ForestLines(cs[i..], indent)
  {
    ForestSplits(cs, i, indent);
  }

  lemma ForestGrows(cs: seq<Column>, i: nat, indent: nat)
    requires i < |cs|
    ensures ForestLines(cs[..i + 1], indent) == ForestLines(cs[..i], indent) + ColumnLines(cs[i], indent)
  {
    var before, c := cs[..i], cs[i];
    assert cs[..i + 1] == before + [c];
    ForestLinesAppend(before, [c], indent);
    assert ForestLines([c], indent) == ColumnLines(c, indent) + ForestLines([], indent);
  }

  lemma ForestSplits(cs: seq<Column>, i: nat, indent: nat)
    requires i <= |cs|
    ensures ForestLines(cs, indent) == ForestLines(cs[..i], indent) + ForestLines(cs[i..], indent)
  {
    var a, b := cs[..i], cs[i..];
    PrefixThenRest(cs, i);
    ForestLinesAppend(a, b, indent);
  }

  /** `write_column`: writes the column's line, then each nested column with two more
      spaces of indentation, returning the first write error. */
  method WriteColumn(sink: Sink, c: Column, indent: nat) returns (r: Result<()>)
    modifies sink
    ensures Emitted(sink.failing, old(sink.written), old(sink.attempts), ColumnLines(c, indent),
                    sink.written, sink.attempts, r.Ok?)
    decreases c
  {
    ghost var w0, a0 := sink.written, sink.attempts;
    var own := Line(c, indent);
    r := sink.Writeln(own);
    if r.Err? {
      EmittedStops(sink.failing, w0, a0, [own], sink.written, sink.attempts, FieldLines(c.fields, indent + 2));
      return;
    }
    match c.fields {
      case NoFields =>
        assert ColumnLines(c, indent) == [own];
      case SomeFields(cs) =>
        var i := 0;
        while i < |cs|
          invariant 0 <= i <= |cs|
          invariant Emitted(sink.failing, w0, a0, [own] + ForestLines(cs[..i], indent + 2),
                            sink.written, sink.attempts, true)
        {
          ghost var w1, a1 := sink.written, sink.attempts;
          var ri := WriteColumn(sink, cs[i], indent + 2);
          SiblingWritten(sink.failing, w0, a0, own, cs, i, indent + 2, w1, a1,
                         sink.written, sink.attempts, ri.Ok?);
          if ri.Err? {
            return ri;
          }
          i := i + 1;
        }
        assert cs[..i] == cs;
    }
  }
}
