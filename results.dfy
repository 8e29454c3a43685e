/** Option and Result values, and the two gather policies the program applies to a
    sequence of independent call outcomes: keep the successes (`join_all` followed by
    `filter_map`) or fail as a whole (`try_join_all` followed by `?`). */
module Results {

  datatype Option<+T> = None | Some(value: T)

  /** A fallible value; the error is a human-readable message. */
  datatype Result<+T> = Ok(value: T) | Err(error: string) {
    predicate IsFailure() { Err? }
    function PropagateFailure<U>(): Result<U>
      requires Err?
    {
      Err(error)
    }
    function Extract(): T
      requires Ok?
    {
      value
    }
  }

  /** The values of the `Ok` entries, in their order. */
  function Successes<T(!new)>(rs: seq<Result<T>>): (r: seq<T>)
    ensures |r| <= |rs|
    ensures forall x :: x in r <==> Ok(x) in rs
  {
    if rs == [] then []
    else
      var rest := Successes(rs[1..]);
      assert forall x :: Ok(x) in rs <==> rs[0] == Ok(x) || Ok(x) in rs[1..];
      match rs[0]
      case Ok(x) => [x] + rest
      case Err(_) => rest
  }

  /** The messages of the `Err` entries, in their order. */
  function Failures<T>(rs: seq<Result<T>>): (r: seq<string>)
    ensures forall e :: e in r <==> Err(e) in rs
  {
    if rs == [] then []
    else
      var rest := Failures(rs[1..]);
      assert forall e :: Err(e) in rs <==> rs[0] == Err(e) || Err(e) in rs[1..];
      match rs[0]
      case Ok(_) => rest
      case Err(e) => [e] + rest
  }

  /** Every outcome is kept or reported: nothing is lost and nothing is invented. */
  lemma {:induction false} SuccessesAndFailures<T(!new)>(rs: seq<Result<T>>)
    ensures |Successes(rs)| + |Failures(rs)| == |rs|
  {
    if rs != [] {
      SuccessesAndFailures(rs[1..]);
    }
  }

  /** Keeping the successes commutes with concatenation, so input order is kept. */
  lemma {:induction false} SuccessesAppend<T(!new)>(a: seq<Result<T>>, b: seq<Result<T>>)
    ensures Successes(a + b) == Successes(a) + Successes(b)
  {
    if a == [] {
      assert a + b == b;
    } else {
      assert (a + b)[1..] == a[1..] + b;
      SuccessesAppend(a[1..], b);
    }
  }

  /** When nothing fails, the successes are all the values, one for one. */
  lemma {:induction false} SuccessesOfAllOk<T(!new)>(rs: seq<Result<T>>)
    requires forall i :: 0 <= i < |rs| ==> rs[i].Ok?
    ensures |Successes(rs)| == |rs|
    ensures forall i :: 0 <= i < |rs| ==> Successes(rs)[i] == rs[i].value
  {
    if rs != [] {
      SuccessesOfAllOk(rs[1..]);
    }
  }

  /** With exactly one failure among the outcomes, one value fewer is kept. */
  lemma {:induction false} SuccessesOneFailure<T(!new)>(rs: seq<Result<T>>, j: nat)
    requires j < |rs| && rs[j].Err?
    requires forall i :: 0 <= i < |rs| && i != j ==> rs[i].Ok?
    ensures |Successes(rs)| == |rs| - 1
  {
    var tail := rs[1..];
    if j == 0 {
      SuccessesOfAllOk(tail);
    } else {
      SuccessesOneFailure(tail, j - 1);
    }
  }

  /** All-or-nothing gather: the values in order when every outcome is `Ok`, otherwise
      the first error in input order (`try_join_all` returns the first error it
      observes; the model fixes that choice). */
  function Collect<T>(rs: seq<Result<T>>): (r: Result<seq<T>>)
    ensures r.Ok? <==> forall i :: 0 <= i < |rs| ==> rs[i].Ok?
    ensures r.Ok? ==> |r.value| == |rs| && forall i :: 0 <= i < |rs| ==> rs[i] == Ok(r.value[i])
    ensures r.Err? ==> exists i :: 0 <= i < |rs| && rs[i] == Err(r.error) &&
                                   forall j :: 0 <= j < i ==> rs[j].Ok?
  {
    if rs == [] then Ok([])
    else
      match rs[0]
      case Err(e) => Err(e)
      case Ok(x) =>
        var rest := Collect(rs[1..]);
        if rest.Err? then
          assert forall j :: 1 <= j < |rs| ==> rs[j] == rs[1..][j - 1];
          Err(rest.error)
        else
          assert forall j :: 1 <= j < |rs| ==> rs[j] == rs[1..][j - 1];
          Ok([x] + rest.value)
  }

  /** The two policies agree exactly when nothing fails; otherwise the all-or-nothing
      gather yields no values while the tolerant one still keeps the successes. */
  lemma {:induction false} CollectIsSuccessesWhenAllOk<T(!new)>(rs: seq<Result<T>>)
    ensures Collect(rs).Ok? ==> Collect(rs).value == Successes(rs)
  {
    if rs != [] && rs[0].Ok? {
      CollectIsSuccessesWhenAllOk(rs[1..]);
    }
  }

  /** Concatenation of a sequence of lists (`flatten`). */
  function Flatten<T(!new)>(xss: seq<seq<T>>): (r: seq<T>)
    ensures forall x :: x in r <==> exists i :: 0 <= i < |xss| && x in xss[i]
  {
    if xss == [] then []
    else
      var rest := Flatten(xss[1..]);
      assert forall i :: 1 <= i < |xss| ==> xss[i] == xss[1..][i - 1];
      xss[0] + rest
  }

  /** Flattening commutes with concatenation: lists keep their relative order. */
  lemma {:induction false} FlattenAppend<T(!new)>(a: seq<seq<T>>, b: seq<seq<T>>)
    ensures Flatten(a + b) == Flatten(a) + Flatten(b)
  {
    if a == [] {
      assert a + b == b;
    } else {
      assert (a + b)[1..] == a[1..] + b;
      FlattenAppend(a[1..], b);
    }
  }

  /** A sequence is its prefix followed by the rest. */
  lemma PrefixThenRest<T>(s: seq<T>, i: nat)
    requires i <= |s|
    ensures s == s[..i] + s[i..]
  {
  }
}
