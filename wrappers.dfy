/** Failure-compatible results standing in for the exceptions that the
    modelled Python code raises, and the "first exception wins" rule of
    evaluating a list comprehension left to right. */
module Wrappers {

  /** The Python exceptions that the modelled code can raise. */
  datatype Error =
    | ValueError          // int("j"), a failed validate_param, max() of an empty sequence, a shape mismatch
    | ZeroDivisionError   // true division by zero
    | IndexError          // a list index out of range
    | KeyError            // a missing dictionary key
    | AttributeError      // reading an attribute that was never set
    | TypeError           // subscripting None, max() of a number

  datatype Option<+T> = None | Some(value: T)

  datatype Result<+T> = Ok(value: T) | Err(error: Error) {
    predicate IsFailure() { Err? }

    function PropagateFailure<U>(): Result<U>
      requires Err?
    {
      Err(error)
    }

    function Extract(): T
      requires Ok?
    {
      value
    }
  }

  /** Evaluates a sequence of computations in order, as a comprehension does:
      the first failure is the result, otherwise every value is kept. */
  function Collect<T>(rs: seq<Result<T>>): (r: Result<seq<T>>)
    ensures r.Ok? <==> forall i :: 0 <= i < |rs| ==> rs[i].Ok?
    ensures r.Ok? ==> |r.value| == |rs| && forall i :: 0 <= i < |rs| ==> rs[i] == Ok(r.value[i])
    ensures r.Err? ==> exists i :: 0 <= i < |rs| && rs[i] == Err(r.error) && forall h :: 0 <= h < i ==> rs[h].Ok?
  {
    if rs == [] then Ok([])
    else
      match rs[0]
      case Err(e) => Err(e)
      case Ok(v) =>
        match Collect(rs[1..])
        case Err(e) =>
          assert exists i :: 0 <= i < |rs[1..]| && rs[1..][i] == Err(e) && forall h :: 0 <= h < i ==> rs[1..][h].Ok?;
          var i :| 0 <= i < |rs[1..]| && rs[1..][i] == Err(e) && forall h :: 0 <= h < i ==> rs[1..][h].Ok?;
          assert rs[i + 1] == Err(e);
          Err(e)
        case Ok(vs) => Ok([v] + vs)
  }

  /** When every computation succeeds, Collect gives exactly their values. */
  lemma CollectAllOk<T>(rs: seq<Result<T>>, vs: seq<T>)
    requires |vs| == |rs|
    requires forall i :: 0 <= i < |rs| ==> rs[i] == Ok(vs[i])
    ensures Collect(rs) == Ok(vs)
  {
    var r := Collect(rs);
    assert r.Ok?;
    assert r.value == vs;
  }

  /** The first failure in evaluation order is the failure Collect reports. */
  lemma CollectFirstErr<T>(rs: seq<Result<T>>, i: nat)
    requires i < |rs| && rs[i].Err?
    requires forall h :: 0 <= h < i ==> rs[h].Ok?
    ensures Collect(rs) == Err(rs[i].error)
  {
    var r := Collect(rs);
    assert r.Err?;
    var i' :| 0 <= i' < |rs| && rs[i'] == Err(r.error) && forall h :: 0 <= h < i' ==> rs[h].Ok?;
    assert i' == i;
  }

  /** Evaluates a nested comprehension row by row, entry by entry: the first
      failure in row-major order is the result. */
  function CollectRows<T>(rows: seq<seq<Result<T>>>): (r: Result<seq<seq<T>>>)
    ensures r.Ok? <==> forall i, j :: 0 <= i < |rows| && 0 <= j < |rows[i]| ==> rows[i][j].Ok?
    ensures r.Ok? ==> |r.value| == |rows|
    ensures r.Ok? ==> forall i :: 0 <= i < |rows| ==>
      (|r.value[i]| == |rows[i]| && forall j :: 0 <= j < |rows[i]| ==> rows[i][j] == Ok(r.value[i][j]))
  {
    if rows == [] then Ok([])
    else
      match Collect(rows[0])
      case Err(e) => Err(e)
      case Ok(v) =>
        match CollectRows(rows[1..])
        case Err(e) =>
          assert exists i, j :: 1 <= i < |rows| && 0 <= j < |rows[i]| && rows[i][j].Err? by {
            var i, j :| 0 <= i < |rows[1..]| && 0 <= j < |rows[1..][i]| && rows[1..][i][j].Err?;
            assert rows[i + 1][j].Err?;
          }
          Err(e)
        case Ok(vs) => Ok([v] + vs)
  }

  /** When every entry succeeds, CollectRows gives exactly their values. */
  lemma CollectRowsAllOk<T>(rows: seq<seq<Result<T>>>, vs: seq<seq<T>>)
    requires |vs| == |rows|
    requires forall i :: 0 <= i < |rows| ==>
      (|vs[i]| == |rows[i]| && forall j :: 0 <= j < |rows[i]| ==> rows[i][j] == Ok(vs[i][j]))
    ensures CollectRows(rows) == Ok(vs)
  {
    var r := CollectRows(rows);
    assert r.Ok?;
    forall i | 0 <= i < |rows| ensures r.value[i] == vs[i] {
    }
    assert r.value == vs;
  }

  /** When every row collects without failure, CollectRows gives exactly
      the rows' values. */
  lemma {:induction false} CollectRowsOfRows<T>(rows: seq<seq<Result<T>>>, vs: seq<seq<T>>)
    requires |vs| == |rows|
    requires forall h :: 0 <= h < |rows| ==> Collect(rows[h]) == Ok(vs[h])
    ensures CollectRows(rows) == Ok(vs)
  {
    if rows != [] {
      assert forall h :: 0 <= h < |rows| - 1 ==> rows[1..][h] == rows[h + 1];
      CollectRowsOfRows(rows[1..], vs[1..]);
      assert [vs[0]] + vs[1..] == vs;
    }
  }

  /** When the rows before row i collect without failure and row i fails,
      CollectRows reports row i's failure. */
  lemma {:induction false} CollectRowsRowErr<T>(rows: seq<seq<Result<T>>>, i: nat)
    requires i < |rows| && Collect(rows[i]).Err?
    requires forall h :: 0 <= h < i ==> Collect(rows[h]).Ok?
    ensures CollectRows(rows) == Err(Collect(rows[i]).error)
  {
    if i > 0 {
      assert Collect(rows[0]).Ok?;
      assert rows[1..][i - 1] == rows[i];
      assert forall h :: 0 <= h < i - 1 ==> rows[1..][h] == rows[h + 1];
      CollectRowsRowErr(rows[1..], i - 1);
    }
  }

  /** A successful CollectRows collects every row on its own. */
  lemma CollectRowsOkRows<T>(rows: seq<seq<Result<T>>>, vs: seq<seq<T>>)
    requires CollectRows(rows) == Ok(vs)
    ensures forall h :: 0 <= h < |rows| ==> Collect(rows[h]) == Ok(vs[h])
  {
    forall h | 0 <= h < |rows|
      ensures Collect(rows[h]) == Ok(vs[h])
    {
      CollectAllOk(rows[h], vs[h]);
    }
  }

  /** Collecting one more row extends the collected prefix by its values. */
  lemma CollectRowsSnoc<T>(rows: seq<seq<Result<T>>>, i: nat, vs: seq<seq<T>>, v: seq<T>)
    requires i < |rows| && CollectRows(rows[..i]) == Ok(vs) && Collect(rows[i]) == Ok(v)
    ensures CollectRows(rows[..i + 1]) == Ok(vs + [v])
  {
    var pre := rows[..i + 1];
    CollectRowsOkRows(rows[..i], vs);
    assert forall h :: 0 <= h < i ==> pre[h] == rows[..i][h];
    CollectRowsOfRows(pre, vs + [v]);
  }

  /** When the rows before row i collect and row i fails, so does the whole. */
  lemma CollectRowsPrefixErr<T>(rows: seq<seq<Result<T>>>, i: nat, vs: seq<seq<T>>)
    requires i < |rows| && CollectRows(rows[..i]) == Ok(vs) && Collect(rows[i]).Err?
    ensures CollectRows(rows) == Err(Collect(rows[i]).error)
  {
    CollectRowsOkRows(rows[..i], vs);
    assert forall h :: 0 <= h < i ==> rows[..i][h] == rows[h];
    CollectRowsRowErr(rows, i);
  }

  /** The first failure in row-major order is the failure CollectRows reports. */
  lemma {:induction false} CollectRowsFirstErr<T>(rows: seq<seq<Result<T>>>, i: nat, j: nat)
    requires i < |rows| && j < |rows[i]| && rows[i][j].Err?
    requires forall h, g :: 0 <= h < i && 0 <= g < |rows[h]| ==> rows[h][g].Ok?
    requires forall g :: 0 <= g < j ==> rows[i][g].Ok?
    ensures CollectRows(rows) == Err(rows[i][j].error)
  {
    if i == 0 {
      CollectFirstErr(rows[0], j);
    } else {
      assert forall g :: 0 <= g < |rows[0]| ==> rows[0][g].Ok?;
      assert Collect(rows[0]).Ok?;
      assert rows[1..][i - 1] == rows[i];
      CollectRowsFirstErr(rows[1..], i - 1, j);
    }
  }
}
