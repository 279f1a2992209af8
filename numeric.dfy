/** Exact stand-ins for the few numpy and builtin operations the solver uses:
    sum, np.dot on vectors and matrices, element-wise addition, max, and
    repeated multiplication by the discount factor. Reals are exact here,
    where the source computes in binary floating point. */
module Numeric {
  import opened Wrappers

  /** Python's sum over a list. */
  function Sum(s: seq<real>): real
  {
    if s == [] then 0.0 else s[0] + Sum(s[1..])
  }

  lemma {:induction false} SumAppend(s: seq<real>, t: seq<real>)
    ensures Sum(s + t) == Sum(s) + Sum(t)
  {
    if s == [] {
      assert s + t == t;
    } else {
      assert (s + t)[1..] == s[1..] + t;
      SumAppend(s[1..], t);
    }
  }

  /** A list of `n` copies of `v` sums to `n * v`. */
  lemma {:induction false} SumConstant(s: seq<real>, v: real)
    requires forall i :: 0 <= i < |s| ==> s[i] == v
    ensures Sum(s) == |s| as real * v
  {
    if s != [] {
      SumConstant(s[1..], v);
    }
  }

  /** A list of zeros sums to zero. */
  lemma SumZeros(s: seq<real>)
    requires forall i :: 0 <= i < |s| ==> s[i] == 0.0
    ensures Sum(s) == 0.0
  {
    SumConstant(s, 0.0);
  }

  /** A list that is 1 at position k and 0 elsewhere sums to 1, or to 0
      when k is not a position of it. */
  lemma {:induction false} SumOneHot(s: seq<real>, k: int)
    requires forall i :: 0 <= i < |s| ==> s[i] == (if i == k then 1.0 else 0.0)
    ensures Sum(s) == (if 0 <= k < |s| then 1.0 else 0.0)
  {
    if s != [] {
      SumOneHot(s[1..], k - 1);
    }
  }

  /** np.dot of two vectors of the same length. */
  function Dot(u: seq<real>, v: seq<real>): real
    requires |u| == |v|
  {
    if u == [] then 0.0 else u[0] * v[0] + Dot(u[1..], v[1..])
  }

  /** Every row of `a` has `cols` entries. */
  predicate Rectangular(a: seq<seq<real>>, cols: nat)
  {
    forall i :: 0 <= i < |a| ==> |a[i]| == cols
  }

  /** np.dot(a, y) for a matrix with `cols` columns: one entry per row,
      a ValueError when the inner dimensions differ. */
  function MatVec(a: seq<seq<real>>, cols: nat, y: seq<real>): (r: Result<seq<real>>)
    requires Rectangular(a, cols)
    ensures r.Ok? <==> cols == |y|
    ensures r.Ok? ==> |r.value| == |a| && forall i :: 0 <= i < |a| ==> r.value[i] == Dot(a[i], y)
  {
    if cols != |y| then Err(ValueError) else Ok(seq(|a|, i requires 0 <= i < |a| => Dot(a[i], y)))
  }

  /** Entry `j` of np.dot(w, a): column `j` weighted by `w`. */
  function Column(w: seq<real>, a: seq<seq<real>>, cols: nat, j: nat): real
    requires |w| == |a| && Rectangular(a, cols) && j < cols
  {
    if w == [] then 0.0 else w[0] * a[0][j] + Column(w[1..], a[1..], cols, j)
  }

  /** A dot product with a zero vector is zero. */
  lemma {:induction false} DotZeros(u: seq<real>, v: seq<real>)
    requires |u| == |v| && forall i :: 0 <= i < |v| ==> v[i] == 0.0
    ensures Dot(u, v) == 0.0
  {
    if u != [] {
      DotZeros(u[1..], v[1..]);
    }
  }

  /** A column weighted by a zero vector sums to zero. */
  lemma {:induction false} ColumnZeros(w: seq<real>, a: seq<seq<real>>, cols: nat, j: nat)
    requires |w| == |a| && Rectangular(a, cols) && j < cols
    requires forall i :: 0 <= i < |w| ==> w[i] == 0.0
    ensures Column(w, a, cols, j) == 0.0
  {
    if w != [] {
      ColumnZeros(w[1..], a[1..], cols, j);
    }
  }

  /** np.dot(w, a) for a vector times a matrix with `cols` columns. */
  function VecMat(w: seq<real>, a: seq<seq<real>>, cols: nat): (r: Result<seq<real>>)
    requires Rectangular(a, cols)
    ensures r.Ok? <==> |w| == |a|
    ensures r.Ok? ==> |r.value| == cols && forall j :: 0 <= j < cols ==> r.value[j] == Column(w, a, cols, j)
  {
    if |w| != |a| then Err(ValueError) else Ok(seq(cols, j requires 0 <= j < cols => Column(w, a, cols, j)))
  }

  /** The numpy expression `u + fraction * v` on two vectors of one length. */
  function AddScaled(u: seq<real>, fraction: real, v: seq<real>): (r: seq<real>)
    requires |u| == |v|
    ensures |r| == |u| && forall i :: 0 <= i < |u| ==> r[i] == u[i] + fraction * v[i]
  {
    seq(|u|, i requires 0 <= i < |u| => u[i] + fraction * v[i])
  }

  /** Python's max over a sequence: a ValueError when it is empty, otherwise
      its first largest element. */
  function Max(s: seq<real>): (r: Result<real>)
    ensures r.Ok? <==> s != []
    ensures r.Err? ==> r.error == ValueError
    ensures r.Ok? ==> r.value in s && forall i :: 0 <= i < |s| ==> s[i] <= r.value
  {
    if s == [] then Err(ValueError)
    else if |s| == 1 then Ok(s[0])
    else
      var rest := Max(s[1..]).value;
      assert forall i :: 1 <= i < |s| ==> s[i] == s[1..][i - 1];
      Ok(if rest > s[0] then rest else s[0])
  }

  /** `a` raised to the power `n`. */
  function Pow(a: real, n: nat): real
  {
    if n == 0 then 1.0 else a * Pow(a, n - 1)
  }

  /** a^(m + n) = a^m · a^n. */
  lemma {:induction false} PowAdd(a: real, m: nat, n: nat)
    ensures Pow(a, m + n) == Pow(a, m) * Pow(a, n)
  {
    if n > 0 {
      PowAdd(a, m, n - 1);
      assert Pow(a, m + n) == a * Pow(a, m + n - 1);
    }
  }

  /** A power of a factor strictly between 0 and 1 stays in (0, 1]. */
  lemma {:induction false} PowBounds(a: real, n: nat)
    requires 0.0 < a < 1.0
    ensures 0.0 < Pow(a, n) <= 1.0
  {
    if n > 0 {
      PowBounds(a, n - 1);
    }
  }

  /** Its powers never grow with the exponent. */
  lemma {:induction false} PowDecreasing(a: real, m: nat, n: nat)
    requires 0.0 < a < 1.0 && m <= n
    ensures Pow(a, n) <= Pow(a, m)
  {
    if m < n {
      PowDecreasing(a, m, n - 1);
      PowStep(a, n - 1);
    } else {
      assert n == m;
    }
  }

  /** One more factor in (0, 1) never increases the power. */
  lemma PowStep(a: real, n: nat)
    requires 0.0 < a < 1.0
    ensures Pow(a, n + 1) <= Pow(a, n)
  {
    PowBounds(a, n);
    Shrink(a, Pow(a, n), Pow(a, n + 1));
  }

  /** A positive x scaled by a factor in (0, 1) is no larger than x. */
  lemma Shrink(a: real, x: real, y: real)
    requires 0.0 < a < 1.0 && 0.0 < x && y == a * x
    ensures y <= x
  {
  }
}
