/** The solver side of optimize.py: the discounted value recursions V1 and
    V2, the objective the optimizer minimizes, the coefficient vectors of its
    simplex constraints and bounds, and the random starting strategies. */
module Optimize {
  import opened Wrappers
  import opened Numeric
  import opened Dicts
  import opened Params
  import opened GameModel
  import opened Markov
  import opened Conversion

  /** The discount factor. */
  const DELTA: real := 0.9
  /** Recursion stops once the discount weight drops below this. */
  const CUTOFF: real := 0.001
  /** The number of levels the value recursions descend before the weight
      drops below the cutoff. */
  const HORIZON: nat := 65

  /** The weight `fraction` at recursion depth `depth`: DELTA at the top,
      multiplied by DELTA at each level. */
  function Fraction(depth: nat): real
  {
    Pow(DELTA, depth + 1)
  }

  /** 0.9^16 lies in [0.185, 0.1854]. */
  lemma Pow16()
    ensures 0.185 <= Pow(DELTA, 16) <= 0.1854
  {
    PowAdd(DELTA, 1, 1);
    PowAdd(DELTA, 2, 2);
    PowAdd(DELTA, 4, 4);
    PowAdd(DELTA, 8, 8);
  }

  lemma SquareBounds(x: real, lo: real, hi: real)
    requires 0.0 <= lo <= x <= hi
    ensures lo * lo <= x * x <= hi * hi
  {
  }

  /** 0.9^32 lies in [0.034225, 0.03437316]. */
  lemma Pow32()
    ensures 0.034225 <= Pow(DELTA, 32) <= 0.03437316
  {
    Pow16();
    PowAdd(DELTA, 16, 16);
    SquareBounds(Pow(DELTA, 16), 0.185, 0.1854);
  }

  /** 0.9^64 lies in [0.00117, 0.00119]. */
  lemma Pow64()
    ensures 0.00117 <= Pow(DELTA, 64) <= 0.00119
  {
    Pow32();
    PowAdd(DELTA, 32, 32);
    SquareBounds(Pow(DELTA, 32), 0.034225, 0.03437316);
  }

  /** The recursion stops exactly at depth 65: the weight 0.9^(d+1) is
      below 0.001 iff d >= 65 (0.9^65 is about 0.00106 and 0.9^66 about
      0.00096). */
  lemma Horizon(depth: nat)
    ensures Fraction(depth) < CUTOFF <==> depth >= HORIZON
  {
    Pow64();
    PowAdd(DELTA, 64, 1);
    PowAdd(DELTA, 64, 2);
    PowAdd(DELTA, 1, 1);
    PowBounds(DELTA, 64);
    if depth >= HORIZON {
      PowDecreasing(DELTA, 66, depth + 1);
    } else {
      PowDecreasing(DELTA, depth + 1, 65);
    }
  }

  /** max over np.dot of an empty matrix: with no actions, R(x) and T(x)
      are empty, np.dot gives the number 0 when the other operand is empty
      too (and max of a number raises TypeError), a ValueError otherwise. */
  function EmptyDot(n: nat): (r: Result<real>)
    ensures r.Err? && (r.error == TypeError <==> n == 0)
  {
    if n == 0 then Err(TypeError) else Err(ValueError)
  }

  /** best_transmitter_value (V1) at recursion depth `depth`: 0 once the
      weight is below the cutoff, otherwise the largest entry of
      R(x)·y + fraction · T(x)·y, where T(x) values the next states by V1 one
      level deeper. The strategy f and the parameters are passed along but
      not read. */
  function TransmitterValue(md: Model, s: State, y: seq<real>, depth: nat): Result<real>
    decreases HORIZON - depth
  {
    if Fraction(depth) < CUTOFF then Ok(0.0)
    else
      Horizon(depth);
      var R :- RewardMatrix(md, s);
      if md.actionSpace == [] then EmptyDot(|y|)
      else
        var now :- MatVec(R, Cols(md), y);
        var T :- TransitionMatrix(md, s, (t: State) => TransmitterValue(md, t, y, depth + 1));
        var later :- MatVec(T, Cols(md), y);
        Max(AddScaled(now, Fraction(depth), later))
  }

  /** [-f[state][action] for action in f[state]]: each action's
      probability, looked up by its key, negated. */
  function Negated(row: Dict<Action, real>): (w: seq<real>)
    ensures |w| == |row|
  {
    seq(|row|, i requires 0 <= i < |row| => assert Keys(row)[i] == row[i].0; -Get(row, row[i].0).value)
  }

  /** best_jammer_value (V2) at depth `depth`: 0 below the cutoff,
      otherwise the largest entry of w·R(x) + fraction · w·T(x), with w the
      negated transmitter probabilities of the state (a KeyError when f has
      no row for it) and T(x) valuing the next states by V2 one level
      deeper. */
  function JammerValue(md: Model, s: State, f: Table, depth: nat): Result<real>
    decreases HORIZON - depth
  {
    if Fraction(depth) < CUTOFF then Ok(0.0)
    else
      Horizon(depth);
      if Get(f, s).None? then Err(KeyError)
      else
        var w := Negated(Get(f, s).value);
        var R :- RewardMatrix(md, s);
        if md.actionSpace == [] then EmptyDot(|w|)
        else
          var now :- VecMat(w, R, Cols(md));
          var T :- TransitionMatrix(md, s, (t: State) => JammerValue(md, t, f, depth + 1));
          var later :- VecMat(w, T, Cols(md));
          Max(AddScaled(now, Fraction(depth), later))
  }

  /** Below the cutoff, that is from depth 65 on, both values are 0. */
  lemma StopsAtHorizon(md: Model, s: State, y: seq<real>, f: Table, depth: nat)
    requires depth >= HORIZON
    ensures TransmitterValue(md, s, y, depth) == Ok(0.0)
    ensures JammerValue(md, s, f, depth) == Ok(0.0)
  {
    Horizon(depth);
  }

  /** Every entry is 0. */
  predicate Zeros(v: seq<real>)
  {
    forall i :: 0 <= i < |v| ==> v[i] == 0.0
  }

  /** Every product of a matrix with a zero vector is zero. */
  lemma MatVecZeros(cols: nat, y: seq<real>)
    requires Zeros(y)
    ensures forall a :: Rectangular(a, cols) && MatVec(a, cols, y).Ok? ==> Zeros(MatVec(a, cols, y).value)
  {
    forall a | Rectangular(a, cols) && MatVec(a, cols, y).Ok? ensures Zeros(MatVec(a, cols, y).value) {
      forall i | 0 <= i < |a| ensures MatVec(a, cols, y).value[i] == 0.0 {
        DotZeros(a[i], y);
      }
    }
  }

  /** Every product of a zero vector with a matrix is zero. */
  lemma VecMatZeros(w: seq<real>, cols: nat)
    requires Zeros(w)
    ensures forall a :: Rectangular(a, cols) && VecMat(w, a, cols).Ok? ==> Zeros(VecMat(w, a, cols).value)
  {
    forall a | Rectangular(a, cols) && VecMat(w, a, cols).Ok? ensures Zeros(VecMat(w, a, cols).value) {
      forall j | 0 <= j < cols ensures VecMat(w, a, cols).value[j] == 0.0 {
        ColumnZeros(w, a, cols, j);
      }
    }
  }

  /** The largest entry of now + fraction · later, both zero, is 0. */
  lemma MaxOfZeros(fraction: real)
    ensures forall now, later ::
      (|now| == |later| && Zeros(now) && Zeros(later) && Max(AddScaled(now, fraction, later)).Ok?) ==>
      Max(AddScaled(now, fraction, later)).value == 0.0
  {
    forall now, later | |now| == |later| && Zeros(now) && Zeros(later) && Max(AddScaled(now, fraction, later)).Ok?
      ensures Max(AddScaled(now, fraction, later)).value == 0.0
    {
      assert Zeros(AddScaled(now, fraction, later));
    }
  }

  /** A jammer that never transmits (y all zero) is worth 0 to the
      transmitter, whenever V1 is defined. */
  lemma SilentJammer(md: Model, s: State, y: seq<real>, depth: nat)
    requires Zeros(y)
    ensures TransmitterValue(md, s, y, depth).Ok? ==> TransmitterValue(md, s, y, depth).value == 0.0
  {
    if !(Fraction(depth) < CUTOFF) {
      MatVecZeros(Cols(md), y);
      MaxOfZeros(Fraction(depth));
    }
  }

  /** Every action of the row has probability 0. */
  predicate Idle(row: Dict<Action, real>)
  {
    forall i :: 0 <= i < |row| ==> row[i].1 == 0.0
  }

  /** Zero probabilities negate to zero weights. */
  lemma NegatedZeros(row: Dict<Action, real>)
    requires Idle(row)
    ensures Zeros(Negated(row))
  {
  }

  /** A state where the transmitter plays every action with probability 0
      is worth 0 to the jammer, whenever V2 is defined. */
  lemma IdleTransmitter(md: Model, s: State, f: Table, depth: nat)
    requires Get(f, s).Some? && Idle(Get(f, s).value)
    ensures JammerValue(md, s, f, depth).Ok? ==> JammerValue(md, s, f, depth).value == 0.0
  {
    if !(Fraction(depth) < CUTOFF) {
      var w := Negated(Get(f, s).value);
      NegatedZeros(Get(f, s).value);
      VecMatZeros(w, Cols(md));
      MaxOfZeros(Fraction(depth));
    }
  }

  /** Above the horizon, V1 fails as soon as R(x) does, with a ValueError
      when y does not have one entry per power level, and without actions
      with the errors of np.dot and max on empty operands. */
  lemma TransmitterValueErrors(md: Model, s: State, y: seq<real>, depth: nat)
    requires depth < HORIZON
    ensures RewardMatrix(md, s).Err? ==> TransmitterValue(md, s, y, depth) == Err(RewardMatrix(md, s).error)
    ensures RewardMatrix(md, s).Ok? && md.actionSpace != [] && |y| != Cols(md) ==>
      TransmitterValue(md, s, y, depth) == Err(ValueError)
    ensures md.actionSpace == [] ==>
      TransmitterValue(md, s, y, depth).Err? && (TransmitterValue(md, s, y, depth).error == TypeError <==> y == [])
  {
    Horizon(depth);
  }

  /** Above the horizon, V2 raises KeyError for a state f has no row for,
      and a ValueError when the row does not have one entry per action. */
  lemma JammerValueErrors(md: Model, s: State, f: Table, depth: nat)
    requires depth < HORIZON
    ensures Get(f, s).None? ==> JammerValue(md, s, f, depth) == Err(KeyError)
    ensures (Get(f, s).Some? && RewardMatrix(md, s).Ok? && md.actionSpace != [] &&
             |Get(f, s).value| != |md.actionSpace|) ==> JammerValue(md, s, f, depth) == Err(ValueError)
  {
    Horizon(depth);
  }

  /** v1(state) + v2(state), V1 evaluated first. */
  function StateValue(md: Model, s: State, f: Table, y: seq<real>): Result<real>
  {
    var v1 :- TransmitterValue(md, s, y, 0);
    var v2 :- JammerValue(md, s, f, 0);
    Ok(v1 + v2)
  }

  /** Σ over the model's state space of V1 + V2, the first failure in
      state order being raised. */
  function Total(md: Model, f: Table, y: seq<real>): Result<real>
  {
    var vs :- Collect(seq(|md.stateSpace|, i requires 0 <= i < |md.stateSpace| =>
                            StateValue(md, md.stateSpace[i], f, y)));
    Ok(Sum(vs))
  }

  /** objective_function: the parameters rebuilt from their tuple, the
      strategies read from the vector, then the total above. */
  function Objective(args: ParamTuple, shannon: nat -> real, x: seq<real>): Result<real>
  {
    var p :- New(args, shannon);
    var fy :- Rebuild(p, x);
    var md :- ModelOf(p);
    Total(md, fy.0, fy.1)
  }

  /** The objective fails with the constructor's error, with a
      ZeroDivisionError when m == 0, and with an IndexError when the vector
      is shorter than |S|·|A| + m + 1. */
  lemma ObjectiveErrors(args: ParamTuple, shannon: nat -> real, x: seq<real>)
    ensures New(args, shannon).Err? ==> Objective(args, shannon, x) == Err(New(args, shannon).error)
    ensures New(args, shannon).Ok? && args.m == 0 ==> Objective(args, shannon, x) == Err(ZeroDivisionError)
    ensures (New(args, shannon).Ok? && args.m != 0 &&
             |x| < Cells(ModelOf(New(args, shannon).value).value) + Cols(ModelOf(New(args, shannon).value).value)) ==>
      Objective(args, shannon, x) == Err(IndexError)
  {
    if New(args, shannon).Ok? {
      assert New(args, shannon).value.ConvertToTuple() == args;
    }
  }

  /** With a silent jammer (y all zero) and a transmitter whose every row
      is idle, the total is 0 whenever it is defined. */
  lemma TotalOfIdle(md: Model, f: Table, y: seq<real>)
    requires Zeros(y) && forall i :: 0 <= i < |f| ==> Idle(f[i].1)
    ensures Total(md, f, y).Ok? ==> Total(md, f, y).value == 0.0
  {
    var rs := seq(|md.stateSpace|, i requires 0 <= i < |md.stateSpace| => StateValue(md, md.stateSpace[i], f, y));
    if Collect(rs).Ok? {
      var vs := Collect(rs).value;
      forall i | 0 <= i < |vs| ensures vs[i] == 0.0 {
        var s := md.stateSpace[i];
        assert rs[i] == Ok(vs[i]);
        SilentJammer(md, s, y, 0);
        JammerValueErrors(md, s, f, 0);
        var row := Get(f, s).value;
        var k :| 0 <= k < |f| && f[k] == (s, row);
        IdleTransmitter(md, s, f, 0);
      }
      SumZeros(vs);
    }
  }

  /** In the jammed state "j", the first action of R(x), a stay, applies
      Equation 12 and so evaluates int("j"): V1 raises ValueError. */
  lemma JammedStateRaises(md: Model, y: seq<real>)
    requires md.actionSpace != [] && md.actionSpace[0].kind == Stay && Cols(md) > 0
    ensures TransmitterValue(md, Unknown, y, 0) == Err(ValueError)
  {
    Horizon(0);
    var rows := seq(|md.actionSpace|, i requires 0 <= i < |md.actionSpace| => RewardRow(md, Unknown, md.actionSpace[i]));
    assert rows[0][0] == Reward(md, Unknown, md.actionSpace[0], 0);
    CollectRowsFirstErr(rows, 0, 0);
    assert RewardMatrix(md, Unknown) == Err(ValueError);
  }

  /** objective_function raises for every vector it can read, even with
      the model's two construction defects repaired: the state space starts
      with "j", so V1 of "j" is evaluated first, and there the first stay
      action raises ValueError; with no rates at all, max of a number
      raises TypeError instead. */
  lemma ObjectiveRaises(args: ParamTuple, shannon: nat -> real, x: seq<real>)
    requires New(args, shannon).Ok? && Rebuild(New(args, shannon).value, x).Ok?
    ensures Objective(args, shannon, x) == Err(if args.rates == [] then TypeError else ValueError)
  {
    var p := New(args, shannon).value;
    assert p.ConvertToTuple() == args;
    var md := ModelOf(p).value;
    var fy := Rebuild(p, x).value;
    var rs := seq(|md.stateSpace|, i requires 0 <= i < |md.stateSpace| => StateValue(md, md.stateSpace[i], fy.0, fy.1));
    assert md.stateSpace[0] == Unknown;
    if args.rates != [] {
      assert md.actionSpace[0] == Action(Stay, p.rates[0]);
      JammedStateRaises(md, fy.1);
    } else {
      assert fy.1 == [];
      TransmitterValueErrors(md, Unknown, fy.1, 0);
    }
    CollectFirstErr(rs, 0);
  }

  /** A LinearConstraint: lb <= Σ coeffs[i] · x[i] <= ub. */
  datatype Linear = Linear(coeffs: seq<int>, lb: int, ub: int)

  /** Coefficient 1 on the block [offset, offset + count), 0 elsewhere. */
  function BlockCoeffs(offset: nat, count: nat, vecSize: nat): (c: seq<int>)
    ensures |c| == vecSize
  {
    seq(vecSize, i requires 0 <= i < vecSize => if i >= offset && i - offset < count then 1 else 0)
  }

  /** Coefficient 1 from `offset` on, 0 before. */
  function TailCoeffs(offset: nat, vecSize: nat): (c: seq<int>)
    ensures |c| == vecSize
  {
    seq(vecSize, i requires 0 <= i < vecSize => if i >= offset then 1 else 0)
  }

  /** The constraints create_constraints builds: per state, in state order,
      its transmitter probabilities sum to 1; then the jammer's sum to 1. */
  function Constraints(md: Model, vecSize: nat): (cs: seq<Linear>)
    ensures |cs| == |md.stateSpace| + 1
  {
    seq(|md.stateSpace|, i requires 0 <= i < |md.stateSpace| =>
          Linear(BlockCoeffs(Offset(i, md.actionSpace), |md.actionSpace|, vecSize), 1, 1)) +
    [Linear(TailCoeffs(Cells(md), vecSize), 1, 1)]
  }

  /** create_constraints, with the list it builds returned. */
  method CreateConstraints(md: Model, vecSize: nat) returns (cs: seq<Linear>)
    ensures cs == Constraints(md, vecSize)
  {
    cs := [];
    var actionCount := |md.actionSpace|;
    var vectorOffset := 0;
    var i := 0;
    while i < |md.stateSpace|
      invariant 0 <= i <= |md.stateSpace|
      invariant vectorOffset == Offset(i, md.actionSpace)
      invariant cs == Constraints(md, vecSize)[..i]
    {
      var coeffs := BlockCoeffs(vectorOffset, actionCount, vecSize);
      cs := cs + [Linear(coeffs, 1, 1)];
      vectorOffset := vectorOffset + actionCount;
      i := i + 1;
    }
    cs := cs + [Linear(TailCoeffs(vectorOffset, vecSize), 1, 1)];
  }

  /** The constraint that covers entry k of the vector: the state whose
      block holds it, or the jammer's for the entries past |S|·|A|. */
  function Owner(md: Model, k: nat): nat
  {
    if |md.actionSpace| > 0 && k < Cells(md) then k / |md.actionSpace| else |md.stateSpace|
  }

  /** a < b makes room for a whole block of n between a·n and b·n. */
  lemma {:induction false} MulStep(a: int, b: int, n: nat)
    requires a < b
    ensures a * n + n <= b * n
  {
    if n > 0 {
      MulStep(a, b, n - 1);
      assert a * n == a * (n - 1) + a;
      assert b * n == b * (n - 1) + b;
    }
  }

  /** Integer division locates k in its block of n. */
  lemma DivBlock(q: nat, n: nat, k: nat)
    requires n > 0
    ensures q * n <= k < q * n + n <==> k / n == q
  {
    var d := k / n;
    assert d * n <= k < d * n + n;
    if q * n <= k < q * n + n {
      if d < q {
        MulStep(d, q, n);
      } else if d > q {
        MulStep(q, d, n);
      }
    }
  }

  /** An entry inside the blocks lies in the block of some state. */
  lemma PastCells(md: Model, k: nat)
    requires |md.actionSpace| > 0 && k < Cells(md)
    ensures k / |md.actionSpace| < |md.stateSpace|
  {
    var n := |md.actionSpace|;
    var d := k / n;
    assert d * n <= k;
    if d > |md.stateSpace| {
      MulStep(|md.stateSpace|, d, n);
    }
  }

  /** The constraints partition the vector: every coefficient is 0 or 1,
      entry k has coefficient 1 in exactly one constraint, its owner's, and
      every constraint asks for a sum of exactly 1. */
  lemma ConstraintsPartition(md: Model, vecSize: nat, i: nat, k: nat)
    requires i <= |md.stateSpace| && k < vecSize
    ensures var c := Constraints(md, vecSize)[i];
      c.lb == 1 && c.ub == 1 && (c.coeffs[k] == 0 || c.coeffs[k] == 1)
    ensures Constraints(md, vecSize)[i].coeffs[k] == 1 <==> i == Owner(md, k)
  {
    var n := |md.actionSpace|;
    if i < |md.stateSpace| {
      assert Constraints(md, vecSize)[i].coeffs == BlockCoeffs(i * n, n, vecSize);
      if n > 0 {
        DivBlock(i, n, k);
        MulStep(i, |md.stateSpace|, n);
      }
    } else {
      assert Constraints(md, vecSize)[i].coeffs == TailCoeffs(Cells(md), vecSize);
      if n > 0 && k < Cells(md) {
        PastCells(md, k);
      }
    }
  }

  /** create_constraints as written builds its list and falls off the end:
      the optimizer receives None instead of the constraints. */
  function ConstraintsAsWritten(md: Model, vecSize: nat): (r: Option<seq<Linear>>)
    ensures r != Some(Constraints(md, vecSize))
  {
    None
  }

  /** The box (0, 1) on every entry of the vector. */
  function Bounds(vecSize: nat): seq<(int, int)>
  {
    seq(vecSize, _ => (0, 1))
  }

  /** create_bounds, with the list it builds returned: one pair (0, 1) per
      entry of the vector. */
  method CreateBounds(vecSize: nat) returns (bounds: seq<(int, int)>)
    ensures |bounds| == vecSize && forall i :: 0 <= i < vecSize ==> bounds[i] == (0, 1)
  {
    bounds := [];
    var k := 0;
    while k < vecSize
      invariant 0 <= k <= vecSize
      invariant |bounds| == k && forall i :: 0 <= i < k ==> bounds[i] == (0, 1)
    {
      bounds := bounds + [(0, 1)];
      k := k + 1;
    }
  }

  /** create_bounds as written returns None: the optimizer receives no
      bounds. */
  function BoundsAsWritten(vecSize: nat): (r: Option<seq<(int, int)>>)
    ensures r != Some(Bounds(vecSize))
  {
    None
  }

  /** [1 / rate_count for _ in range(rate_count)] with rate_count = m + 1:
      empty, with no division at all, when rate_count <= 0. */
  function UniformJammer(m: int): (y: seq<real>)
    ensures |y| == (if m + 1 > 0 then m + 1 else 0)
    ensures forall i :: 0 <= i < |y| ==> y[i] == 1.0 / (m + 1) as real
  {
    if m + 1 <= 0 then [] else seq(m + 1, _ => 1.0 / (m + 1) as real)
  }

  /** The uniform jammer strategy is a probability distribution over the
      m + 1 power levels. */
  lemma UniformJammerSums(m: int)
    requires m + 1 > 0
    ensures Sum(UniformJammer(m)) == 1.0
    ensures forall i :: 0 <= i < |UniformJammer(m)| ==> 0.0 < UniformJammer(m)[i] <= 1.0
  {
    var c := (m + 1) as real;
    SumConstant(UniformJammer(m), 1.0 / c);
    assert c * (1.0 / c) == 1.0;
  }

  /** create_random_strategies: a fresh Q-table over the model's states and
      actions with epsilon set to 1, and the uniform jammer strategy. */
  method CreateRandomStrategies(p: Parameters, md: Model) returns (q: QTable, y: seq<real>)
    ensures fresh(q) && q.values == FreshTable(md.stateSpace, md.actionSpace) && q.epsilon == Some(1.0)
    ensures y == UniformJammer(p.m)
  {
    q := new QTable(md.stateSpace, md.actionSpace);
    q.epsilon := Some(1.0);
    var rateCount := p.m + 1;
    y := if rateCount <= 0 then [] else seq(rateCount, _ => 1.0 / rateCount as real);
  }
}
