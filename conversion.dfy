/** The strategy pair (f, y) of optimize.py as one flat vector and back:
    convert_strategies_to_list and convert_list_to_strategies, and the two
    round trips between them. */
module Conversion {
  import opened Wrappers
  import opened Numeric
  import opened Dicts
  import opened Params
  import opened GameModel
  import opened Markov

  /** Blocks of `cols` entries, one per row, fit in `rows * cols`. */
  lemma BlockFits(i: nat, rows: nat, cols: nat)
    requires i < rows
    ensures i * cols + cols <= rows * cols
  {
    assert (i + 1) * cols <= rows * cols;
  }

  /** The transmitter strategy f, state by state and action by action in
      dict order, as convert_strategies_to_list emits it. */
  function Flatten(f: Table): seq<real>
  {
    if f == [] then [] else Flatten(f[..|f| - 1]) + Values(f[|f| - 1].1)
  }

  /** The number of entries of f: Σ over states of |f[state]|. */
  function Entries(f: Table): nat
  {
    if f == [] then 0 else Entries(f[..|f| - 1]) + |f[|f| - 1].1|
  }

  lemma {:induction false} FlattenAppend(f: Table, g: Table)
    ensures Flatten(f + g) == Flatten(f) + Flatten(g)
  {
    if g == [] {
      assert f + g == f;
    } else {
      var front, last := g[..|g| - 1], g[|g| - 1];
      assert (f + g)[..|f + g| - 1] == f + front;
      FlattenAppend(f, front);
      assert Flatten(f + g) == Flatten(f + front) + Values(last.1);
      assert Flatten(g) == Flatten(front) + Values(last.1);
      assert (Flatten(f) + Flatten(front)) + Values(last.1) == Flatten(f) + (Flatten(front) + Values(last.1));
    }
  }

  /** The flat vector has one entry per entry of f. */
  lemma {:induction false} FlattenLength(f: Table)
    ensures |Flatten(f)| == Entries(f)
  {
    if f != [] {
      FlattenLength(f[..|f| - 1]);
    }
  }

  /** When every row has `cols` entries, f has |f| * cols of them. */
  lemma {:induction false} EntriesOfRectangular(f: Table, cols: nat)
    requires forall i :: 0 <= i < |f| ==> |f[i].1| == cols
    ensures Entries(f) == |f| * cols
  {
    if f != [] {
      EntriesOfRectangular(f[..|f| - 1], cols);
    }
  }

  lemma ValuesStep(row: Dict<Action, real>, j: nat)
    requires j < |row|
    ensures Values(row[..j + 1]) == Values(row[..j]) + [row[j].1]
  {
  }

  /** One more state of f flattens to one more row of values. */
  lemma FlattenStep(f: Table, i: nat)
    requires i < |f|
    ensures Flatten(f[..i + 1]) == Flatten(f[..i]) + Values(f[i].1)
  {
    assert f[..i + 1][..i] == f[..i];
  }

  /** convert_strategies_to_list: f's values, then y's. Iterating a dict
      whose keys are all different and looking each key up yields the
      value stored at that position, which is what the loops read. */
  method ConvertStrategiesToList(f: Table, y: seq<real>) returns (v: seq<real>)
    ensures v == Flatten(f) + y
    ensures |v| == Entries(f) + |y|
  {
    v := [];
    var i := 0;
    while i < |f|
      invariant 0 <= i <= |f|
      invariant v == Flatten(f[..i])
    {
      var row := f[i].1;
      var j := 0;
      while j < |row|
        invariant 0 <= j <= |row|
        invariant v == Flatten(f[..i]) + Values(row[..j])
      {
        ValuesStep(row, j);
        v := v + [row[j].1];
        j := j + 1;
      }
      assert row[..j] == row;
      FlattenStep(f, i);
      i := i + 1;
    }
    assert f[..i] == f;
    var k := 0;
    while k < |y|
      invariant 0 <= k <= |y|
      invariant v == Flatten(f) + y[..k]
    {
      v := v + [y[k]];
      k := k + 1;
    }
    assert y[..k] == y;
    FlattenLength(f);
  }

  /** The pairs (action, v[offset + j]) that fill one row of f. */
  function RowPairs(actions: seq<Action>, v: seq<real>, offset: nat): (ps: seq<(Action, real)>)
    requires offset + |actions| <= |v|
    ensures |ps| == |actions|
  {
    seq(|actions|, j requires 0 <= j < |actions| => (actions[j], v[offset + j]))
  }

  /** f[state] after its inner loop: every action assigned in turn. */
  function RowOf(actions: seq<Action>, v: seq<real>, offset: nat): Dict<Action, real>
    requires offset + |actions| <= |v|
  {
    FromPairs(RowPairs(actions, v, offset))
  }

  /** The pairs (state, row) that fill f, row i starting at i * |actions|. */
  function StrategyPairs(states: seq<State>, actions: seq<Action>, v: seq<real>): (ps: seq<(State, Dict<Action, real>)>)
    requires |states| * |actions| <= |v|
    ensures |ps| == |states|
  {
    assert forall i :: 0 <= i < |states| ==> Offset(i, actions) + |actions| <= |v| by {
      forall i | 0 <= i < |states| ensures Offset(i, actions) + |actions| <= |v| {
        BlockFits(i, |states|, |actions|);
      }
    }
    seq(|states|, i requires 0 <= i < |states| => (states[i], RowOf(actions, v, Offset(i, actions))))
  }

  /** Where row i of f starts in the flat vector. */
  function Offset(i: nat, actions: seq<Action>): nat
  {
    i * |actions|
  }

  /** The number of entries of f for a model: |S| · |A|. */
  function Cells(md: Model): nat
  {
    |md.stateSpace| * |md.actionSpace|
  }

  /** f as convert_list_to_strategies builds it. */
  function StrategyOf(states: seq<State>, actions: seq<Action>, v: seq<real>): Table
    requires |states| * |actions| <= |v|
  {
    FromPairs(StrategyPairs(states, actions, v))
  }

  /** The reading of a vector against a model's state and action spaces:
      f from the first |S|·|A| entries, then y from the next m + 1; an
      IndexError when the vector is shorter. Entries past those are ignored. */
  function ReadStrategies(md: Model, v: seq<real>): (r: Result<(Table, seq<real>)>)
    ensures r.Err? <==> |v| < Cells(md) + Cols(md)
    ensures r.Err? ==> r.error == IndexError
    ensures r.Ok? ==> r.value.1 == v[Cells(md)..Cells(md) + Cols(md)]
  {
    if |v| < Cells(md) + Cols(md) then Err(IndexError)
    else Ok((StrategyOf(md.stateSpace, md.actionSpace, v), v[Cells(md)..Cells(md) + Cols(md)]))
  }

  /** convert_list_to_strategies: the model of the parameters (a
      ZeroDivisionError when m == 0), then the reading above. */
  function Rebuild(p: Parameters, v: seq<real>): (r: Result<(Table, seq<real>)>)
    ensures ModelOf(p).Err? ==> r == Err(ZeroDivisionError)
    ensures ModelOf(p).Ok? ==> r == ReadStrategies(ModelOf(p).value, v)
  {
    var md :- ModelOf(p);
    ReadStrategies(md, v)
  }

  /** Assigning one more action extends the row by that assignment. */
  lemma RowStep(actions: seq<Action>, v: seq<real>, offset: nat, aj: nat)
    requires aj < |actions| && offset + aj + 1 <= |v|
    ensures FromPairs(RowPairs(actions[..aj + 1], v, offset)) ==
      Put(FromPairs(RowPairs(actions[..aj], v, offset)), actions[aj], v[offset + aj])
  {
    var before := RowPairs(actions[..aj], v, offset);
    var after := RowPairs(actions[..aj + 1], v, offset);
    assert after[..|after| - 1] == before;
    assert after[|after| - 1] == (actions[aj], v[offset + aj]);
  }

  /** Filling one more state extends f by that state's row. */
  lemma StrategyStep(states: seq<State>, actions: seq<Action>, v: seq<real>, si: nat)
    requires si < |states| && Offset(si, actions) + |actions| <= |v|
    ensures (si + 1) * |actions| <= |v| && si * |actions| <= |v|
    ensures FromPairs(StrategyPairs(states[..si + 1], actions, v)) ==
      Put(FromPairs(StrategyPairs(states[..si], actions, v)), states[si], RowOf(actions, v, Offset(si, actions)))
  {
    assert (si + 1) * |actions| == Offset(si, actions) + |actions|;
    var before := StrategyPairs(states[..si], actions, v);
    var after := StrategyPairs(states[..si + 1], actions, v);
    assert after[..|after| - 1] == before;
  }

  /** The inner loop of convert_list_to_strategies: f[state][action] =
      vector[i] for each action in turn, from i == offset. */
  method ReadRow(actions: seq<Action>, v: seq<real>, offset: nat) returns (r: Result<Dict<Action, real>>)
    requires offset <= |v|
    ensures r.Err? <==> offset + |actions| > |v|
    ensures r.Err? ==> r.error == IndexError
    ensures r.Ok? ==> r.value == RowOf(actions, v, offset)
  {
    var row: Dict<Action, real> := [];
    var aj := 0;
    while aj < |actions|
      invariant 0 <= aj <= |actions| && offset + aj <= |v|
      invariant row == FromPairs(RowPairs(actions[..aj], v, offset))
    {
      if offset + aj >= |v| {
        return Err(IndexError);
      }
      RowStep(actions, v, offset, aj);
      row := Put(row, actions[aj], v[offset + aj]);
      aj := aj + 1;
    }
    assert actions[..aj] == actions;
    r := Ok(row);
  }

  /** The last loop of convert_list_to_strategies: y.append(vector[i]) for
      `count` more entries, from i == start. */
  method ReadJammer(v: seq<real>, start: nat, count: nat) returns (r: Result<seq<real>>)
    requires start <= |v|
    ensures r.Err? <==> start + count > |v|
    ensures r.Err? ==> r.error == IndexError
    ensures r.Ok? ==> r.value == v[start..start + count]
  {
    var y: seq<real> := [];
    var k := 0;
    while k < count
      invariant 0 <= k <= count && start + k <= |v|
      invariant y == v[start..start + k]
    {
      if start + k >= |v| {
        return Err(IndexError);
      }
      y := y + [v[start + k]];
      k := k + 1;
    }
    r := Ok(y);
  }

  lemma RowOverflow(si: nat, states: seq<State>, actions: seq<Action>, v: seq<real>)
    requires si < |states| && Offset(si, actions) + |actions| > |v|
    ensures |states| * |actions| > |v|
  {
    BlockFits(si, |states|, |actions|);
  }

  /** One pass of the outer loop of convert_list_to_strategies: reads the
      row of states[si] and assigns it in f. */
  method FillState(f: Table, states: seq<State>, actions: seq<Action>, v: seq<real>, si: nat)
    returns (r: Result<Table>)
    requires si < |states| && Offset(si, actions) <= |v|
    requires f == FromPairs(StrategyPairs(states[..si], actions, v))
    ensures r.Err? <==> Offset(si, actions) + |actions| > |v|
    ensures r.Err? ==> r.error == IndexError
    ensures r.Ok? ==> (Offset(si + 1, actions) <= |v| &&
      r.value == FromPairs(StrategyPairs(states[..si + 1], actions, v)))
  {
    var row := ReadRow(actions, v, Offset(si, actions));
    if row.Err? {
      return Err(IndexError);
    }
    StrategyStep(states, actions, v, si);
    r := Ok(Put(f, states[si], row.value));
  }

  /** The nested loops of convert_list_to_strategies that fill f. */
  method FillTransmitter(states: seq<State>, actions: seq<Action>, v: seq<real>) returns (r: Result<Table>)
    ensures r.Err? <==> |states| * |actions| > |v|
    ensures r.Err? ==> r.error == IndexError
    ensures r.Ok? ==> r.value == StrategyOf(states, actions, v)
  {
    var f: Table := [];
    var si := 0;
    while si < |states|
      invariant 0 <= si <= |states| && Offset(si, actions) <= |v|
      invariant f == FromPairs(StrategyPairs(states[..si], actions, v))
    {
      var next := FillState(f, states, actions, v, si);
      if next.Err? {
        RowOverflow(si, states, actions, v);
        return Err(IndexError);
      }
      f := next.value;
      si := si + 1;
    }
    assert states[..si] == states;
    r := Ok(f);
  }

  /** The loops of convert_list_to_strategies over a model's spaces. */
  method FillStrategies(md: Model, v: seq<real>) returns (r: Result<(Table, seq<real>)>)
    ensures r == ReadStrategies(md, v)
  {
    var f := FillTransmitter(md.stateSpace, md.actionSpace, v);
    if f.Err? {
      return Err(IndexError);
    }
    var y := ReadJammer(v, Cells(md), Cols(md));
    if y.Err? {
      return Err(IndexError);
    }
    r := Ok((f.value, y.value));
  }

  /** convert_list_to_strategies: build the model, then fill f and y,
      reading the vector through a running index. */
  method ConvertListToStrategies(p: Parameters, v: seq<real>) returns (r: Result<(Table, seq<real>)>)
    ensures r == Rebuild(p, v)
  {
    var built := ModelOf(p);
    if built.Err? {
      return Err(built.error);
    }
    r := FillStrategies(built.value, v);
  }

  /** f is keyed by `states` in that order and each row by `actions` in
      that order, as the Q-table and the rebuilt strategy are. */
  predicate Shaped(f: Table, states: seq<State>, actions: seq<Action>)
  {
    |f| == |states| &&
    (forall i :: 0 <= i < |f| ==> f[i].0 == states[i] && |f[i].1| == |actions|) &&
    (forall i, j :: 0 <= i < |f| && 0 <= j < |f[i].1| ==> f[i].1[j].0 == actions[j])
  }

  /** Entry j of row i of a rectangular f sits at i * cols + j of the flat
      vector. */
  lemma {:induction false} FlattenAt(f: Table, cols: nat, i: nat, j: nat)
    requires forall h :: 0 <= h < |f| ==> |f[h].1| == cols
    requires i < |f| && j < cols
    ensures i * cols + j < |Flatten(f)| && Flatten(f)[i * cols + j] == f[i].1[j].1
  {
    var n := |f| - 1;
    var prefix := f[..n];
    FlattenLength(prefix);
    EntriesOfRectangular(prefix, cols);
    FlattenLength(f);
    EntriesOfRectangular(f, cols);
    if i < n {
      FlattenAt(prefix, cols, i, j);
      BlockFits(i, n, cols);
    } else {
      assert Flatten(f) == Flatten(prefix) + Values(f[n].1);
    }
  }

  /** Over distinct actions the row dict is exactly its pairs. */
  lemma RowOfDistinct(actions: seq<Action>, v: seq<real>, offset: nat)
    requires Distinct(actions) && offset + |actions| <= |v|
    ensures RowOf(actions, v, offset) == RowPairs(actions, v, offset)
  {
    var ps := RowPairs(actions, v, offset);
    assert UniqueKeys(ps);
    FromPairsUnique(ps);
  }

  /** Over distinct states the strategy dict is exactly its pairs. */
  lemma StrategyOfDistinct(states: seq<State>, actions: seq<Action>, v: seq<real>)
    requires Distinct(states) && |states| * |actions| <= |v|
    ensures StrategyOf(states, actions, v) == StrategyPairs(states, actions, v)
  {
    var ps := StrategyPairs(states, actions, v);
    assert UniqueKeys(ps);
    FromPairsUnique(ps);
  }

  /** Row i of a rectangular f lies at i * cols .. i * cols + cols of
      Flatten(f) + y. */
  lemma FlatRow(f: Table, cols: nat, y: seq<real>, i: nat)
    requires forall h :: 0 <= h < |f| ==> |f[h].1| == cols
    requires i < |f|
    ensures i * cols + cols <= |Flatten(f) + y|
    ensures forall j :: 0 <= j < cols ==> (Flatten(f) + y)[i * cols + j] == f[i].1[j].1
  {
    FlattenLength(f);
    EntriesOfRectangular(f, cols);
    BlockFits(i, |f|, cols);
    forall j | 0 <= j < cols ensures (Flatten(f) + y)[i * cols + j] == f[i].1[j].1 {
      FlattenAt(f, cols, i, j);
    }
  }

  /** A row read from where a shaped f's row i was written is that row. */
  lemma RowReadsBack(f: Table, states: seq<State>, actions: seq<Action>, v: seq<real>, i: nat)
    requires Distinct(actions) && Shaped(f, states, actions) && i < |f|
    requires i * |actions| + |actions| <= |v|
    requires forall j :: 0 <= j < |actions| ==> v[i * |actions| + j] == f[i].1[j].1
    ensures RowOf(actions, v, Offset(i, actions)) == f[i].1
  {
    RowOfDistinct(actions, v, Offset(i, actions));
  }

  /** Pair i read back from Flatten(f) + y is f's pair i. */
  lemma PairReadsBack(f: Table, states: seq<State>, actions: seq<Action>, y: seq<real>, i: nat)
    requires Distinct(actions) && Shaped(f, states, actions) && i < |f|
    requires |states| * |actions| <= |Flatten(f) + y|
    ensures StrategyPairs(states, actions, Flatten(f) + y)[i] == f[i]
  {
    FlatRow(f, |actions|, y, i);
    RowReadsBack(f, states, actions, Flatten(f) + y, i);
  }

  /** Reading the first |S|·|A| entries of Flatten(f) + y back gives f. */
  lemma StrategyReadsBack(f: Table, states: seq<State>, actions: seq<Action>, y: seq<real>)
    requires Distinct(states) && Distinct(actions) && Shaped(f, states, actions)
    ensures |states| * |actions| <= |Flatten(f) + y|
    ensures StrategyOf(states, actions, Flatten(f) + y) == f
  {
    var v := Flatten(f) + y;
    FlattenLength(f);
    EntriesOfRectangular(f, |actions|);
    StrategyOfDistinct(states, actions, v);
    forall i | 0 <= i < |f| ensures StrategyPairs(states, actions, v)[i] == f[i] {
      PairReadsBack(f, states, actions, y, i);
    }
  }

  /** The values of a row's pairs are the vector slice it was read from. */
  lemma RowPairsValues(actions: seq<Action>, v: seq<real>, offset: nat)
    requires offset + |actions| <= |v|
    ensures Values(RowPairs(actions, v, offset)) == v[offset..offset + |actions|]
  {
    var ps := RowPairs(actions, v, offset);
    forall j | 0 <= j < |actions| ensures Values(ps)[j] == v[offset..offset + |actions|][j] {
      assert ps[j] == (actions[j], v[offset + j]);
    }
  }

  /** The values of a row read from v over distinct actions are the vector
      slice it was read from. */
  lemma RowValues(actions: seq<Action>, v: seq<real>, offset: nat)
    requires Distinct(actions) && offset + |actions| <= |v|
    ensures Values(RowOf(actions, v, offset)) == v[offset..offset + |actions|]
  {
    RowOfDistinct(actions, v, offset);
    RowPairsValues(actions, v, offset);
  }

  /** Rows 0..n of f, read from v, are rows 0..n-1 and then row n. */
  lemma PairsSnoc(states: seq<State>, actions: seq<Action>, v: seq<real>, n: nat)
    requires n < |states| && (n + 1) * |actions| <= |v|
    ensures n * |actions| <= |v| && Offset(n, actions) + |actions| <= |v|
    ensures StrategyPairs(states[..n + 1], actions, v) ==
      StrategyPairs(states[..n], actions, v) + [(states[n], RowOf(actions, v, Offset(n, actions)))]
  {
    assert (n + 1) * |actions| == n * |actions| + |actions|;
    var before := StrategyPairs(states[..n], actions, v);
    var after := StrategyPairs(states[..n + 1], actions, v);
    assert after == before + [after[n]];
  }

  /** Flattening one more row read from v appends that row's slice of v. */
  lemma FlattenSnoc(states: seq<State>, actions: seq<Action>, v: seq<real>, n: nat)
    requires Distinct(actions) && n < |states| && (n + 1) * |actions| <= |v|
    ensures n * |actions| + |actions| <= |v|
    ensures Flatten(StrategyPairs(states[..n + 1], actions, v)) ==
      Flatten(StrategyPairs(states[..n], actions, v)) + v[n * |actions|..n * |actions| + |actions|]
  {
    PairsSnoc(states, actions, v, n);
    var row := RowOf(actions, v, Offset(n, actions));
    RowValues(actions, v, Offset(n, actions));
    FlattenAppend(StrategyPairs(states[..n], actions, v), [(states[n], row)]);
    assert Flatten([(states[n], row)]) == Values(row);
  }

  /** Flattening the first n rows read from v gives v's first n · |A| entries. */
  lemma {:induction false} FlattenPrefix(states: seq<State>, actions: seq<Action>, v: seq<real>, n: nat)
    requires Distinct(actions) && n <= |states| && n * |actions| <= |v|
    ensures Flatten(StrategyPairs(states[..n], actions, v)) == v[..n * |actions|]
  {
    if n == 0 {
      assert StrategyPairs(states[..n], actions, v) == [];
    } else {
      var k, c := n - 1, |actions|;
      SuccTimes(k, c);
      FlattenPrefix(states, actions, v, k);
      FlattenSnoc(states, actions, v, k);
      PrefixJoin(v, k * c, n * c);
    }
  }

  lemma SuccTimes(k: nat, c: nat)
    ensures (k + 1) * c == k * c + c
  {
  }

  /** A prefix of v followed by the next slice of v is the longer prefix. */
  lemma PrefixJoin(v: seq<real>, a: nat, b: nat)
    requires a <= b <= |v|
    ensures v[..a] + v[a..b] == v[..b]
  {
  }

  /** Flattening f rebuilt from v gives back v's first |S|·|A| entries. */
  lemma StrategyFlattensBack(states: seq<State>, actions: seq<Action>, v: seq<real>)
    requires Distinct(states) && Distinct(actions) && |states| * |actions| <= |v|
    ensures Flatten(StrategyOf(states, actions, v)) == v[..|states| * |actions|]
  {
    StrategyOfDistinct(states, actions, v);
    FlattenPrefix(states, actions, v, |states|);
    assert states[..|states|] == states;
  }

  /** A row read from v over distinct actions is keyed by them in order. */
  lemma RowShaped(actions: seq<Action>, v: seq<real>, offset: nat)
    requires Distinct(actions) && offset + |actions| <= |v|
    ensures |RowOf(actions, v, offset)| == |actions|
    ensures forall j :: 0 <= j < |actions| ==> RowOf(actions, v, offset)[j].0 == actions[j]
  {
    RowOfDistinct(actions, v, offset);
  }

  /** A strategy read from v over distinct states and actions is shaped by
      them. */
  lemma StrategyShaped(states: seq<State>, actions: seq<Action>, v: seq<real>)
    requires Distinct(states) && Distinct(actions) && |states| * |actions| <= |v|
    ensures Shaped(StrategyOf(states, actions, v), states, actions)
  {
    StrategyOfDistinct(states, actions, v);
    var ps := StrategyPairs(states, actions, v);
    forall i | 0 <= i < |ps|
      ensures ps[i].0 == states[i] && |ps[i].1| == |actions|
      ensures forall j :: 0 <= j < |ps[i].1| ==> ps[i].1[j].0 == actions[j]
    {
      BlockFits(i, |states|, |actions|);
      RowShaped(actions, v, Offset(i, actions));
    }
  }

  /** A shaped f flattens to |S|·|A| entries. */
  lemma ShapedLength(f: Table, states: seq<State>, actions: seq<Action>)
    requires Shaped(f, states, actions)
    ensures |Flatten(f)| == |states| * |actions|
  {
    FlattenLength(f);
    EntriesOfRectangular(f, |actions|);
  }

  /** Over a model whose states and actions are distinct, reading back the
      flattened (f, y) of the model's shape gives (f, y). */
  lemma ReadsBack(md: Model, f: Table, y: seq<real>)
    requires Distinct(md.stateSpace) && Distinct(md.actionSpace)
    requires Shaped(f, md.stateSpace, md.actionSpace) && |y| == Cols(md)
    ensures ReadStrategies(md, Flatten(f) + y) == Ok((f, y))
  {
    var v, n := Flatten(f) + y, Cells(md);
    ShapedLength(f, md.stateSpace, md.actionSpace);
    ReadStrategiesOk(md, v);
    StrategyReadsBack(f, md.stateSpace, md.actionSpace, y);
    TailSlice(Flatten(f), y);
  }

  lemma ReadStrategiesOk(md: Model, v: seq<real>)
    requires Cells(md) + Cols(md) <= |v|
    ensures ReadStrategies(md, v) ==
      Ok((StrategyOf(md.stateSpace, md.actionSpace, v), v[Cells(md)..Cells(md) + Cols(md)]))
  {
  }

  /** The entries after a prefix are the suffix. */
  lemma TailSlice(a: seq<real>, b: seq<real>)
    ensures (a + b)[|a|..|a| + |b|] == b
  {
  }

  /** Over a model whose states and actions are distinct, flattening what is
      read from a vector of exactly |S|·|A| + m + 1 entries gives the vector;
      the rebuilt f has the model's shape. */
  lemma FlattensBack(md: Model, v: seq<real>)
    requires Distinct(md.stateSpace) && Distinct(md.actionSpace)
    requires |v| == Cells(md) + Cols(md)
    ensures ReadStrategies(md, v).Ok?
    ensures Shaped(ReadStrategies(md, v).value.0, md.stateSpace, md.actionSpace)
    ensures Flatten(ReadStrategies(md, v).value.0) + ReadStrategies(md, v).value.1 == v
  {
    StrategyFlattensBack(md.stateSpace, md.actionSpace, v);
    StrategyShaped(md.stateSpace, md.actionSpace, v);
    SliceJoin(v, Cells(md));
  }

  /** A vector is its first k entries followed by the rest. */
  lemma SliceJoin(v: seq<real>, k: nat)
    requires k <= |v|
    ensures v[..k] + v[k..|v|] == v
  {
  }

  /** The model of parameters with m != 0 and distinct rates has distinct
      states and distinct actions. */
  lemma ModelDistinct(p: Parameters)
    requires p.m != 0 && Distinct(p.rates)
    ensures Distinct(ModelOf(p).value.stateSpace) && Distinct(ModelOf(p).value.actionSpace)
  {
    ValidStateSpace(ModelOf(p).value);
    ActionSpaceDistinct(p);
  }

  /** Round trip: rebuilding the flattened (f, y) gives (f, y) back, when f
      is keyed by the state space and each row by the action space, in
      order, and y has m + 1 entries (unit_tests.py, test_convert_strategies). */
  lemma RoundTrip(p: Parameters, f: Table, y: seq<real>)
    requires p.m != 0 && Distinct(p.rates)
    requires Shaped(f, ModelOf(p).value.stateSpace, ModelOf(p).value.actionSpace)
    requires |y| == Cols(ModelOf(p).value)
    ensures Rebuild(p, Flatten(f) + y) == Ok((f, y))
  {
    ModelDistinct(p);
    ReadsBack(ModelOf(p).value, f, y);
  }

  /** Reverse round trip: a vector of exactly |S|·|A| + m + 1 entries is
      rebuilt into a shaped (f, y) that flattens back to it. */
  lemma ReverseRoundTrip(p: Parameters, v: seq<real>)
    requires p.m != 0 && Distinct(p.rates)
    requires |v| == Cells(ModelOf(p).value) + Cols(ModelOf(p).value)
    ensures Rebuild(p, v).Ok?
    ensures Shaped(Rebuild(p, v).value.0, ModelOf(p).value.stateSpace, ModelOf(p).value.actionSpace)
    ensures Flatten(Rebuild(p, v).value.0) + Rebuild(p, v).value.1 == v
  {
    ModelDistinct(p);
    FlattensBack(ModelOf(p).value, v);
  }
}
