/** The demonstration strategies of unit_tests.py: a jammer that always
    uses power index 1, and a transmitter that stays at rate m outside the
    jammed state and hops to rate m from it. Actions are named by their
    rate, so the transmitter's rows only put weight on an action when m is
    itself one of the rates. */
module Demo {
  import opened Wrappers
  import opened Numeric
  import opened Dicts
  import opened Params
  import opened GameModel
  import opened Markov
  import opened Conversion

  /** [0, 1] followed by m - 1 zeros (none when m - 1 <= 0). */
  function DemoJammer(m: int): seq<real>
  {
    [0.0, 1.0] + seq(if m - 1 > 0 then m - 1 else 0, _ => 0.0)
  }

  /** create_demo_jammer_strategy */
  method CreateDemoJammerStrategy(md: Model) returns (y: seq<real>)
    ensures y == DemoJammer(md.params.m)
  {
    y := [0.0, 1.0];
    var k := 0;
    var count := if md.params.m - 1 > 0 then md.params.m - 1 else 0;
    while k < count
      invariant 0 <= k <= count
      invariant y == [0.0, 1.0] + seq(k, _ => 0.0)
    {
      y := y + [0.0];
      k := k + 1;
    }
  }

  /** The demo jammer always picks power index 1: it has m + 1 entries for
      m >= 1 (2 otherwise), a single 1 at index 1, and sums to 1. */
  lemma DemoJammerShape(m: int)
    ensures |DemoJammer(m)| == (if m >= 1 then m + 1 else 2)
    ensures DemoJammer(m)[1] == 1.0
    ensures forall i :: 0 <= i < |DemoJammer(m)| && i != 1 ==> DemoJammer(m)[i] == 0.0
    ensures Sum(DemoJammer(m)) == 1.0
  {
    var y := DemoJammer(m);
    SumAppend([0.0, 1.0], y[2..]);
    assert y == [0.0, 1.0] + y[2..];
    SumZeros(y[2..]);
  }

  /** The action that gets weight 1 in a state: "s{m}" outside the jammed
      state, "h{m}" in it. */
  function Chosen(s: State, m: int): Action
    requires m >= 0
  {
    if s != Unknown then Action(Stay, m) else Action(Hop, m)
  }

  /** The demo weight of `a` in state `s`: 1 for the chosen action, 0 for
      every other (and 0 throughout when m is negative, since no action
      is named with a negative rate). */
  function DemoValue(s: State, a: Action, m: int): real
  {
    if m >= 0 && a == Chosen(s, m) then 1.0 else 0.0
  }

  /** The pairs assigned to f[state], action by action. */
  function DemoRowPairs(s: State, actions: seq<Action>, m: int): seq<(Action, real)>
  {
    seq(|actions|, j requires 0 <= j < |actions| => (actions[j], DemoValue(s, actions[j], m)))
  }

  /** The pairs assigned to f, state by state. */
  function DemoPairs(md: Model): seq<(State, Dict<Action, real>)>
  {
    seq(|md.stateSpace|, i requires 0 <= i < |md.stateSpace| =>
          (md.stateSpace[i], FromPairs(DemoRowPairs(md.stateSpace[i], md.actionSpace, md.params.m))))
  }

  /** The demo transmitter strategy f. */
  function DemoTransmit(md: Model): Table
  {
    FromPairs(DemoPairs(md))
  }

  /** The inner loop of create_demo_transmit_strategy: f[state] filled
      action by action. */
  method FillDemoRow(state: State, actions: seq<Action>, m: int) returns (row: Dict<Action, real>)
    ensures row == FromPairs(DemoRowPairs(state, actions, m))
  {
    var rowPairs := DemoRowPairs(state, actions, m);
    row := [];
    var j := 0;
    while j < |actions|
      invariant 0 <= j <= |actions|
      invariant row == FromPairs(rowPairs[..j])
    {
      var action := actions[j];
      if state != Unknown {
        if m >= 0 && action == Action(Stay, m) {
          row := Put(row, action, 1.0);
        } else {
          row := Put(row, action, 0.0);
        }
      } else {
        if m >= 0 && action == Action(Hop, m) {
          row := Put(row, action, 1.0);
        } else {
          row := Put(row, action, 0.0);
        }
      }
      assert rowPairs[..j + 1][..j] == rowPairs[..j];
      assert rowPairs[..j + 1][j] == (action, DemoValue(state, action, m));
      j := j + 1;
    }
    assert rowPairs[..j] == rowPairs;
  }

  /** create_demo_transmit_strategy. Each f[state] starts empty and is
      filled in place through the outer dict; building the row first and
      then storing it gives the same dict. */
  method CreateDemoTransmitStrategy(md: Model) returns (f: Table)
    ensures f == DemoTransmit(md)
  {
    var ps := DemoPairs(md);
    f := [];
    var i := 0;
    while i < |md.stateSpace|
      invariant 0 <= i <= |md.stateSpace|
      invariant f == FromPairs(ps[..i])
    {
      var state := md.stateSpace[i];
      var row := FillDemoRow(state, md.actionSpace, md.params.m);
      f := Put(f, state, row);
      assert ps[..i + 1][..i] == ps[..i];
      assert ps[..i + 1][i] == (state, row);
      i := i + 1;
    }
    assert ps[..i] == ps;
  }

  /** Over distinct states and actions, the demo f lists every state in
      order and, for each, every action in order, with its demo weight. */
  lemma DemoTransmitShape(md: Model)
    requires Distinct(md.stateSpace) && Distinct(md.actionSpace)
    ensures Shaped(DemoTransmit(md), md.stateSpace, md.actionSpace)
    ensures forall i, j :: 0 <= i < |md.stateSpace| && 0 <= j < |md.actionSpace| ==>
      DemoTransmit(md)[i].1[j].1 == DemoValue(md.stateSpace[i], md.actionSpace[j], md.params.m)
  {
    var ps := DemoPairs(md);
    forall i | 0 <= i < |ps|
      ensures ps[i].1 == DemoRowPairs(md.stateSpace[i], md.actionSpace, md.params.m)
    {
      FromPairsUnique(DemoRowPairs(md.stateSpace[i], md.actionSpace, md.params.m));
    }
    FromPairsUnique(ps);
  }

  /** A demo row over distinct actions sums to 1 when the chosen action is
      among them, and to 0 otherwise. */
  lemma DemoRowSum(s: State, actions: seq<Action>, m: int)
    requires Distinct(actions)
    ensures Sum(Values(FromPairs(DemoRowPairs(s, actions, m)))) ==
      (if m >= 0 && Chosen(s, m) in actions then 1.0 else 0.0)
  {
    var ps := DemoRowPairs(s, actions, m);
    FromPairsUnique(ps);
    var vs := Values(ps);
    if m >= 0 && Chosen(s, m) in actions {
      var k :| 0 <= k < |actions| && actions[k] == Chosen(s, m);
      SumOneHot(vs, k);
    } else {
      SumOneHot(vs, -1);
    }
  }

  /** Stay and hop actions exist for every rate, so the chosen action is in
      the action space exactly when m is one of the rates. */
  lemma ChosenInActionSpace(p: Parameters, s: State)
    requires p.m >= 0
    ensures Chosen(s, p.m) in ActionSpace(p) <==> p.m as nat in p.rates
  {
    var a := ActionSpace(p);
    if p.m as nat in p.rates {
      var i :| 0 <= i < |p.rates| && p.rates[i] == p.m;
      assert a[i] == Action(Stay, p.m) && a[|p.rates| + i] == Action(Hop, p.m);
    }
    if Chosen(s, p.m) in a {
      var i :| 0 <= i < |a| && a[i] == Chosen(s, p.m);
      if i < |p.rates| {
        assert p.rates[i] == p.m;
      } else {
        assert p.rates[i - |p.rates|] == p.m;
      }
    }
  }

  /** For parameters with m != 0 and distinct rates, each row of the demo
      f is a probability distribution exactly when m is one of the rates,
      and sums to 0 otherwise. */
  lemma DemoRowsSumToOne(p: Parameters, i: nat)
    requires p.m != 0 && Distinct(p.rates)
    requires i < |ModelOf(p).value.stateSpace|
    ensures i < |DemoTransmit(ModelOf(p).value)| &&
      Sum(Values(DemoTransmit(ModelOf(p).value)[i].1)) == (if p.m >= 0 && p.m as nat in p.rates then 1.0 else 0.0)
  {
    var md := ModelOf(p).value;
    ModelDistinct(p);
    FromPairsUnique(DemoPairs(md));
    DemoRowSum(md.stateSpace[i], md.actionSpace, p.m);
    if p.m >= 0 {
      ChosenInActionSpace(p, md.stateSpace[i]);
    }
  }

  /** The default parameters have distinct rates, none of them 7 = m. */
  lemma DefaultRates()
    ensures Distinct(DefaultArgs.rates) && DefaultArgs.m as nat !in DefaultArgs.rates
  {
  }

  /** With the default parameters (m = 7, no rate of 7 Mbps) every entry of
      the demo f is 0. */
  lemma DefaultDemoIdle(shannon: nat -> real)
    requires New(DefaultArgs, shannon).Ok?
    ensures var md := ModelOf(New(DefaultArgs, shannon).value).value;
      forall i, j :: 0 <= i < |DemoTransmit(md)| && 0 <= j < |DemoTransmit(md)[i].1| ==>
        DemoTransmit(md)[i].1[j].1 == 0.0
  {
    var p := New(DefaultArgs, shannon).value;
    assert p.ConvertToTuple() == DefaultArgs;
    DefaultRates();
    var md := ModelOf(p).value;
    ModelDistinct(p);
    DemoTransmitShape(md);
    var f := DemoTransmit(md);
    forall i, j | 0 <= i < |f| && 0 <= j < |f[i].1| ensures f[i].1[j].1 == 0.0 {
      ChosenInActionSpace(p, md.stateSpace[i]);
      assert md.actionSpace[j] in md.actionSpace;
    }
  }

  /** test_convert_strategies: for m >= 1 and distinct rates, rebuilding
      the flattened demo strategies gives them back. */
  lemma DemoRoundTrip(p: Parameters)
    requires p.m >= 1 && Distinct(p.rates)
    ensures var f, y := DemoTransmit(ModelOf(p).value), DemoJammer(p.m);
      Rebuild(p, Flatten(f) + y) == Ok((f, y))
  {
    var md := ModelOf(p).value;
    ModelDistinct(p);
    DemoTransmitShape(md);
    DemoJammerShape(p.m);
    RoundTrip(p, DemoTransmit(md), DemoJammer(p.m));
  }

  /** convert_list_to_strategies applied to a Model, as
      test_convert_strategies calls it. Model(model) keeps the model where
      parameters are expected, so get_state_space reads `k` from a Model,
      which has no such attribute (and the constructor as written fails on
      `self.params` even earlier): an AttributeError either way. */
  function ConvertFromModelAsWritten(md: Model, v: seq<real>): Result<(Table, seq<real>)>
  {
    Err(AttributeError)
  }

  /** As written, the test's call never gives the demo strategies back,
      while passing the parameters does. */
  lemma TestConversionAsWritten(p: Parameters)
    requires p.m >= 1 && Distinct(p.rates)
    ensures var md := ModelOf(p).value;
      var f, y := DemoTransmit(md), DemoJammer(p.m);
      && ConvertFromModelAsWritten(md, Flatten(f) + y) != Ok((f, y))
      && Rebuild(p, Flatten(f) + y) == Ok((f, y))
  {
    DemoRoundTrip(p);
  }

  /** The body of test_convert_strategies: build the demo strategies,
      flatten them, rebuild them, and compare; both comparisons succeed.
      (The test passes the model where the parameters are expected; here
      the model's parameters are passed.) */
  method CompareConversion(p: Parameters) returns (sameF: bool, sameY: bool)
    requires p.m >= 1 && Distinct(p.rates)
    ensures sameF && sameY
  {
    var md := ModelOf(p).value;
    var f := CreateDemoTransmitStrategy(md);
    var y := CreateDemoJammerStrategy(md);
    var v := ConvertStrategiesToList(f, y);
    var r := ConvertListToStrategies(p, v);
    DemoRoundTrip(p);
    sameF := r.Ok? && r.value.0 == f;
    sameY := r.Ok? && r.value.1 == y;
  }
}
