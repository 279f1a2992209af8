/** The Markov game between a frequency-hopping transmitter and a jammer
    (model.py): its state and action spaces, the payoff U of Equation 8, the
    transition kernel P of Equations 9, 11 and 12, the expected reward r and
    the matrices R(x) and T(x).

    States are the strings "j" (the jammer does not know the channel) and
    str(i); actions are "s<rate>" (stay) and "h<rate>" (hop). Since str and
    int are injective on these, they are modelled as datatypes, and an
    action keeps the rate in Mbps that int(action[1:]) parses. */
module GameModel {
  import opened Wrappers
  import opened Numeric
  import opened Params

  datatype State = Unknown | Num(x: nat)

  datatype Kind = Stay | Hop

  datatype Action = Action(kind: Kind, rate: nat)

  /** A Model object: the parameters it was built from and the two spaces. */
  datatype Model = Model(params: Parameters, stateSpace: seq<State>, actionSpace: seq<Action>)

  predicate Distinct<T(==)>(s: seq<T>)
  {
    forall i, j :: 0 <= i < j < |s| ==> s[i] != s[j]
  }

  /** math.floor(a / b) for integers. */
  function FloorDiv(a: int, b: int): int
    requires b != 0
  {
    if b > 0 then a / b else (-a) / (-b)
  }

  lemma FloorDivIsFloor(a: int, b: int)
    requires b != 0
    ensures FloorDiv(a, b) as real <= a as real / b as real < FloorDiv(a, b) as real + 1.0
  {
    if b > 0 {
      EuclideanFloor(a, b);
    } else {
      EuclideanFloor(-a, -b);
      assert a as real / b as real == (-a) as real / (-b) as real;
    }
  }

  /** For a positive divisor, Euclidean division is the floor of the quotient. */
  lemma EuclideanFloor(d: int, e: int)
    requires e > 0
    ensures (d / e) as real <= d as real / e as real < (d / e) as real + 1.0
  {
    var q, m := d / e, d % e;
    assert d == q * e + m && 0 <= m < e;
    assert d as real == q as real * e as real + m as real;
    assert d as real / e as real == q as real + m as real / e as real;
    assert m as real / e as real < 1.0;
  }

  /** The number of numeric states: range(floor(k / m)) is empty when
      floor(k / m) is negative. */
  function NumericStates(p: Parameters): nat
    requires p.m != 0
  {
    if FloorDiv(p.k, p.m) < 0 then 0 else FloorDiv(p.k, p.m)
  }

  /** The states str(0), ..., str(n - 1). */
  function Numbered(n: nat): (r: seq<State>)
    ensures |r| == n && forall i :: 0 <= i < n ==> r[i] == Num(i)
  {
    seq(n, i requires 0 <= i < n => Num(i))
  }

  /** get_state_space: "j" followed by str(0), ..., str(floor(k/m) - 1); a
      ZeroDivisionError when m == 0. */
  function StateSpace(p: Parameters): (r: Result<seq<State>>)
    ensures r.Err? <==> p.m == 0
    ensures r.Err? ==> r.error == ZeroDivisionError
    ensures r.Ok? ==> |r.value| == 1 + NumericStates(p) && r.value[0] == Unknown && Distinct(r.value)
    ensures r.Ok? ==> forall s :: s in r.value <==> s == Unknown || (s.Num? && s.x < FloorDiv(p.k, p.m))
    ensures r.Ok? ==> forall i :: 1 <= i < |r.value| ==> r.value[i] == Num(i - 1)
  {
    if p.m == 0 then Err(ZeroDivisionError)
    else
      NumberedStates(NumericStates(p));
      Ok([Unknown] + Numbered(NumericStates(p)))
  }

  /** "j" followed by str(0), ..., str(n - 1) repeats no state and holds
      exactly "j" and the numbers below n. */
  lemma NumberedStates(n: nat)
    ensures var states := [Unknown] + Numbered(n);
      && states[0] == Unknown && Distinct(states)
      && forall s :: s in states <==> s == Unknown || (s.Num? && s.x < n)
  {
    var states := [Unknown] + Numbered(n);
    forall s: State | s.Num? && s.x < n
      ensures s in states
    {
      assert states[s.x + 1] == s;
    }
  }

  /** get_state_space, as the loop that appends one state at a time. */
  method GetStateSpace(p: Parameters) returns (r: Result<seq<State>>)
    ensures r == StateSpace(p)
  {
    if p.m == 0 {
      return Err(ZeroDivisionError);
    }
    var states := [Unknown];
    var count := FloorDiv(p.k, p.m);
    var i := 0;
    while i < count
      invariant 0 <= i && (count >= 0 ==> i <= count) && (count < 0 ==> i == 0)
      invariant states == [Unknown] + Numbered(i)
    {
      states := states + [Num(i)];
      i := i + 1;
    }
    assert i == NumericStates(p);
    assert states == [Unknown] + Numbered(NumericStates(p));
    r := Ok(states);
  }

  /** get_action_space: every stay action in rate order, then every hop
      action in rate order. */
  function ActionSpace(p: Parameters): (r: seq<Action>)
    ensures |r| == 2 * |p.rates|
    ensures forall i :: 0 <= i < |p.rates| ==>
      r[i] == Action(Stay, p.rates[i]) && r[|p.rates| + i] == Action(Hop, p.rates[i])
  {
    seq(|p.rates|, i requires 0 <= i < |p.rates| => Action(Stay, p.rates[i])) +
    seq(|p.rates|, i requires 0 <= i < |p.rates| => Action(Hop, p.rates[i]))
  }

  /** Actions are named by rate, so two actions coincide exactly when two
      rates do. */
  lemma ActionSpaceDistinct(p: Parameters)
    ensures Distinct(ActionSpace(p)) <==> Distinct(p.rates)
  {
    var a := ActionSpace(p);
    if Distinct(p.rates) {
      forall i, j | 0 <= i < j < |a| ensures a[i] != a[j] {
        var n := |p.rates|;
        if j < n || i >= n {
          var i', j' := if i < n then i else i - n, if j < n then j else j - n;
          assert p.rates[i'] != p.rates[j'];
        }
      }
    }
    if Distinct(a) {
      forall i, j | 0 <= i < j < |p.rates| ensures p.rates[i] != p.rates[j] {
        assert a[i] != a[j];
      }
    }
  }

  /** Model.__init__ as written: `self.params = self.params` reads an
      attribute that was never set, so construction always raises. */
  function ModelAsWritten(p: Parameters): (r: Result<Model>)
    ensures r == Err(AttributeError)
  {
    Err(AttributeError)
  }

  /** Model.__init__ storing its argument, as evidently intended. */
  function ModelOf(p: Parameters): (r: Result<Model>)
    ensures r.Ok? <==> p.m != 0
    ensures r.Err? ==> r.error == ZeroDivisionError
    ensures r.Ok? ==> r.value.params == p && Ok(r.value.stateSpace) == StateSpace(p) &&
                      r.value.actionSpace == ActionSpace(p)
  {
    var states :- StateSpace(p);
    Ok(Model(p, states, ActionSpace(p)))
  }

  /** A model that the corrected constructor produced. */
  predicate Valid(md: Model)
  {
    ModelOf(md.params) == Ok(md)
  }

  /** A valid model's state space starts with "j" and repeats no state. */
  lemma ValidStateSpace(md: Model)
    requires Valid(md)
    ensures |md.stateSpace| >= 1 && md.stateSpace[0] == Unknown && Distinct(md.stateSpace)
  {
  }

  /** The as-written constructor never yields a model, whatever the
      parameters; the corrected one yields one whenever m != 0. */
  lemma ModelAsWrittenNeverBuilds(p: Parameters)
    ensures ModelAsWritten(p).Err? && (p.m != 0 ==> ModelOf(p).Ok?)
  {
  }

  /** Equation 8: get_immediate_transmitter_payoff, U(a, power index, x'). */
  function Payoff(md: Model, a: Action, j: int, next: State): (u: int)
    ensures u in {-md.params.l - md.params.c, a.rate - md.params.c, -md.params.l, a.rate, 0}
  {
    var p := md.params;
    var r := a.rate;
    if next == Unknown && a.kind == Hop && j > p.m - r then -p.l - p.c
    else if next == Num(1) && a.kind == Hop && j <= p.m - r then r - p.c
    else if next == Unknown && a.kind == Stay && j > p.m - r then -p.l
    else if next != Unknown && a.kind == Stay && j <= p.m - r then r
    else 0
  }

  /** Equation 8's asymmetry: a successful hop pays only when the next state
      is exactly "1", a successful stay pays for every next state other than
      "j", and every combination that no case matches pays nothing. */
  lemma PayoffCases(md: Model, a: Action, j: int, next: State)
    ensures a.kind == Hop && j <= md.params.m - a.rate ==>
      Payoff(md, a, j, next) == (if next == Num(1) then a.rate - md.params.c else 0)
    ensures a.kind == Stay && j <= md.params.m - a.rate ==>
      Payoff(md, a, j, next) == (if next != Unknown then a.rate else 0)
    ensures j > md.params.m - a.rate ==>
      Payoff(md, a, j, next) == (if next != Unknown then 0
                                 else if a.kind == Hop then -md.params.l - md.params.c
                                 else -md.params.l)
  {
  }

  /** The state reached when the transmission is not jammed: "1" after a
      hop, str(x + 1) after staying in state x. */
  function Target(s: State, a: Action): State
  {
    if a.kind == Hop || s == Unknown then Num(1) else Num(s.x + 1)
  }

  /** probs["j"] of get_transition_probabilities, with the exceptions its
      expressions raise, in the order Python evaluates them. Equations 9
      (from "j") and 11 (from any other state) are the same formula for a
      hop; Equation 12 covers staying. */
  function JamProbability(md: Model, s: State, a: Action, j: nat): Result<real>
  {
    var p := md.params;
    if a.kind == Hop then
      if j > p.m - a.rate then
        if p.k - 1 == 0 then Err(ZeroDivisionError) else Ok(p.n as real / (p.k - 1) as real)
      else Ok(0.0)
    else if s == Unknown then Err(ValueError)   // int("j")
    else
      var x, r := s.x, a.rate;
      var sinrSingleAttack :- SingleChannelAttackSinr(p, j);
      if p.k - p.n * x == 0 then Err(ZeroDivisionError)
      else
        var pDiscoverNext := p.n as real / (p.k - p.n * x) as real;
        if p.k == 0 then Err(ZeroDivisionError)
        else
          var pSingleChannelAttack := (p.m * x) as real / p.k as real;
          if p.m == 0 then Err(ZeroDivisionError)
          else if (x as real) < p.k as real / p.m as real && j > p.m - r then
            Ok(pDiscoverNext + pSingleChannelAttack)
          else if (x as real) < p.k as real / p.m as real then
            if r >= |p.sinrLimits| then Err(IndexError)   // sinr_limits is indexed by the rate in Mbps
            else if sinrSingleAttack < p.sinrLimits[r] then Ok(pSingleChannelAttack)
            else Ok(0.0)
          else Ok(0.0)
  }

  /** get_transition_probabilities with its missing `return probs` added:
      the dict over the state space, all 0, then probs["j"] set to the jam
      probability and probs[target] to its complement. The two assignments
      may add keys ("1", str(x + 1)) that are not in the state space. */
  function Kernel(md: Model, s: State, a: Action, j: nat): (r: Result<map<State, real>>)
    ensures r.Ok? <==> JamProbability(md, s, a, j).Ok?
    ensures r.Err? ==> r.error == JamProbability(md, s, a, j).error
    ensures r.Ok? ==> forall t :: t in r.value <==> t in md.stateSpace || t == Unknown || t == Target(s, a)
    ensures r.Ok? ==> r.value[Unknown] == JamProbability(md, s, a, j).value &&
                      r.value[Target(s, a)] == 1.0 - r.value[Unknown]
    ensures r.Ok? ==> forall t :: t in r.value && t != Unknown && t != Target(s, a) ==> r.value[t] == 0.0
  {
    var pj :- JamProbability(md, s, a, j);
    var probs := map t | t in md.stateSpace :: 0.0;
    Ok(probs[Unknown := pj][Target(s, a) := 1.0 - pj])
  }

  /** get_transition_probabilities as written: it builds `probs` and falls
      off the end, so the caller receives None (modelled as Ok(None)) unless
      an expression raised first. */
  function TransitionProbabilitiesAsWritten(md: Model, s: State, a: Action, j: nat): (r: Result<Option<map<State, real>>>)
    ensures r.Ok? ==> r.value == None
    ensures r.Err? <==> Kernel(md, s, a, j).Err?
  {
    var _ :- Kernel(md, s, a, j);
    Ok(None)
  }

  /** The stay branch of get_transition_probabilities (Equation 12), with
      the single-channel-attack SINR computed inline, as the source does. */
  method StayJamProbability(md: Model, x: nat, rate: nat, j: nat) returns (r: Result<real>)
    ensures r == JamProbability(md, Num(x), Action(Stay, rate), j)
  {
    var p := md.params;
    if j >= |p.pJam| {
      return Err(IndexError);
    }
    var denominator := p.alpha * p.n as real * p.pJam[j] + p.sigmaSquared;
    if denominator == 0.0 {
      return Err(ZeroDivisionError);
    }
    var sinrSingleAttack := p.pRecv / denominator;
    assert SingleChannelAttackSinr(p, j).Ok?;
    assert SingleChannelAttackSinr(p, j).value == sinrSingleAttack;
    if p.k - p.n * x == 0 {
      return Err(ZeroDivisionError);
    }
    var pDiscoverNext := p.n as real / (p.k - p.n * x) as real;
    if p.k == 0 {
      return Err(ZeroDivisionError);
    }
    var pSingleChannelAttack := (p.m * x) as real / p.k as real;
    if p.m == 0 {
      return Err(ZeroDivisionError);
    }
    if (x as real) < p.k as real / p.m as real && j > p.m - rate {
      r := Ok(pDiscoverNext + pSingleChannelAttack);
    } else if (x as real) < p.k as real / p.m as real {
      if rate >= |p.sinrLimits| {
        return Err(IndexError);
      }
      r := Ok(if sinrSingleAttack < p.sinrLimits[rate] then pSingleChannelAttack else 0.0);
    } else {
      r := Ok(0.0);
    }
  }

  /** get_transition_probabilities, filling the `probs` dict in place: every
      state 0, then probs["j"], then probs[target] = 1 - probs["j"]. */
  method GetTransitionProbabilities(md: Model, s: State, a: Action, j: nat) returns (r: Result<map<State, real>>)
    ensures r == Kernel(md, s, a, j)
  {
    var p := md.params;
    var probs: map<State, real> := map t | t in md.stateSpace :: 0.0;
    var target: State;
    if s == Unknown && a.kind == Hop {
      // Equation 9
      if j > p.m - a.rate {
        if p.k - 1 == 0 {
          return Err(ZeroDivisionError);
        }
        probs := probs[Unknown := p.n as real / (p.k - 1) as real];
      } else {
        probs := probs[Unknown := 0.0];
      }
      target := Num(1);
    } else if a.kind == Hop {
      // Equation 11, the same formula
      if j > p.m - a.rate {
        if p.k - 1 == 0 {
          return Err(ZeroDivisionError);
        }
        probs := probs[Unknown := p.n as real / (p.k - 1) as real];
      } else {
        probs := probs[Unknown := 0.0];
      }
      target := Num(1);
    } else {
      // Equation 12
      if s == Unknown {
        return Err(ValueError);
      }
      var jam := StayJamProbability(md, s.x, a.rate, j);
      if jam.Err? {
        return Err(jam.error);
      }
      probs := probs[Unknown := jam.value];
      target := Num(s.x + 1);
    }
    assert target == Target(s, a);
    probs := probs[target := 1.0 - probs[Unknown]];
    r := Ok(probs);
  }

  /** A hop's next-state distribution does not depend on the current state:
      Equations 9 and 11 coincide. */
  lemma HopIgnoresState(md: Model, s1: State, s2: State, rate: nat, j: nat)
    ensures Kernel(md, s1, Action(Hop, rate), j) == Kernel(md, s2, Action(Hop, rate), j)
  {
  }

  /** The error conditions of the kernel: staying in "j" fails on int("j");
      a hop that the jammer's power can detect divides by k - 1; staying in
      a state x with k == n * x divides by zero once the SINR is computed. */
  lemma KernelErrors(md: Model, s: State, a: Action, j: nat)
    ensures a.kind == Stay && s == Unknown ==> Kernel(md, s, a, j) == Err(ValueError)
    ensures a.kind == Hop ==>
      (Kernel(md, s, a, j).Err? <==> j > md.params.m - a.rate && md.params.k == 1)
    ensures (a.kind == Stay && s.Num? && md.params.k == md.params.n * s.x &&
             SingleChannelAttackSinr(md.params, j).Ok?) ==> Kernel(md, s, a, j) == Err(ZeroDivisionError)
  {
  }

  /** Beyond k/m consecutive stays the jammer never catches a stay; with
      enough power to deny the rate the jam probability is the discovery
      term n / (k - n x) plus the single-attack term m x / k; otherwise it
      is the single-attack term exactly when the single-attack SINR is below
      the threshold stored at the rate (in Mbps) itself. */
  lemma StayRegimes(md: Model, x: nat, rate: nat, j: nat)
    requires JamProbability(md, Num(x), Action(Stay, rate), j).Ok?
    ensures md.params.m != 0 && md.params.k != 0 && md.params.k != md.params.n * x
    ensures SingleChannelAttackSinr(md.params, j).Ok?
    ensures var p := md.params;
      var pj := JamProbability(md, Num(x), Action(Stay, rate), j).value;
      && ((x as real) >= p.k as real / p.m as real ==> pj == 0.0)
      && ((x as real) < p.k as real / p.m as real && j > p.m - rate ==>
            pj == p.n as real / (p.k - p.n * x) as real + (p.m * x) as real / p.k as real)
      && ((x as real) < p.k as real / p.m as real && j <= p.m - rate ==>
            rate < |p.sinrLimits| &&
            pj == (if SingleChannelAttackSinr(p, j).value < p.sinrLimits[rate]
                   then (p.m * x) as real / p.k as real else 0.0))
  {
  }

  /** The kernel is a distribution: "j" and the target are distinct keys
      whose probabilities add up to 1, and every other key has probability 0. */
  lemma KernelIsDistribution(md: Model, s: State, a: Action, j: nat)
    requires Distinct(md.stateSpace) && Kernel(md, s, a, j).Ok?
    ensures var P := Kernel(md, s, a, j).value;
      && Unknown != Target(s, a) && Unknown in P && Target(s, a) in P
      && P[Unknown] + P[Target(s, a)] == 1.0
      && (forall t :: t in P <==> t in KeyOrder(md, s, a))
      && SumOver(KeyOrder(md, s, a), Mass(P)) == 1.0
  {
    var P := Kernel(md, s, a, j).value;
    var g := Mass(P);
    var keys := KeyOrder(md, s, a);
    SumOverSparse(keys, g, Unknown, Target(s, a));
  }

  /** The keys of probs in Python's insertion order: the state space, from
      the comprehension, then "j" and the target, each only when it is not
      already a key. */
  function KeyOrder(md: Model, s: State, a: Action): (ks: seq<State>)
    ensures |md.stateSpace| <= |ks| && ks[..|md.stateSpace|] == md.stateSpace
    ensures forall t :: t in ks <==> t in md.stateSpace || t == Unknown || t == Target(s, a)
    ensures Distinct(md.stateSpace) ==> Distinct(ks)
  {
    var base := if Unknown in md.stateSpace then md.stateSpace else md.stateSpace + [Unknown];
    DistinctSnoc(md.stateSpace, Unknown);
    DistinctSnoc(base, Target(s, a));
    if Target(s, a) in base then base else base + [Target(s, a)]
  }

  /** Appending a new element keeps a sequence free of repeats. */
  lemma DistinctSnoc<T>(s: seq<T>, x: T)
    ensures Distinct(s) && x !in s ==> Distinct(s + [x])
  {
  }

  function SumOver(states: seq<State>, g: State -> real): real
  {
    if states == [] then 0.0 else g(states[0]) + SumOver(states[1..], g)
  }

  /** A sum over distinct states of a function that is zero except at `a`
      and `b` picks up exactly the values at those two that are listed. */
  lemma {:induction false} SumOverSparse(states: seq<State>, g: State -> real, a: State, b: State)
    requires Distinct(states) && a != b
    requires forall t :: t != a && t != b ==> g(t) == 0.0
    ensures SumOver(states, g) == (if a in states then g(a) else 0.0) + (if b in states then g(b) else 0.0)
  {
    if states != [] {
      assert Distinct(states[1..]);
      SumOverSparse(states[1..], g, a, b);
      assert states[0] !in states[1..];
      assert forall t :: t in states <==> t == states[0] || t in states[1..];
    }
  }

  /** Two functions that agree on the listed states have the same sum. */
  lemma {:induction false} SumOverAgree(states: seq<State>, g: State -> real, h: State -> real)
    requires forall t :: t in states ==> g(t) == h(t)
    ensures SumOver(states, g) == SumOver(states, h)
  {
    if states != [] {
      SumOverAgree(states[1..], g, h);
    }
  }

  /** x' ↦ U(a, power index, x') · P(x'), zero off the dict's keys. */
  function Weighted(md: Model, a: Action, j: nat, P: map<State, real>): State -> real
  {
    t => if t in P then Weigh(Payoff(md, a, j, t), P[t]) else 0.0
  }

  /** A payoff weighted by the probability of the next state it is paid in. */
  function Weigh(u: int, prob: real): real
  {
    u as real * prob
  }

  /** x' ↦ P(x'), zero off the dict's keys. */
  function Mass(P: map<State, real>): State -> real
  {
    t => if t in P then P[t] else 0.0
  }

  /** Equation 13: get_immediate_transmitter_reward, r(x, a, power index) =
      Σ over the state space of U · P. Every state-space key is in the
      kernel's dict, so the guard below never fires. */
  function Reward(md: Model, s: State, a: Action, j: nat): Result<real>
  {
    var P :- Kernel(md, s, a, j);
    Ok(SumOver(md.stateSpace, Weighted(md, a, j, P)))
  }

  /** get_immediate_transmitter_reward as written receives None from the
      kernel and subscripts it: it raises TypeError on a valid model. */
  function RewardAsWritten(md: Model, s: State, a: Action, j: nat): (r: Result<real>)
  {
    var P :- TransitionProbabilitiesAsWritten(md, s, a, j);
    if md.stateSpace == [] then Ok(0.0) else Err(TypeError)
  }

  /** The as-written reward never produces a value on a valid model, while
      the corrected one produces one exactly when the kernel does. */
  lemma RewardAsWrittenFails(md: Model, s: State, a: Action, j: nat)
    requires Valid(md)
    ensures RewardAsWritten(md, s, a, j).Err?
    ensures Reward(md, s, a, j).Ok? <==> Kernel(md, s, a, j).Ok?
  {
    assert md.stateSpace[0] == Unknown;
  }

  /** The reward in closed form: only "j" and the target contribute, and the
      target only when it is in the state space; keys outside the state
      space do not contribute. */
  lemma {:induction false} RewardClosedForm(md: Model, s: State, a: Action, j: nat)
    requires Distinct(md.stateSpace) && Unknown in md.stateSpace && Kernel(md, s, a, j).Ok?
    ensures var pj := JamProbability(md, s, a, j).value;
      var t := Target(s, a);
      Reward(md, s, a, j) == Ok(Weigh(Payoff(md, a, j, Unknown), pj) +
        (if t in md.stateSpace then Weigh(Payoff(md, a, j, t), 1.0 - pj) else 0.0))
  {
    var P := Kernel(md, s, a, j).value;
    assert Unknown != Target(s, a);
    SparseReward(md, a, j, P, Target(s, a), JamProbability(md, s, a, j).value);
  }

  /** Over a dict that puts pj on "j", 1 - pj on t and 0 elsewhere, the
      reward sum is the two weighted payoffs. */
  lemma SparseReward(md: Model, a: Action, j: nat, P: map<State, real>, t: State, pj: real)
    requires Distinct(md.stateSpace) && Unknown in md.stateSpace
    requires Unknown != t && Unknown in P && t in P
    requires P[Unknown] == pj && P[t] == 1.0 - pj
    requires forall x :: x in P && x != Unknown && x != t ==> P[x] == 0.0
    ensures SumOver(md.stateSpace, Weighted(md, a, j, P)) == Weigh(Payoff(md, a, j, Unknown), pj) +
      (if t in md.stateSpace then Weigh(Payoff(md, a, j, t), 1.0 - pj) else 0.0)
  {
    var g := Weighted(md, a, j, P);
    WeightedSparse(md, a, j, P, t);
    SumOverSparse(md.stateSpace, g, Unknown, t);
    assert g(Unknown) == Weigh(Payoff(md, a, j, Unknown), pj);
    assert g(t) == Weigh(Payoff(md, a, j, t), 1.0 - pj);
  }

  /** A dict that is zero off "j" and the target weighs nothing elsewhere. */
  lemma WeightedSparse(md: Model, a: Action, j: nat, P: map<State, real>, target: State)
    requires forall t :: t in P && t != Unknown && t != target ==> P[t] == 0.0
    ensures forall t :: t != Unknown && t != target ==> Weighted(md, a, j, P)(t) == 0.0
  {
  }

  /** The number of power-level columns, range(0, m + 1). */
  function Cols(md: Model): nat
  {
    if md.params.m + 1 < 0 then 0 else md.params.m + 1
  }

  /** The entries of one row of R(x), before their failures are collected. */
  function RewardRow(md: Model, s: State, a: Action): seq<Result<real>>
  {
    seq(Cols(md), j requires 0 <= j < Cols(md) => Reward(md, s, a, j))
  }

  /** get_reward_matrix: R(x), one row per action in action-space order and
      one column per power index 0..m; the first failing entry in row-major
      order is the error. */
  function RewardMatrix(md: Model, s: State): (r: Result<seq<seq<real>>>)
    ensures r.Ok? <==> forall i, j :: 0 <= i < |md.actionSpace| && 0 <= j < Cols(md) ==>
      Reward(md, s, md.actionSpace[i], j).Ok?
    ensures r.Ok? ==> |r.value| == |md.actionSpace| && Rectangular(r.value, Cols(md))
    ensures r.Ok? ==> forall i, j :: 0 <= i < |md.actionSpace| && 0 <= j < Cols(md) ==>
      Reward(md, s, md.actionSpace[i], j) == Ok(r.value[i][j])
  {
    var rows := seq(|md.actionSpace|, i requires 0 <= i < |md.actionSpace| => RewardRow(md, s, md.actionSpace[i]));
    var r := CollectRows(rows);
    assert forall i, j :: 0 <= i < |md.actionSpace| && 0 <= j < Cols(md) ==>
      rows[i][j] == Reward(md, s, md.actionSpace[i], j);
    r
  }

  /** One entry of T(x): Σ over the state space of P(x') · value(x'); the
      values are computed in state order and the first failure is raised. */
  function TransitionEntry(md: Model, s: State, a: Action, j: nat, value: State -> Result<real>): Result<real>
  {
    var P :- Kernel(md, s, a, j);
    var vs :- Collect(seq(|md.stateSpace|, i requires 0 <= i < |md.stateSpace| => value(md.stateSpace[i])));
    Ok(Sum(seq(|md.stateSpace|, i requires 0 <= i < |md.stateSpace| => P[md.stateSpace[i]] * vs[i])))
  }

  /** The entries of one row of T(x), before their failures are collected. */
  function TransitionRow(md: Model, s: State, a: Action, value: State -> Result<real>): seq<Result<real>>
  {
    seq(Cols(md), j requires 0 <= j < Cols(md) => TransitionEntry(md, s, a, j, value))
  }

  /** The rows of T(x), one per action. */
  function TransitionRows(md: Model, s: State, value: State -> Result<real>): seq<seq<Result<real>>>
  {
    seq(|md.actionSpace|, i requires 0 <= i < |md.actionSpace| => TransitionRow(md, s, md.actionSpace[i], value))
  }

  /** get_transition_matrix: T(x), shaped like R(x). */
  function TransitionMatrix(md: Model, s: State, value: State -> Result<real>): (r: Result<seq<seq<real>>>)
    ensures r.Ok? <==> forall i, j :: 0 <= i < |md.actionSpace| && 0 <= j < Cols(md) ==>
      TransitionEntry(md, s, md.actionSpace[i], j, value).Ok?
    ensures r.Ok? ==> |r.value| == |md.actionSpace| && Rectangular(r.value, Cols(md))
    ensures r.Ok? ==> forall i, j :: 0 <= i < |md.actionSpace| && 0 <= j < Cols(md) ==>
      TransitionEntry(md, s, md.actionSpace[i], j, value) == Ok(r.value[i][j])
  {
    var rows := TransitionRows(md, s, value);
    assert forall i, j :: 0 <= i < |md.actionSpace| && 0 <= j < Cols(md) ==>
      rows[i][j] == TransitionEntry(md, s, md.actionSpace[i], j, value);
    CollectRows(rows)
  }

  /** One entry of get_transition_matrix: the kernel's dict, then the
      values of the state space in order, then their weighted sum. */
  method ComputeTransitionEntry(md: Model, s: State, a: Action, j: nat, value: State -> Result<real>)
    returns (r: Result<real>)
    ensures r == TransitionEntry(md, s, a, j, value)
  {
    var probs := GetTransitionProbabilities(md, s, a, j);
    if probs.Err? {
      return Err(probs.error);
    }
    var P := probs.value;
    var values := Collect(seq(|md.stateSpace|, h requires 0 <= h < |md.stateSpace| => value(md.stateSpace[h])));
    if values.Err? {
      return Err(values.error);
    }
    var vs := values.value;
    r := Ok(Sum(seq(|md.stateSpace|, h requires 0 <= h < |md.stateSpace| => P[md.stateSpace[h]] * vs[h])));
  }

  /** The inner loop of get_transition_matrix: one row of T(x), entry by
      entry, stopping at the first failure. */
  method ComputeTransitionRow(md: Model, s: State, a: Action, value: State -> Result<real>)
    returns (r: Result<seq<real>>)
    ensures r == Collect(TransitionRow(md, s, a, value))
  {
    ghost var entries := TransitionRow(md, s, a, value);
    var row: seq<real> := [];
    var j := 0;
    while j < Cols(md)
      invariant 0 <= j <= Cols(md) && |row| == j
      invariant forall g :: 0 <= g < j ==> entries[g] == Ok(row[g])
    {
      var entry := ComputeTransitionEntry(md, s, a, j, value);
      if entry.Err? {
        CollectFirstErr(entries, j);
        return Err(entry.error);
      }
      row := row + [entry.value];
      j := j + 1;
    }
    CollectAllOk(entries, row);
    r := Ok(row);
  }

  /** get_transition_matrix, appending row by row and entry by entry. */
  method GetTransitionMatrix(md: Model, s: State, value: State -> Result<real>) returns (r: Result<seq<seq<real>>>)
    ensures r == TransitionMatrix(md, s, value)
  {
    var actions := md.actionSpace;
    ghost var rows := TransitionRows(md, s, value);
    TransitionMatrixRows(md, s, value);
    assert |rows| == |actions|;
    var matrix: seq<seq<real>> := [];
    var i := 0;
    while i < |actions|
      invariant 0 <= i <= |actions| && CollectRows(rows[..i]) == Ok(matrix)
    {
      var row := ComputeTransitionRow(md, s, actions[i], value);
      TransitionRowAt(md, s, value, i);
      if row.Err? {
        CollectRowsPrefixErr(rows, i, matrix);
        return Err(row.error);
      }
      CollectRowsSnoc(rows, i, matrix, row.value);
      matrix := matrix + [row.value];
      i := i + 1;
    }
    assert rows[..i] == rows;
    r := Ok(matrix);
  }

  lemma TransitionMatrixRows(md: Model, s: State, value: State -> Result<real>)
    ensures TransitionMatrix(md, s, value) == CollectRows(TransitionRows(md, s, value))
  {
  }

  lemma TransitionRowAt(md: Model, s: State, value: State -> Result<real>, i: nat)
    requires i < |md.actionSpace|
    ensures |TransitionRows(md, s, value)| == |md.actionSpace|
    ensures TransitionRows(md, s, value)[i] == TransitionRow(md, s, md.actionSpace[i], value)
  {
  }
}
