/** The Q-table of markov.py: a table of action values per state, and the
    epsilon-greedy choice of an action. The random draws of random.random()
    and random.randint are passed in as arguments. */
module Markov {
  import opened Wrappers
  import opened Dicts
  import opened GameModel

  /** A value per action, per state. */
  type Table = Dict<State, Dict<Action, real>>

  /** {a: 0 for a in actions} */
  function ZeroRow(actions: seq<Action>): (row: Dict<Action, real>)
    ensures UniqueKeys(row) && forall a :: a in Keys(row) <==> a in actions
    ensures forall i :: 0 <= i < |row| ==> row[i].1 == 0.0
  {
    var ps := seq(|actions|, i requires 0 <= i < |actions| => (actions[i], 0.0));
    assert Keys(ps) == actions;
    FromPairsKeys(ps);
    FromPairsConstant(ps, 0.0);
    FromPairs(ps)
  }

  /** {s: {a: 0 for a in actions} for s in states} */
  function FreshTable(states: seq<State>, actions: seq<Action>): (t: Table)
    ensures UniqueKeys(t) && forall s :: s in Keys(t) <==> s in states
    ensures forall i :: 0 <= i < |t| ==> t[i].1 == ZeroRow(actions)
  {
    var ps := seq(|states|, i requires 0 <= i < |states| => (states[i], ZeroRow(actions)));
    assert Keys(ps) == states;
    FromPairsKeys(ps);
    FromPairsConstant(ps, ZeroRow(actions));
    FromPairs(ps)
  }

  /** Over distinct states and actions, the fresh table lists every state in
      order and, for each, every action in order, all valued 0. */
  lemma FreshTableShape(states: seq<State>, actions: seq<Action>)
    requires Distinct(states) && Distinct(actions)
    ensures |FreshTable(states, actions)| == |states|
    ensures forall i :: 0 <= i < |states| ==> FreshTable(states, actions)[i].0 == states[i]
    ensures forall i :: 0 <= i < |states| ==>
      FreshTable(states, actions)[i].1 == seq(|actions|, j requires 0 <= j < |actions| => (actions[j], 0.0))
  {
    var row := seq(|actions|, j requires 0 <= j < |actions| => (actions[j], 0.0));
    FromPairsUnique(row);
    var ps := seq(|states|, i requires 0 <= i < |states| => (states[i], ZeroRow(actions)));
    FromPairsUnique(ps);
  }

  /** The position of the first largest value, as Python's max with a key
      finds it: a later value replaces the best only when strictly larger. */
  function ArgMax(row: Dict<Action, real>): (i: nat)
    requires row != []
    ensures i < |row|
    ensures forall j :: 0 <= j < |row| ==> row[j].1 <= row[i].1
    ensures forall j :: 0 <= j < i ==> row[j].1 < row[i].1
  {
    if |row| == 1 then 0
    else
      var best := ArgMax(row[..|row| - 1]);
      if row[|row| - 1].1 > row[best].1 then |row| - 1 else best
  }

  /** When every action has the same value, the first action is the best. */
  lemma ArgMaxOfTies(row: Dict<Action, real>)
    requires row != [] && forall j :: 0 <= j < |row| ==> row[j].1 == row[0].1
    ensures ArgMax(row) == 0
  {
  }

  class QTable {
    var values: Table
    /** Set from outside (create_random_strategies); select_action takes its
        own epsilon argument and does not read it. */
    var epsilon: Option<real>

    /** QTable.__init__ */
    constructor(states: seq<State>, actions: seq<Action>)
      ensures values == FreshTable(states, actions) && epsilon == None
    {
      values := FreshTable(states, actions);
      epsilon := None;
    }

    /** select_action: `draw` is random.random() in [0, 1) and `pick` is
        random.randint(0, len - 1). A missing state raises KeyError; an
        empty row raises ValueError, on both paths. */
    method SelectAction(state: State, epsilon: real, draw: real, pick: nat) returns (r: Result<Action>)
      requires 0.0 <= draw < 1.0
      requires Get(values, state).Some? && Get(values, state).value != [] ==> pick < |Get(values, state).value|
      ensures r.Err? <==> Get(values, state).None? || Get(values, state).value == []
      ensures r.Err? ==> r.error == (if Get(values, state).None? then KeyError else ValueError)
      ensures r.Ok? ==> r.value in Keys(Get(values, state).value)
      ensures r.Ok? && draw < epsilon ==> r.value == Get(values, state).value[pick].0
      ensures r.Ok? && draw >= epsilon ==> r.value == Get(values, state).value[ArgMax(Get(values, state).value)].0
      ensures r.Ok? && epsilon <= 0.0 ==> r.value == Get(values, state).value[ArgMax(Get(values, state).value)].0
      ensures r.Ok? && epsilon >= 1.0 ==> r.value == Get(values, state).value[pick].0
    {
      var found := Get(values, state);
      if found.None? {
        return Err(KeyError);
      }
      var possible := found.value;
      if draw < epsilon {
        // Explore
        if |possible| == 0 {
          return Err(ValueError);   // randint(0, -1)
        }
        var actions := Keys(possible);
        r := Ok(actions[pick]);
      } else {
        // Exploit
        if |possible| == 0 {
          return Err(ValueError);   // max() of an empty dict
        }
        var best := 0;
        var j := 1;
        while j < |possible|
          invariant 1 <= j <= |possible|
          invariant best == ArgMax(possible[..j])
        {
          assert possible[..j + 1][..j] == possible[..j];
          if possible[j].1 > possible[best].1 {
            best := j;
          }
          j := j + 1;
        }
        assert possible[..|possible|] == possible;
        r := Ok(possible[best].0);
      }
    }
  }

  /** On a fresh table, exploiting picks the first action, since every
      value is 0. */
  lemma FreshTableExploitsFirst(states: seq<State>, actions: seq<Action>, i: nat)
    requires i < |FreshTable(states, actions)| && actions != []
    ensures var row := FreshTable(states, actions)[i].1;
      row != [] && row[ArgMax(row)].0 == actions[0]
  {
    var row := ZeroRow(actions);
    ArgMaxOfTies(row);
    var ps := seq(|actions|, j requires 0 <= j < |actions| => (actions[j], 0.0));
    FromPairsFirst(ps);
  }
}
