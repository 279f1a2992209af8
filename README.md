# Frequency-hopping transmitter vs. jammer: a verified model

This project models the core of `wireless-fh-ra` in Dafny. That repository is a
Markov game between a frequency-hopping transmitter and a power-limited
jammer, with these parts:

- **Parameter set** (`parameters.py`): the constructor arguments, the
  validation `m == len(rates) - 1`, the per-rate SINR thresholds and the
  jammer power table `p_jam`.
- **Game model** (`model.py`): the state space `"j", "0", ...`, the
  stay/hop action space, the payoff U of Equation 8, the transition kernel of
  Equations 9, 11 and 12, the expected reward r of Equation 13, and the
  matrices R(x) and T(x).
- **Solver bookkeeping** (`optimize.py`): flattening the strategy pair (f, y)
  into one vector and back, the discounted value recursions V1 and V2, the
  objective, the simplex constraint coefficients, the bounds and the random
  starting strategies.
- **Q-table** (`markov.py`): the zero-initialised table and epsilon-greedy
  action selection, with the random draws passed in.
- **Demo strategies** (`unit_tests.py`): the demo jammer and transmitter and
  the flatten/rebuild round trip the tests expect.

Python exceptions become `Result` values. Where several expressions can
raise, the error Python reaches first is the one returned. The strategy
dicts and the Q-table are insertion-ordered sequences of pairs (`Dicts`).
The transition kernel's dict is a `map` (`GameModel.Kernel`), and its
insertion order is stated on its own by `GameModel.KeyOrder`. State and action strings
become datatypes (`Unknown` for `"j"`, `Num(i)` for `str(i)`,
`Action(Stay, r)` for `"s<r>"`); `str` and `int` are injective on these.
Reals are exact. The Shannon inversion `2 ** (c*1e6/b) - 1` is a
caller-supplied function `shannon`.

The model follows the code where the code and its documentation differ:

- `sinr_limits` is indexed by the rate in Mbps (model.py:106). The
  documentation describes one threshold per rate *index*.
- The stay branch uses `m` where the physics of Equation 12 suggests `n`
  (model.py:100-105).
- The state space counts `floor(k/m)` numeric states starting at `"0"`
  (model.py:31-32).
- Only the simplex constraints are built; the average-power inequality
  described for the optimizer does not appear in `create_constraints`.
- The value recursions are not memoised.

Two construction defects are repaired, and both halves are modelled (see
"## Findings"): `Model.__init__` reads `self.params` before setting it, and
`get_transition_probabilities` has no `return`. Two imports also fail as
written: optimize.py:3 imports `get_default_parameters`, which parameters.py
does not define, and unit_tests.py:5 imports `validate_transmit_strategy` and
`validate_jammer_strategy`, which model.py does not define. The model treats
the functions of both modules as if their imports succeeded. Even with the two
construction defects repaired, the model proves that `objective_function`
raises for every vector it can read (`Optimize.ObjectiveRaises`). The state space begins with `"j"`. The first
action of R("j") is a stay, and Equation 12 then evaluates `int("j")`.

## Model

| member | source | states |
|---|---|---|
| Wrappers.Collect | model.py:129-133 | a comprehension's values when every element succeeds, else the first failure in evaluation order |
| Wrappers.CollectRows | model.py:129-133 | a nested comprehension succeeds iff every entry does; the first failure in row-major order is reported |
| Wrappers.CollectRowsFirstErr | model.py:129-133 | the failure reported is the first failing entry in row-major order |
| Numeric.MatVec | optimize.py:50-53 | np.dot(R, y) is defined iff y has one entry per column, and then entry i is row i · y |
| Numeric.VecMat | optimize.py:66-71 | np.dot(w, R) is defined iff w has one entry per row, and then entry j is column j weighted by w |
| Numeric.AddScaled | optimize.py:50-53 | the numpy expression u + fraction · v, entry by entry |
| Numeric.Max | optimize.py:49-54 | max raises ValueError on an empty sequence, otherwise returns an element no smaller than any other |
| Numeric.PowDecreasing | optimize.py:53 | repeated multiplication by a factor in (0, 1) never increases the weight |
| Dicts.Get | optimize.py:64 | `d[k]` is absent exactly when k is not a key, otherwise it is a stored value of k |
| Dicts.Put | optimize.py:30 | `d[k] = v` replaces an existing key's value in place and appends a new key |
| Dicts.PutGetSame | optimize.py:30 | after `d[k] = v`, `d[k]` is v |
| Dicts.PutGetOther | optimize.py:30 | after `d[k] = v`, every other key reads as before |
| Dicts.FromPairsKeys | markov.py:5 | a dict built by assignments repeats no key and has exactly the assigned keys |
| Dicts.FromPairsUnique | optimize.py:27-31 | assigning pairs with distinct keys yields exactly those pairs, in order |
| Params.ConvertToTuple | parameters.py:123-137 | the tuple carries the stored arguments unchanged |
| Params.ValidateParam | parameters.py:8-16 | ValueError exactly when expected and actual differ |
| Params.SinrLimits | parameters.py:62-76 | one threshold per rate, in rate order |
| Params.SinrLimitsIncreasing | parameters.py:62-76 | increasing rates under a monotone threshold function give strictly increasing thresholds |
| Params.PJam | parameters.py:78-83 | p_jam is a leading 0 then the power that denies each rate, highest rate first; ZeroDivisionError when alpha or a threshold is 0 |
| Params.New | parameters.py:19-60 | construction fails with ValueError iff m != len(rates) - 1, with ZeroDivisionError on a zero alpha or threshold, and otherwise stores every argument and derives sinr_limits and p_jam |
| Params.TupleRoundTrip | parameters.py:123-140 | get_from_tuple(convert_to_tuple()) rebuilds the same parameter set |
| Params.PJamIncreasing | parameters.py:78-83 | with increasing positive thresholds the power levels after the leading 0 strictly increase |
| Params.PowerToDenyDecreasing | parameters.py:82-83 | a higher threshold takes less jammer power to deny |
| Params.PJamNonNegative | parameters.py:82-83 | a power level is non-negative iff noise alone does not already deny its rate |
| Params.SingleChannelAttackSinr | parameters.py:85-91 | IndexError past the table, ZeroDivisionError on a zero denominator, otherwise the SINR times the denominator equals p_recv |
| GameModel.FloorDivIsFloor | model.py:31 | the integer quotient used is math.floor(k / m) for either sign of m |
| GameModel.Numbered | model.py:31-32 | the numeric states are str(0), ..., str(n - 1) in order |
| GameModel.StateSpace | model.py:28-34 | ZeroDivisionError iff m == 0, otherwise "j" first, then str(0), str(1), ... in that order: exactly the numeric states below floor(k/m), none repeated |
| GameModel.GetStateSpace | model.py:28-34 | the appending loop produces the state space above |
| GameModel.ActionSpace | model.py:36-38 | every stay action in rate order, then every hop action in rate order |
| GameModel.ActionSpaceDistinct | model.py:36-38 | the actions are distinct iff the rates are |
| GameModel.ModelAsWritten | model.py:24 | the constructor as written always raises AttributeError |
| GameModel.ModelOf | model.py:11-26 | the repaired constructor succeeds iff m != 0 and stores the parameters and both spaces |
| GameModel.ValidStateSpace | model.py:28-34 | a built model's state space starts with "j" and repeats no state |
| GameModel.ModelAsWrittenNeverBuilds | model.py:24 | the as-written constructor never yields a model, while the repaired one does whenever m != 0 |
| GameModel.Payoff | model.py:41-67 | U takes one of the five values of Equation 8 |
| GameModel.PayoffCases | model.py:50-67 | a successful hop pays only into "1", a successful stay pays into every state but "j", a detected action pays the jamming (and hop) cost only into "j" |
| GameModel.Kernel | model.py:69-109 | probs has the state space, "j" and the target as keys; "j" gets the jam probability, the target gets its complement, and every other key gets 0 |
| GameModel.TransitionProbabilitiesAsWritten | model.py:69-109 | as written, the function returns None whenever it does not raise |
| GameModel.StayJamProbability | model.py:90-109 | the stay branch computed step by step equals the jam probability of Equation 12, errors included |
| GameModel.GetTransitionProbabilities | model.py:69-109 | filling probs in place yields the kernel |
| GameModel.HopIgnoresState | model.py:77-88 | Equations 9 and 11 give the same distribution from every state |
| GameModel.KernelErrors | model.py:77-97 | a stay from "j" raises ValueError; a hop raises iff it is detected and k == 1; a stay from x with k == n·x raises ZeroDivisionError once the attack SINR is defined |
| GameModel.StayRegimes | model.py:90-108 | a defined stay probability needs m, k != 0, k != n·x and a defined single-attack SINR; at or past k/m stays it is 0; below that, with power enough to deny the rate it is n/(k − n·x) + m·x/k; otherwise the rate (in Mbps) indexes sinr_limits and the probability is m·x/k if the single-attack SINR is below that threshold, else 0 |
| GameModel.KernelIsDistribution | model.py:69-109 | "j" and the target are distinct keys whose probabilities sum to 1; the dict's keys are exactly those listed by KeyOrder, and summed over them the dict gives 1 |
| GameModel.KeyOrder | model.py:76-109 | the dict's keys in insertion order: the state space first, in order, then "j" and the target only if new; exactly the state space, "j" and the target; no repeats when the state space has none |
| GameModel.RewardAsWrittenFails | model.py:111-123 | as written the reward always raises on a built model; repaired, it is defined iff the kernel is |
| GameModel.RewardClosedForm | model.py:111-123 | r = U("j")·P("j") + U(target)·P(target), the second term only when the target is in the state space |
| GameModel.RewardMatrix | model.py:125-133 | R(x) is defined iff every reward is; it has one row per action and m + 1 columns, holding those rewards |
| GameModel.TransitionMatrix | model.py:135-151 | T(x) is defined iff every entry is, and is shaped like R(x) |
| GameModel.ComputeTransitionEntry | model.py:145-149 | one entry: the kernel, then the values of the state space in order, then their weighted sum |
| GameModel.ComputeTransitionRow | model.py:142-149 | one row, entry by entry, with the first failure raised |
| GameModel.GetTransitionMatrix | model.py:135-151 | the nested loops build exactly T(x) |
| Markov.ZeroRow | markov.py:5 | every action is a key, once, with value 0 |
| Markov.FreshTable | markov.py:4-5 | every state is a key, once, each with the zero row |
| Markov.FreshTableShape | markov.py:4-5 | over distinct states and actions the table lists them in order, all valued 0 |
| Markov.ArgMax | markov.py:16-17 | the position of the first largest value |
| Markov.ArgMaxOfTies | markov.py:16-17 | among equal values the first action wins |
| Markov.QTable.constructor | markov.py:4-5 | the table starts as the fresh table over the given states and actions, with no epsilon stored yet |
| Markov.QTable.SelectAction | markov.py:7-18 | KeyError for an unknown state, ValueError for an empty row, the drawn action when exploring and the first best action when exploiting |
| Markov.FreshTableExploitsFirst | markov.py:5-17 | on a fresh table, exploiting picks the first action |
| Conversion.ConvertStrategiesToList | optimize.py:11-19 | the vector is f's values state by state and action by action, then y, of length Σ |f[s]| + |y| |
| Conversion.FlattenLength | optimize.py:11-19 | the flattened f has one entry per (state, action) pair it holds |
| Conversion.ReadStrategies | optimize.py:21-37 | IndexError iff the vector is shorter than |S|·|A| + m + 1; otherwise y is the m + 1 entries after the blocks |
| Conversion.Rebuild | optimize.py:21-37 | ZeroDivisionError when no model can be built, otherwise the reading above |
| Conversion.ReadRow | optimize.py:29-31 | one row of f read from the vector at its offset |
| Conversion.ReadJammer | optimize.py:33-35 | y read entry by entry, IndexError past the end |
| Conversion.FillState | optimize.py:27-31 | one pass of the outer loop stores row i at its offset |
| Conversion.FillTransmitter | optimize.py:27-31 | the outer loop builds f, IndexError when the vector is too short |
| Conversion.FillStrategies | optimize.py:27-37 | the two loops together produce the reading above |
| Conversion.ConvertListToStrategies | optimize.py:21-37 | the running-index loops compute the rebuild |
| Conversion.StrategyReadsBack | optimize.py:11-37 | reading a flattened, shaped f from the front of a vector gives f back |
| Conversion.StrategyShaped | optimize.py:27-31 | the rebuilt f is keyed by the state space and, per row, the action space, in order |
| Conversion.FlattensBack | optimize.py:11-37 | a vector of exactly |S|·|A| + m + 1 entries is read into a shaped (f, y) that flattens back to it |
| Conversion.RoundTrip | optimize.py:11-37 | rebuilding the flattened (f, y) returns (f, y) for shaped f and |y| = m + 1 |
| Conversion.ReverseRoundTrip | optimize.py:11-37 | flattening the rebuilt strategies returns the vector |
| Optimize.Horizon | optimize.py:8-9 | the weight 0.9^(d+1) is below 0.001 iff d >= 65 |
| Optimize.StopsAtHorizon | optimize.py:44-45 | from depth 65 on, V1 and V2 are 0 |
| Optimize.SilentJammer | optimize.py:39-54 | with y all zero, V1 is 0 whenever it is defined |
| Optimize.IdleTransmitter | optimize.py:56-72 | with every transmitter probability of the state 0, V2 is 0 whenever it is defined |
| Optimize.TransmitterValueErrors | optimize.py:47-54 | V1 raises R(x)'s error, ValueError on a y of the wrong length, and without actions TypeError iff y is empty |
| Optimize.JammerValueErrors | optimize.py:64-71 | V2 raises KeyError for a state f lacks and ValueError for a row of the wrong length |
| Optimize.ObjectiveErrors | optimize.py:74-82 | the objective raises the constructor's error, ZeroDivisionError when m == 0, and IndexError on a short vector |
| Optimize.TotalOfIdle | optimize.py:82 | the sum over states of V1 + V2 is 0 for a silent jammer and an idle transmitter, whenever it is defined |
| Optimize.JammedStateRaises | optimize.py:50 | V1 of "j" raises ValueError when the first action is a stay |
| Optimize.ObjectiveRaises | optimize.py:74-82 | for every vector it can read, the objective raises: ValueError, or TypeError when there are no rates |
| Optimize.Constraints | optimize.py:84-99 | one constraint per state plus one for the jammer |
| Optimize.CreateConstraints | optimize.py:84-99 | the loop with vector_offset builds exactly those constraints |
| Optimize.ConstraintsPartition | optimize.py:89-98 | every coefficient is 0 or 1, every sum is bounded to exactly 1, and entry k has coefficient 1 in exactly one constraint: its state's block, or the jammer's past |S|·|A| |
| Optimize.ConstraintsAsWritten | optimize.py:84-99 | as written the constraints are not returned |
| Optimize.CreateBounds | optimize.py:101-104 | one pair (0, 1) per vector entry |
| Optimize.BoundsAsWritten | optimize.py:101-104 | as written the bounds are not returned |
| Optimize.UniformJammer | optimize.py:109-110 | m + 1 entries of 1/(m + 1), none and no division when m + 1 <= 0 |
| Optimize.UniformJammerSums | optimize.py:109-110 | the uniform jammer strategy is a distribution: entries in (0, 1], summing to 1 |
| Optimize.CreateRandomStrategies | optimize.py:106-111 | a fresh Q-table over the model's spaces with epsilon 1, and the uniform y |
| Demo.CreateDemoJammerStrategy | unit_tests.py:25-32 | the loop builds [0, 1] followed by m - 1 zeros |
| Demo.DemoJammerShape | unit_tests.py:25-32 | the demo y has m + 1 entries for m >= 1 (2 otherwise), its single 1 at index 1, and sums to 1 |
| Demo.FillDemoRow | unit_tests.py:46-58 | the inner loop assigns each action its demo weight, in order |
| Demo.CreateDemoTransmitStrategy | unit_tests.py:41-60 | the nested loops build the demo f |
| Demo.DemoTransmitShape | unit_tests.py:44-58 | over distinct spaces, f lists every state and action in order, with weight 1 only on "s{m}" outside "j" and "h{m}" in "j" |
| Demo.DemoRowSum | unit_tests.py:46-58 | a demo row sums to 1 when its chosen action exists, and to 0 otherwise |
| Demo.ChosenInActionSpace | model.py:36-38 | "s{m}" and "h{m}" are actions iff m is one of the rates |
| Demo.DemoRowsSumToOne | unit_tests.py:41-60 | each row of the demo f is a distribution iff m is one of the rates, and sums to 0 otherwise |
| Demo.DefaultDemoIdle | unit_tests.py:41-60 | with the default parameters (m = 7, no rate 7) every entry of the demo f is 0 |
| Demo.DemoRoundTrip | unit_tests.py:129-149 | for m >= 1 and distinct rates, rebuilding the flattened demo strategies gives them back |
| Demo.TestConversionAsWritten | unit_tests.py:137-138 | called with the model, as the test does, the conversion never gives the demo strategies back, while called with the parameters it does |
| Demo.CompareConversion | unit_tests.py:129-149 | both comparisons of test_convert_strategies succeed |

## Left out

- The `scipy.optimize.minimize` call and `find_equilibrium`, which hands the
  constraints, bounds and objective to an external optimizer. The model
  covers only what that optimizer receives. `find_equilibrium` also passes
  the Q-table object itself to `convert_strategies_to_list`; that call is not
  part of this model.
- The Shannon exponent `2 ** (c*1e6/b)` in `calculate_sinr_limits`: it is
  irrational, so thresholds come from the `shannon` parameter. Lemmas assume
  only monotonicity or positivity.
- Floating point. All arithmetic is exact real arithmetic. The recursion
  stops at depth 65. Binary 0.9^65 and 0.9^66 lie far enough from 0.001 that
  floating point stops at the same depth, but this is not proved.
- Randomness: `random.random()` and `random.randint` are the `draw` and
  `pick` arguments of `SelectAction`.
- `__str__`/`__repr__`, printing, plotting, simulation.py, analysis.py and
  the other tests. The tests that build `QTable(model)` with one argument do
  not match the two-argument constructor and are not modelled.
- `Demo.CompareConversion`: test_convert_strategies passes the model where
  `convert_list_to_strategies` expects parameters. The model passes the
  model's parameters, as evidently intended. The call as written is a row
  under "## Findings".
- Negative rates: rates are natural numbers here. `int(action[1:])` would
  accept a negative rate, and `sinr_limits[r]` would then index from the
  end of the list; no caller builds such a rate, so that case is not modelled.
- `Params.New`: the `p_avg` default (`frac * p_max`) is a stored constant.
  The average-power inequality over `p_jam` is not built by the code, so it
  is not modelled.
- `Optimize.SilentJammer`, `Optimize.IdleTransmitter` and
  `Optimize.TotalOfIdle` state the value only when it is defined. For a model
  built from parameters it never is: see `Optimize.ObjectiveRaises`.

## Findings

| source | as written | input that shows it | evidently intended | confidence | as-written member | corrected member |
|---|---|---|---|---|---|---|
| model.py:24 | `self.params = self.params` reads an attribute that was never set | any parameter set, e.g. the defaults | `self.params = parameters` | not executed | GameModel.ModelAsWrittenNeverBuilds | GameModel.ModelOf |
| model.py:69-109 | `get_transition_probabilities` builds `probs` but returns nothing, so the reward subscripts None | state "j", action "h6", power index 0 on the defaults | `return probs` | not executed | GameModel.RewardAsWrittenFails | GameModel.KernelIsDistribution |
| optimize.py:84-99 | `create_constraints` builds its list but returns None | any model and vector size | `return constraints` | not executed | Optimize.ConstraintsAsWritten | Optimize.ConstraintsPartition |
| optimize.py:101-104 | `create_bounds` builds its list but returns None | any vector size | `return bounds` | not executed | Optimize.BoundsAsWritten | Optimize.CreateBounds |
| unit_tests.py:137-138 | the test passes `model` to `convert_list_to_strategies`, which builds `Model(model)` and then reads `k` from a Model, raising AttributeError | the defaults, as the test builds them | pass `params` | not executed | Demo.TestConversionAsWritten | Demo.CompareConversion |
