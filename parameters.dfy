/** The parameter set of the game (parameters.py): the constants given to the
    constructor, and the per-rate SINR thresholds and jammer power table
    derived from them once, at construction.

    The SINR threshold of a rate of `c` Mbps is 2^(c/10) - 1 in the source,
    an irrational number; here it is the value of a caller-supplied function
    `shannon`, about which only what a lemma requires is assumed. */
module Params {
  import opened Wrappers

  /** The twelve constructor arguments, in the order of convert_to_tuple. */
  datatype ParamTuple = ParamTuple(
    k: int, m: int, pAvg: real, pMax: real, c: int, l: int, n: int,
    alpha: real, sigmaSquared: real, pRecv: real, rates: seq<nat>, t: int)

  /** A constructed parameter set: the arguments stored unchanged, plus the
      derived `sinr_limits` and `p_jam`. */
  datatype Parameters = Parameters(
    k: int, m: int, pAvg: real, pMax: real, c: int, l: int, n: int,
    alpha: real, sigmaSquared: real, pRecv: real, rates: seq<nat>, t: int,
    sinrLimits: seq<real>, pJam: seq<real>)
  {
    /** convert_to_tuple */
    function ConvertToTuple(): (args: ParamTuple)
      ensures args.rates == rates && args.m == m && args.k == k && args.n == n
    {
      ParamTuple(k, m, pAvg, pMax, c, l, n, alpha, sigmaSquared, pRecv, rates, t)
    }
  }

  /** The defaults of the constructor (p_avg = frac * p_max = 0.4 * 2). */
  const DefaultArgs := ParamTuple(4, 7, 0.8, 2.0, 50, 25, 1, 1.0, 0.01, 1.0,
                                  [6, 9, 12, 18, 24, 36, 48, 54], 500)

  /** validate_param: a ValueError exactly when the two values differ. */
  function ValidateParam<T(==)>(expected: T, actual: T): (r: Result<()>)
    ensures r.Ok? <==> expected == actual
    ensures r.Err? ==> r.error == ValueError
  {
    if expected != actual then Err(ValueError) else Ok(())
  }

  /** calculate_sinr_limits: one threshold per rate, in rate order. */
  function SinrLimits(rates: seq<nat>, shannon: nat -> real): (r: seq<real>)
    ensures |r| == |rates| && forall i :: 0 <= i < |rates| ==> r[i] == shannon(rates[i])
  {
    seq(|rates|, i requires 0 <= i < |rates| => shannon(rates[i]))
  }

  predicate StrictlyIncreasing(s: seq<real>)
  {
    forall i, j :: 0 <= i < j < |s| ==> s[i] < s[j]
  }

  predicate StrictlyIncreasingRates(rates: seq<nat>)
  {
    forall i, j :: 0 <= i < j < |rates| ==> rates[i] < rates[j]
  }

  /** A threshold function that grows with the rate, as 2^(c/10) - 1 does. */
  ghost predicate Monotone(shannon: nat -> real)
  {
    forall a, b :: a < b ==> shannon(a) < shannon(b)
  }

  /** Higher rates need strictly higher SINR thresholds. */
  lemma SinrLimitsIncreasing(rates: seq<nat>, shannon: nat -> real)
    requires StrictlyIncreasingRates(rates) && Monotone(shannon)
    ensures StrictlyIncreasing(SinrLimits(rates, shannon))
  {
  }

  /** The `i`-th computed jammer power level: the power that, attenuated by
      `alpha`, just denies the rate with threshold `limit`. */
  function PowerToDeny(pRecv: real, sigmaSquared: real, alpha: real, limit: real): real
    requires limit != 0.0 && alpha != 0.0
  {
    (pRecv / limit - sigmaSquared) / alpha
  }

  /** calculate_p_jam: a leading 0, then one level per rate from the fastest
      rate down to the slowest; a ZeroDivisionError if a threshold or
      `alpha` is zero and there is at least one rate. */
  function PJam(pRecv: real, sigmaSquared: real, alpha: real, sinrLimits: seq<real>, m: int): (r: Result<seq<real>>)
    requires m == |sinrLimits| - 1
    ensures r.Err? <==> m >= 0 && (alpha == 0.0 || 0.0 in sinrLimits)
    ensures r.Err? ==> r.error == ZeroDivisionError
    ensures r.Ok? ==> |r.value| == m + 2 && r.value[0] == 0.0
    ensures r.Ok? ==> forall i :: 1 <= i <= m + 1 ==>
      r.value[i] == PowerToDeny(pRecv, sigmaSquared, alpha, sinrLimits[m - (i - 1)])
  {
    if m >= 0 && (alpha == 0.0 || 0.0 in sinrLimits) then Err(ZeroDivisionError)
    else Ok([0.0] + seq(m + 1, i requires 0 <= i <= m =>
                          PowerToDeny(pRecv, sigmaSquared, alpha, sinrLimits[m - i])))
  }

  /** Parameters.__init__ (and get_from_tuple, which is the constructor
      applied to a tuple): store every argument, fail with a ValueError
      unless m == len(rates) - 1, then derive the thresholds and power levels. */
  function New(args: ParamTuple, shannon: nat -> real): (r: Result<Parameters>)
    ensures r.Err? && r.error == ValueError <==> args.m != |args.rates| - 1
    ensures r.Err? && args.m == |args.rates| - 1 ==> r.error == ZeroDivisionError
    ensures r.Ok? <==> args.m == |args.rates| - 1 &&
                       (args.rates == [] || (args.alpha != 0.0 && forall c :: c in args.rates ==> shannon(c) != 0.0))
    ensures r.Ok? ==> r.value.ConvertToTuple() == args
    ensures r.Ok? ==> r.value.sinrLimits == SinrLimits(args.rates, shannon)
    ensures r.Ok? ==> PJam(args.pRecv, args.sigmaSquared, args.alpha, r.value.sinrLimits, args.m) == Ok(r.value.pJam)
  {
    var _ :- ValidateParam(true, args.m == |args.rates| - 1);
    var sinr := SinrLimits(args.rates, shannon);
    assert 0.0 in sinr <==> exists c :: c in args.rates && shannon(c) == 0.0 by {
      if 0.0 in sinr {
        var i :| 0 <= i < |sinr| && sinr[i] == 0.0;
        assert args.rates[i] in args.rates;
      }
    }
    var pJam :- PJam(args.pRecv, args.sigmaSquared, args.alpha, sinr, args.m);
    Ok(Parameters(args.k, args.m, args.pAvg, args.pMax, args.c, args.l, args.n,
                  args.alpha, args.sigmaSquared, args.pRecv, args.rates, args.t, sinr, pJam))
  }

  /** get_from_tuple(convert_to_tuple()) rebuilds the same parameter set. */
  lemma TupleRoundTrip(p: Parameters, args: ParamTuple, shannon: nat -> real)
    requires New(args, shannon) == Ok(p)
    ensures New(p.ConvertToTuple(), shannon) == Ok(p)
  {
  }

  /** Dividing a positive amount by a larger positive number gives less. */
  lemma DivideByLarger(a: real, lo: real, hi: real)
    requires a > 0.0 && 0.0 < lo < hi
    ensures a / hi < a / lo
  {
    assert a / hi * hi == a == a / lo * lo;
    assert a / lo * hi > a / lo * lo;
  }

  /** Dividing by a positive number keeps the order. */
  lemma DividePreservesOrder(a: real, b: real, d: real)
    requires a < b && d > 0.0
    ensures a / d < b / d
  {
    assert a / d * d == a && b / d * d == b;
  }

  /** With increasing thresholds, a positive received power and a positive
      attenuation, the jammer power levels after the leading 0 strictly
      increase: denying a slower rate takes more power. */
  lemma {:induction false} PJamIncreasing(p: Parameters, args: ParamTuple, shannon: nat -> real, i: nat, j: nat)
    requires New(args, shannon) == Ok(p)
    requires StrictlyIncreasing(p.sinrLimits) && forall c :: c in p.sinrLimits ==> c > 0.0
    requires p.pRecv > 0.0 && p.alpha > 0.0
    requires 1 <= i < j < |p.pJam|
    ensures p.pJam[i] < p.pJam[j]
  {
    var limits := p.sinrLimits;
    PJamAt(p, args, shannon, i);
    PJamAt(p, args, shannon, j);
    assert limits[p.m - (j - 1)] in limits;
    PowerToDenyDecreasing(p.pRecv, p.sigmaSquared, p.alpha, limits[p.m - (j - 1)], limits[p.m - (i - 1)]);
  }

  /** Entry i of p_jam after the leading 0 denies the rate m - (i - 1). */
  lemma PJamAt(p: Parameters, args: ParamTuple, shannon: nat -> real, i: nat)
    requires New(args, shannon) == Ok(p) && p.alpha != 0.0 && 1 <= i < |p.pJam|
    ensures |p.sinrLimits| == p.m + 1 && 0 <= p.m - (i - 1) < |p.sinrLimits|
    ensures p.sinrLimits[p.m - (i - 1)] != 0.0
    ensures p.pJam[i] == PowerToDeny(p.pRecv, p.sigmaSquared, p.alpha, p.sinrLimits[p.m - (i - 1)])
  {
    assert p.sinrLimits[p.m - (i - 1)] in p.sinrLimits;
  }

  /** A higher threshold takes less power to deny. */
  lemma PowerToDenyDecreasing(pRecv: real, sigmaSquared: real, alpha: real, lo: real, hi: real)
    requires pRecv > 0.0 && alpha > 0.0 && 0.0 < lo < hi
    ensures PowerToDeny(pRecv, sigmaSquared, alpha, hi) < PowerToDeny(pRecv, sigmaSquared, alpha, lo)
  {
    DivideByLarger(pRecv, lo, hi);
    DividePreservesOrder(pRecv / hi - sigmaSquared, pRecv / lo - sigmaSquared, alpha);
  }

  /** A power level is non-negative exactly when the noise alone does not
      already deny its rate. */
  lemma PJamNonNegative(p: Parameters, args: ParamTuple, shannon: nat -> real, i: nat)
    requires New(args, shannon) == Ok(p)
    requires p.alpha > 0.0 && i <= p.m
    ensures p.pJam[i + 1] >= 0.0 <==> p.pRecv / p.sinrLimits[p.m - i] >= p.sigmaSquared
  {
    var x := p.pRecv / p.sinrLimits[p.m - i] - p.sigmaSquared;
    assert p.pJam[i + 1] == x / p.alpha;
    assert x / p.alpha * p.alpha == x;
    assert x < 0.0 ==> x / p.alpha < 0.0 / p.alpha by {
      if x < 0.0 { DividePreservesOrder(x, 0.0, p.alpha); }
    }
  }

  /** get_single_channel_attack_sinr: the SINR at the receiver when the jammer
      spreads power level `i` over `n` channels' worth of attenuation. */
  function SingleChannelAttackSinr(p: Parameters, i: nat): (r: Result<real>)
    ensures r.Err? <==> i >= |p.pJam| || p.alpha * p.n as real * p.pJam[i] + p.sigmaSquared == 0.0
    ensures r.Err? ==> r.error == (if i >= |p.pJam| then IndexError else ZeroDivisionError)
    ensures r.Ok? ==> r.value * (p.alpha * p.n as real * p.pJam[i] + p.sigmaSquared) == p.pRecv
  {
    if i >= |p.pJam| then Err(IndexError)
    else
      var denominator := p.alpha * p.n as real * p.pJam[i] + p.sigmaSquared;
      if denominator == 0.0 then Err(ZeroDivisionError) else Ok(p.pRecv / denominator)
  }
}
