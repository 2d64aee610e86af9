/** The adaptive hint combiner: it blends an unhinted strategy with a hinted
    one, and discounts the hint by a trust parameter r that grows with the
    regret the hinted strategy has caused. */
module Hinted {
  import opened Wrappers
  import opened Vectors

  /** How the two strategies' weights are averaged. */
  datatype Mode = Add | Mult

  datatype ConfigError = LambdaOutOfRange | UnknownMode

  /** Periods of history the harness must supply before the first step. */
  const MinHistory: nat := 0

  /** The constructor's input checks, in the order the constructor makes them:
      lambda first, then the averaging mode. */
  function CheckConfig(ll: real, how: string): (res: Result<Mode, ConfigError>)
    ensures res.Success? <==> 0.0 <= ll <= 1.0 && (how == "add" || how == "mult")
    ensures (ll < 0.0 || ll > 1.0) ==> res == Failure(LambdaOutOfRange)
    ensures res.Success? ==> (res.value == Add <==> how == "add")
  {
    if ll < 0.0 || ll > 1.0 then Failure(LambdaOutOfRange)
    else if how == "add" then Success(Add)
    else if how == "mult" then Success(Mult)
    else Failure(UnknownMode)
  }

  /** The share ll / r given to the hinted strategy. */
  function BlendWeight(ll: real, r: real): (w: real)
    requires r != 0.0
    ensures 0.0 <= ll <= 1.0 && r >= 1.0 ==> 0.0 <= w <= 1.0
    ensures 0.0 <= ll && r >= 1.0 ==> w <= ll
  {
    ll / r
  }

  lemma {:induction false} BlendEnds(ll: real, r: real)
    requires r != 0.0
    ensures ll == r ==> BlendWeight(ll, r) == 1.0
  {
    if ll == r {
      DivideSelf(r);
    }
  }

  /** Weighted arithmetic mean of the unhinted weights bHat and the hinted
      weights f. */
  function Combine(ll: real, r: real, bHat: seq<real>, f: seq<real>): (b: seq<real>)
    requires r != 0.0 && |bHat| == |f|
    ensures |b| == |bHat|
    ensures ll == 0.0 ==> b == bHat
    ensures ll == r ==> b == f
    ensures forall i :: 0 <= i < |b| && bHat[i] == f[i] ==> b[i] == f[i]
  {
    var w := BlendWeight(ll, r);
    BlendEnds(ll, r);
    LinEnds(bHat, f);
    Lin(1.0 - w, bHat, w, f)
  }

  /** Whatever r is, two portfolios summing to 1 combine into one summing to 1. */
  lemma {:induction false} CombineSumsToOne(ll: real, r: real, bHat: seq<real>, f: seq<real>)
    requires r != 0.0 && |bHat| == |f|
    requires Sum(bHat) == 1.0 && Sum(f) == 1.0
    ensures Sum(Combine(ll, r, bHat, f)) == 1.0
  {
    var w := BlendWeight(ll, r);
    SumLin(1.0 - w, bHat, w, f);
  }

  /** With r >= 1 and lambda in [0, 1] the blend is convex, so two simplex
      points combine into a simplex point. */
  lemma {:induction false} CombineSimplex(ll: real, r: real, bHat: seq<real>, f: seq<real>)
    requires 0.0 <= ll <= 1.0 && r >= 1.0 && |bHat| == |f|
    requires IsSimplex(bHat) && IsSimplex(f)
    ensures IsSimplex(Combine(ll, r, bHat, f))
  {
    CombineSumsToOne(ll, r, bHat, f);
    var w := BlendWeight(ll, r);
    LinNonNegative(1.0 - w, bHat, w, f);
  }

  /** Lambda one half at r = 1 is the elementwise average. */
  lemma {:induction false} CombineHalfIsAverage(bHat: seq<real>, f: seq<real>)
    requires |bHat| == |f|
    ensures forall i :: 0 <= i < |bHat| ==>
      Combine(0.5, 1.0, bHat, f)[i] == (bHat[i] + f[i]) / 2.0
  {
  }

  /** The trust update on r squared: when the hinted portfolio returned less
      than the unhinted one, add the relative shortfall. */
  function NextTrustSq(rSq: real, returnF: real, returnBHat: real): (next: real)
    requires returnF < returnBHat ==> returnBHat > 0.0
    ensures next >= rSq
    ensures next == rSq <==> returnF >= returnBHat
  {
    if returnF < returnBHat then rSq + (returnBHat - returnF) / returnBHat else rSq
  }

  /** A period's pair (return of f, return of bHat) on which the update is defined. */
  predicate Defined(ret: (real, real))
  {
    ret.0 < ret.1 ==> ret.1 > 0.0
  }

  /** r squared after a sequence of periods, the last period applied last. */
  function TrustSqAfter(rSq: real, rets: seq<(real, real)>): real
    requires forall k :: 0 <= k < |rets| ==> Defined(rets[k])
  {
    if |rets| == 0 then rSq
    else
      var n := |rets| - 1;
      assert Defined(rets[n]);
      NextTrustSq(TrustSqAfter(rSq, rets[..n]), rets[n].0, rets[n].1)
  }

  /** Appending a period applies one more update. */
  lemma {:induction false} TrustSqAfterSnoc(rSq: real, rets: seq<(real, real)>, ret: (real, real))
    requires forall k :: 0 <= k < |rets| ==> Defined(rets[k])
    requires Defined(ret)
    ensures forall k :: 0 <= k < |rets + [ret]| ==> Defined((rets + [ret])[k])
    ensures TrustSqAfter(rSq, rets + [ret]) == NextTrustSq(TrustSqAfter(rSq, rets), ret.0, ret.1)
  {
    assert (rets + [ret])[..|rets|] == rets;
  }

  /** r squared never decreases: from period i to a later period j. */
  lemma {:induction false} TrustSqMonotone(rSq: real, rets: seq<(real, real)>, i: nat, j: nat)
    requires forall k :: 0 <= k < |rets| ==> Defined(rets[k])
    requires i <= j <= |rets|
    ensures TrustSqAfter(rSq, rets[..i]) <= TrustSqAfter(rSq, rets[..j])
  {
    if i < j {
      TrustSqMonotone(rSq, rets, i, j - 1);
      assert rets[..j][..j - 1] == rets[..j - 1];
    }
  }

  /** Starting from r = 1, r squared stays at least 1 over any sequence. */
  lemma {:induction false} TrustSqAtLeastOne(rets: seq<(real, real)>)
    requires forall k :: 0 <= k < |rets| ==> Defined(rets[k])
    ensures TrustSqAfter(1.0, rets) >= 1.0
  {
    TrustSqMonotone(1.0, rets, 0, |rets|);
    assert rets[..|rets|] == rets;
  }

  /** Periods in which the hint did at least as well leave r squared alone. */
  lemma {:induction false} TrustSqUnchangedWhenHintHolds(rSq: real, rets: seq<(real, real)>)
    requires forall k :: 0 <= k < |rets| ==> rets[k].0 >= rets[k].1
    ensures TrustSqAfter(rSq, rets) == rSq
  {
    if |rets| > 0 {
      TrustSqUnchangedWhenHintHolds(rSq, rets[..|rets| - 1]);
    }
  }

  /** sqrt returns the nonnegative square root of v. */
  predicate IsRoot(sqrt: real -> real, v: real)
  {
    0.0 <= sqrt(v) && sqrt(v) * sqrt(v) == v
  }

  /** A nonnegative root of a value above r * r exceeds r. */
  lemma {:induction false} RootExceeds(s: real, r: real, v: real)
    requires 0.0 <= s && s * s == v && 0.0 <= r && r * r < v
    ensures s > r
  {
  }

  class Hinted {
    /** Trust in the hint, lambda in [0, 1]. */
    const ll: real
    const how: Mode
    /** The trust decay: divides lambda, grows with regret. */
    var r: real
    /** The weights last returned by the unhinted and the hinted strategy. */
    var lastBHat: Option<seq<real>>
    var lastF: Option<seq<real>>
    /** The (return of f, return of bHat) pair of every period so far. */
    ghost var periods: seq<(real, real)>

    /** r >= 1, and r squared is the trust update applied to r = 1 over
        every period so far. */
    ghost predicate Valid()
      reads this`r, this`periods
    {
      && 0.0 <= ll <= 1.0 && r >= 1.0
      && (forall k :: 0 <= k < |periods| ==> Defined(periods[k]))
      && r * r == TrustSqAfter(1.0, periods)
    }

    constructor (ll: real, how: Mode)
      requires 0.0 <= ll <= 1.0
      ensures Valid()
      ensures this.ll == ll && this.how == how
      ensures r == 1.0 && lastBHat == None && lastF == None && periods == []
    {
      this.ll := ll;
      this.how := how;
      r := 1.0;
      lastBHat := None;
      lastF := None;
      periods := [];
    }

    /** Construction from the source's arguments, rejecting them as the
        constructor's checks do. */
    static method New(ll: real, how: string) returns (res: Result<Hinted, ConfigError>)
      ensures res.Failure? ==> CheckConfig(ll, how) == Failure(res.error)
      ensures res.Success? ==>
        && CheckConfig(ll, how) == Success(res.value.how)
        && fresh(res.value) && res.value.Valid() && res.value.ll == ll
        && res.value.r == 1.0 && res.value.lastBHat == None && res.value.lastF == None
        && res.value.periods == []
    {
      var mode := CheckConfig(ll, how);
      if mode.Failure? {
        res := Failure(mode.error);
      } else {
        var h := new Hinted(ll, mode.value);
        res := Success(h);
      }
    }

    /** Return of the previous hinted weights under the relatives x. */
    function ReturnF(x: seq<real>): (ret: real)
      reads this`lastF
      requires lastF.Some? && |lastF.value| == |x|
      ensures NonNegative(lastF.value) && NonNegative(x) ==> ret >= 0.0
      ensures (forall j :: 0 <= j < |x| ==> x[j] == 1.0) ==> ret == Sum(lastF.value)
    {
      DotBounds(lastF.value, x);
      Dot(lastF.value, x)
    }

    /** Return of the previous unhinted weights under the relatives x. */
    function ReturnBHat(x: seq<real>): (ret: real)
      reads this`lastBHat
      requires lastBHat.Some? && |lastBHat.value| == |x|
      ensures NonNegative(lastBHat.value) && NonNegative(x) ==> ret >= 0.0
      ensures (forall j :: 0 <= j < |x| ==> x[j] == 1.0) ==> ret == Sum(lastBHat.value)
    {
      DotBounds(lastBHat.value, x);
      Dot(lastBHat.value, x)
    }

    /** Records both strategies' first weights and returns their combination
        under the current r. */
    method InitWeights(columns: seq<string>, hint: seq<real>,
                       unhintedInit: seq<string> -> seq<real>,
                       hintedInit: (seq<string>, seq<real>) -> seq<real>)
      returns (b: seq<real>)
      requires Valid() && how == Add
      requires |unhintedInit(columns)| == |hintedInit(columns, hint)|
      modifies this`lastBHat, this`lastF
      ensures Valid()
      ensures lastBHat == Some(unhintedInit(columns))
      ensures lastF == Some(hintedInit(columns, hint))
      ensures b == Combine(ll, r, lastBHat.value, lastF.value)
      ensures IsSimplex(lastBHat.value) && IsSimplex(lastF.value) ==> IsSimplex(b)
    {
      lastBHat := Some(unhintedInit(columns));
      lastF := Some(hintedInit(columns, hint));
      b := Combine(ll, r, lastBHat.value, lastF.value);
      if IsSimplex(lastBHat.value) && IsSimplex(lastF.value) {
        CombineSimplex(ll, r, lastBHat.value, lastF.value);
      }
    }

    /** Updates r from the returns of the previous weights under x: r grows
        exactly when the hinted weights returned less than the unhinted ones. */
    method UpdateTrust(x: seq<real>, sqrt: real -> real)
      requires Valid()
      requires lastBHat.Some? && lastF.Some?
      requires |lastBHat.value| == |x| && |lastF.value| == |x|
      requires ReturnF(x) < ReturnBHat(x) ==> ReturnBHat(x) > 0.0
      requires ReturnF(x) < ReturnBHat(x) ==>
        IsRoot(sqrt, NextTrustSq(r * r, ReturnF(x), ReturnBHat(x)))
      modifies this`r, this`periods
      ensures Valid()
      ensures periods == old(periods) + [(ReturnF(x), ReturnBHat(x))]
      ensures r * r == NextTrustSq(old(r * r), ReturnF(x), ReturnBHat(x))
      ensures ReturnF(x) >= ReturnBHat(x) ==> r == old(r)
      ensures ReturnF(x) < ReturnBHat(x) ==> r > old(r)
    {
      var returnF := Dot(lastF.value, x);
      var returnBHat := Dot(lastBHat.value, x);
      TrustSqAfterSnoc(1.0, periods, (returnF, returnBHat));
      if returnF < returnBHat {
        var v := NextTrustSq(r * r, returnF, returnBHat);
        RootExceeds(sqrt(v), r, v);
        r := sqrt(v);
      }
      periods := periods + [(returnF, returnBHat)];
    }

    /** Steps each strategy from its own previous weights, records the new
        weights and combines them under the current r. */
    method StepStrategies(x: seq<real>, history: seq<seq<real>>, hint: seq<real>,
                          unhinted: (seq<real>, seq<real>, seq<seq<real>>) -> seq<real>,
                          hinted: (seq<real>, seq<real>, seq<seq<real>>, seq<real>) -> seq<real>)
      returns (b: seq<real>)
      requires Valid() && lastBHat.Some? && lastF.Some?
      requires |unhinted(x, lastBHat.value, history)| == |hinted(x, lastF.value, history, hint)|
      modifies this`lastBHat, this`lastF
      ensures lastBHat == Some(unhinted(x, old(lastBHat.value), history))
      ensures lastF == Some(hinted(x, old(lastF.value), history, hint))
      ensures b == Combine(ll, r, lastBHat.value, lastF.value)
      ensures IsSimplex(lastBHat.value) && IsSimplex(lastF.value) ==> IsSimplex(b)
    {
      var bHat := unhinted(x, lastBHat.value, history);
      var f := hinted(x, lastF.value, history, hint);
      lastBHat := Some(bHat);
      lastF := Some(f);
      b := Combine(ll, r, bHat, f);
      if IsSimplex(bHat) && IsSimplex(f) {
        CombineSimplex(ll, r, bHat, f);
      }
    }

    /** One period: update r from the previous weights' returns, then step
        each strategy from its own previous weights, record and combine them. */
    method Step(x: seq<real>, lastB: seq<real>, history: seq<seq<real>>, hint: seq<real>,
                unhinted: (seq<real>, seq<real>, seq<seq<real>>) -> seq<real>,
                hinted: (seq<real>, seq<real>, seq<seq<real>>, seq<real>) -> seq<real>,
                sqrt: real -> real)
      returns (b: seq<real>)
      requires Valid() && how == Add
      requires lastBHat.Some? && lastF.Some?
      requires |lastBHat.value| == |x| && |lastF.value| == |x|
      requires ReturnF(x) < ReturnBHat(x) ==> ReturnBHat(x) > 0.0
      requires ReturnF(x) < ReturnBHat(x) ==>
        IsRoot(sqrt, NextTrustSq(r * r, ReturnF(x), ReturnBHat(x)))
      requires |unhinted(x, lastBHat.value, history)| == |hinted(x, lastF.value, history, hint)|
      modifies this`r, this`periods, this`lastBHat, this`lastF
      ensures Valid()
      ensures periods == old(periods) + [(old(ReturnF(x)), old(ReturnBHat(x)))]
      ensures r * r == NextTrustSq(old(r * r), old(ReturnF(x)), old(ReturnBHat(x)))
      ensures old(ReturnF(x)) >= old(ReturnBHat(x)) ==> r == old(r)
      ensures old(ReturnF(x)) < old(ReturnBHat(x)) ==> r > old(r)
      ensures lastBHat == Some(unhinted(x, old(lastBHat.value), history))
      ensures lastF == Some(hinted(x, old(lastF.value), history, hint))
      ensures b == Combine(ll, r, lastBHat.value, lastF.value)
      ensures IsSimplex(lastBHat.value) && IsSimplex(lastF.value) ==> IsSimplex(b)
    {
      UpdateTrust(x, sqrt);
      b := StepStrategies(x, history, hint, unhinted, hinted);
    }
  }
}
