/** Universal portfolios with side information: one Cover-style universal
    portfolio per regime, where the regime of a period is the asset the hint
    favours. All regimes share one mesh of candidate constant-rebalanced
    portfolios; each regime keeps its own wealth for every mesh point. */
module UpSi {
  import opened Wrappers
  import opened Vectors

  /** Periods of history the harness must supply before the first step. */
  const MinHistory: nat := 0

  /** The factor by which mesh points are pulled towards (0) or pushed away
      from (above 1) the uniform portfolio; leverage below 1/m counts as 1/m. */
  function StretchFactor(leverage: real, m: nat): (st: real)
    requires m >= 2
    ensures st >= 0.0
    ensures leverage <= 1.0 ==> st <= 1.0
    ensures leverage == 1.0 ==> st == 1.0
    ensures leverage <= 1.0 / (m as real) ==> st == 0.0
  {
    var u := 1.0 / (m as real);
    assert u <= 0.5;
    var lev := if leverage < u then u else leverage;
    (lev - u) / (1.0 - u)
  }

  /** One mesh coordinate after stretching by st about the uniform weight u. */
  function StretchEntry(w: real, u: real, st: real): (e: real)
    ensures st == 1.0 ==> e == w
    ensures st == 0.0 ==> e == u
    ensures w == u ==> e == u
  {
    (w - u) * st + u
  }

  /** A mesh point stretched about the uniform portfolio, whose weights all
      equal u. */
  function StretchRow(row: seq<real>, u: real, st: real): (r: seq<real>)
    ensures |r| == |row|
    ensures st == 1.0 ==> r == row
    ensures st == 0.0 ==> r == Constant(|row|, u)
  {
    seq(|row|, j requires 0 <= j < |row| => StretchEntry(row[j], u, st))
  }

  lemma {:induction false} StretchEntryLinear(w: real, u: real, st: real)
    ensures StretchEntry(w, u, st) == st * w + 1.0 * ((1.0 - st) * u)
  {
  }

  lemma {:induction false} StretchMass(st: real, u: real, mr: real, total: real, shift: real)
    requires mr * u == 1.0 && total == 1.0 && shift == mr * ((1.0 - st) * u)
    ensures st * total + 1.0 * shift == 1.0
  {
    assert shift == (1.0 - st) * (mr * u);
  }

  lemma {:induction false} Reciprocal(mr: real)
    requires mr != 0.0
    ensures mr * (1.0 / mr) == 1.0
  {
  }

  /** Stretching is the affine map st * row + (1 - st) * uniform. */
  lemma {:induction false} StretchRowIsLin(row: seq<real>, u: real, st: real)
    ensures StretchRow(row, u, st) == Lin(st, row, 1.0, Constant(|row|, (1.0 - st) * u))
  {
    var c := Constant(|row|, (1.0 - st) * u);
    forall j | 0 <= j < |row| ensures StretchRow(row, u, st)[j] == Lin(st, row, 1.0, c)[j] {
      StretchEntryLinear(row[j], u, st);
    }
  }

  /** Stretching about the uniform portfolio of |row| assets keeps a mesh
      point's weights summing to 1. */
  lemma {:induction false} StretchPreservesSum(row: seq<real>, u: real, st: real)
    requires (|row| as real) * u == 1.0 && Sum(row) == 1.0
    ensures Sum(StretchRow(row, u, st)) == 1.0
  {
    var c := Constant(|row|, (1.0 - st) * u);
    StretchRowIsLin(row, u, st);
    SumLin(st, row, 1.0, c);
    SumConstant(|row|, (1.0 - st) * u);
    StretchMass(st, u, |row| as real, Sum(row), Sum(c));
  }

  /** Leverage 1 leaves the mesh as it is. */
  lemma {:induction false} StretchIdentity(row: seq<real>, m: nat)
    requires m >= 2
    ensures StretchRow(row, 1.0 / (m as real), StretchFactor(1.0, m)) == row
  {
  }

  /** Leverage at most 1/m collapses every mesh point to the uniform portfolio. */
  lemma {:induction false} StretchCollapse(row: seq<real>, m: nat, leverage: real)
    requires m >= 2 && leverage <= 1.0 / (m as real)
    ensures StretchRow(row, 1.0 / (m as real), StretchFactor(leverage, m)) ==
      Constant(|row|, 1.0 / (m as real))
  {
  }

  /** Without leverage above 1, stretching keeps weights nonnegative. */
  lemma {:induction false} StretchNonNegative(row: seq<real>, u: real, st: real)
    requires u >= 0.0 && 0.0 <= st <= 1.0 && NonNegative(row)
    ensures NonNegative(StretchRow(row, u, st))
  {
    forall j | 0 <= j < |row| ensures StretchRow(row, u, st)[j] >= 0.0 {
      StretchEntryLinear(row[j], u, st);
      ProductNonNegative(st, row[j]);
      ProductNonNegative(1.0 - st, u);
    }
  }

  /** What InitStep establishes for one mesh point. */
  lemma {:induction false} StretchedPoint(row: seq<real>, m: nat, leverage: real)
    requires m >= 2 && |row| == m
    ensures var st := StretchFactor(leverage, m);
      (Sum(row) == 1.0 ==> Sum(StretchRow(row, 1.0 / (m as real), st)) == 1.0) &&
      (IsSimplex(row) && leverage <= 1.0 ==> IsSimplex(StretchRow(row, 1.0 / (m as real), st)))
  {
    var st := StretchFactor(leverage, m);
    var u := 1.0 / (m as real);
    Reciprocal(m as real);
    if Sum(row) == 1.0 {
      StretchPreservesSum(row, u, st);
    }
    if IsSimplex(row) && leverage <= 1.0 {
      StretchNonNegative(row, u, st);
    }
  }

  /** Divides a vector by its own sum; None where that sum is zero, for which
      the modelled code has no finite answer. */
  function Normalize(v: seq<real>): (r: Option<seq<real>>)
    ensures r.Some? <==> Sum(v) != 0.0
    ensures r.Some? ==> |r.value| == |v| && Sum(r.value) == 1.0
    ensures r.Some? ==> forall j :: 0 <= j < |v| ==> r.value[j] * Sum(v) == v[j]
    ensures r.Some? && NonNegative(v) ==> IsSimplex(r.value)
  {
    var t := Sum(v);
    if t == 0.0 then None
    else
      DivideByTotal(v, t);
      Some(Divide(v, t))
  }

  /** Dividing a vector by its nonzero total gives a vector summing to 1 that
      times the total gives it back; nonnegative stays nonnegative. */
  lemma {:induction false} DivideByTotal(v: seq<real>, t: real)
    requires t == Sum(v) && t != 0.0
    ensures Sum(Divide(v, t)) == 1.0
    ensures forall j :: 0 <= j < |v| ==> Divide(v, t)[j] * t == v[j]
    ensures NonNegative(v) ==> NonNegative(Divide(v, t))
  {
    SumDivide(v, t);
    DivideSelf(t);
    DivideScaleBack(v, t);
    if NonNegative(v) {
      SumNonNegative(v);
      DivideKeepsNonNegative(v, t);
    }
  }

  lemma {:induction false} DivideScaleBack(v: seq<real>, t: real)
    requires t != 0.0
    ensures forall j :: 0 <= j < |v| ==> Divide(v, t)[j] * t == v[j]
  {
    forall j | 0 <= j < |v| ensures Divide(v, t)[j] * t == v[j] {
      DivideBack(v[j], t);
    }
  }

  lemma {:induction false} DivideKeepsNonNegative(v: seq<real>, t: real)
    requires t > 0.0 && NonNegative(v)
    ensures NonNegative(Divide(v, t))
  {
    forall j | 0 <= j < |v| ensures Divide(v, t)[j] >= 0.0 {
      DivideNonNegativeEntry(v[j], t);
    }
  }

  lemma {:induction false} DivideBack(x: real, t: real)
    requires t != 0.0
    ensures (x / t) * t == x
  {
  }

  lemma {:induction false} DivideNonNegativeEntry(x: real, t: real)
    requires x >= 0.0 && t > 0.0
    ensures x / t >= 0.0
  {
  }

  /** Normalising a vector whose entries add up to total divides by total. */
  lemma {:induction false} NormalizeByTotal(v: seq<real>, total: real)
    requires Sum(v) == total
    ensures Normalize(v).Some? <==> total != 0.0
    ensures Normalize(v).Some? ==> forall j :: 0 <= j < |v| ==> Normalize(v).value[j] * total == v[j]
  {
  }

  /** Row i of a matrix. */
  function Row(a: array2<real>, i: nat): (r: seq<real>)
    reads a
    requires i < a.Length0
    ensures |r| == a.Length1
  {
    seq(a.Length1, j requires 0 <= j < a.Length1 reads a => a[i, j])
  }

  /** Column j of a matrix. */
  function Col(a: array2<real>, j: nat): (r: seq<real>)
    reads a
    requires j < a.Length1
    ensures |r| == a.Length0
  {
    seq(a.Length0, i requires 0 <= i < a.Length0 reads a => a[i, j])
  }

  ghost predicate NonNegativeMatrix(a: array2<real>)
    reads a
  {
    forall i, j :: 0 <= i < a.Length0 && 0 <= j < a.Length1 ==> a[i, j] >= 0.0
  }

  /** Every mesh point's weights sum to 1. */
  ghost predicate RowsSumToOne(a: array2<real>)
    reads a
  {
    forall i :: 0 <= i < a.Length0 ==> Sum(Row(a, i)) == 1.0
  }

  /** Every mesh point is an unleveraged portfolio. */
  ghost predicate RowsOnSimplex(a: array2<real>)
    reads a
  {
    forall i :: 0 <= i < a.Length0 ==> IsSimplex(Row(a, i))
  }

  /** A simplex mesh sums to 1 row by row and has no negative weight. */
  lemma {:induction false} SimplexRows(a: array2<real>)
    ensures RowsOnSimplex(a) ==> RowsSumToOne(a) && NonNegativeMatrix(a)
  {
    if RowsOnSimplex(a) {
      forall i, j | 0 <= i < a.Length0 && 0 <= j < a.Length1 ensures a[i, j] >= 0.0 {
        assert IsSimplex(Row(a, i)) && Row(a, i)[j] == a[i, j];
      }
    }
  }

  /** The total weight of every mesh point. */
  ghost function RowSums(a: array2<real>): (r: seq<real>)
    reads a
    ensures |r| == a.Length0
    ensures RowsSumToOne(a) ==> r == Constant(a.Length0, 1.0)
  {
    seq(a.Length0, i requires 0 <= i < a.Length0 reads a => Sum(Row(a, i)))
  }

  /** The mixture over the first p mesh points only. */
  ghost function PartialMixture(W: array2<real>, S: array2<real>, s: nat, p: nat): (mix: seq<real>)
    reads W, S
    requires S.Length1 == W.Length0 && s < S.Length0 && p <= W.Length0
    ensures |mix| == W.Length1
  {
    seq(W.Length1, j requires 0 <= j < W.Length1 reads W, S => Dot(Col(W, j)[..p], Row(S, s)[..p]))
  }

  /** Adding mesh point p to the mixture adds its weights scaled by its wealth. */
  lemma {:induction false} PartialMixtureStep(W: array2<real>, S: array2<real>, s: nat, p: nat)
    requires S.Length1 == W.Length0 && s < S.Length0 && p < W.Length0
    ensures PartialMixture(W, S, s, p + 1) == Lin(1.0, PartialMixture(W, S, s, p), S[s, p], Row(W, p))
  {
    var wealth := Row(S, s);
    forall j | 0 <= j < W.Length1
      ensures PartialMixture(W, S, s, p + 1)[j] ==
        1.0 * PartialMixture(W, S, s, p)[j] + S[s, p] * Row(W, p)[j]
    {
      var col := Col(W, j);
      assert col[..p + 1][..p] == col[..p] && wealth[..p + 1][..p] == wealth[..p];
      assert Dot(col[..p + 1], wealth[..p + 1]) == Dot(col[..p], wealth[..p]) + W[p, j] * S[s, p];
    }
    var lin := Lin(1.0, PartialMixture(W, S, s, p), S[s, p], Row(W, p));
    assert forall j :: 0 <= j < W.Length1 ==> PartialMixture(W, S, s, p + 1)[j] == lin[j];
  }

  /** Summing the partial mixture over the assets gives the wealth-weighted
      total weight of the first p mesh points. */
  lemma {:induction false} PartialMixtureMass(W: array2<real>, S: array2<real>, s: nat, p: nat)
    requires S.Length1 == W.Length0 && s < S.Length0 && p <= W.Length0
    ensures Sum(PartialMixture(W, S, s, p)) == Dot(Row(S, s)[..p], RowSums(W)[..p])
  {
    var wealth, sums := Row(S, s), RowSums(W);
    if p == 0 {
      assert PartialMixture(W, S, s, 0) == Constant(W.Length1, 0.0);
      SumConstant(W.Length1, 0.0);
    } else {
      var q := p - 1;
      PartialMixtureMass(W, S, s, q);
      PartialMixtureStep(W, S, s, q);
      SumLin(1.0, PartialMixture(W, S, s, q), S[s, q], Row(W, q));
      assert wealth[..p][..q] == wealth[..q] && sums[..p][..q] == sums[..q];
    }
  }

  /** The mixture's total is the wealth-weighted total weight of the mesh. */
  lemma {:induction false} MixtureMass(W: array2<real>, S: array2<real>, s: nat, mix: seq<real>)
    requires S.Length1 == W.Length0 && s < S.Length0 && |mix| == W.Length1
    requires forall j :: 0 <= j < |mix| ==> mix[j] == Dot(Col(W, j), Row(S, s))
    ensures Sum(mix) == Dot(Row(S, s), RowSums(W))
    ensures RowsSumToOne(W) ==> Sum(mix) == Sum(Row(S, s))
  {
    var P := W.Length0;
    forall j | 0 <= j < |mix| ensures mix[j] == PartialMixture(W, S, s, P)[j] {
      assert Col(W, j)[..P] == Col(W, j) && Row(S, s)[..P] == Row(S, s);
    }
    assert mix == PartialMixture(W, S, s, P);
    PartialMixtureMass(W, S, s, P);
    assert Row(S, s)[..P] == Row(S, s) && RowSums(W)[..P] == RowSums(W);
    if RowsSumToOne(W) {
      DotOnes(Row(S, s));
    }
  }

  /** A nonnegative mesh and nonnegative wealth give a nonnegative mixture. */
  lemma {:induction false} MixtureNonNegative(W: array2<real>, S: array2<real>, s: nat, mix: seq<real>)
    requires S.Length1 == W.Length0 && s < S.Length0 && |mix| == W.Length1
    requires forall j :: 0 <= j < |mix| ==> mix[j] == Dot(Col(W, j), Row(S, s))
    ensures NonNegativeMatrix(W) && NonNegative(Row(S, s)) ==> NonNegative(mix)
  {
    if NonNegativeMatrix(W) && NonNegative(Row(S, s)) {
      forall j | 0 <= j < |mix| ensures mix[j] >= 0.0 {
        DotNonNegative(Col(W, j), Row(S, s));
      }
    }
  }

  /** The wealth-weighted sum W^T . S[s] of the mesh points under regime s,
      before normalisation. */
  ghost function Mixture(W: array2<real>, S: array2<real>, s: nat): (mix: seq<real>)
    reads W, S
    requires S.Length1 == W.Length0 && s < S.Length0
    ensures |mix| == W.Length1
    ensures RowsSumToOne(W) ==> Sum(mix) == Sum(Row(S, s))
    ensures NonNegativeMatrix(W) && NonNegative(Row(S, s)) ==> NonNegative(mix)
  {
    var mix := seq(W.Length1, j requires 0 <= j < W.Length1 reads W, S => Dot(Col(W, j), Row(S, s)));
    MixtureMass(W, S, s, mix);
    MixtureNonNegative(W, S, s, mix);
    mix
  }

  /** A nonnegative mesh has nonnegative returns under nonnegative relatives. */
  lemma {:induction false} ReturnsNonNegative(W: array2<real>, x: seq<real>, rets: seq<real>)
    requires |x| == W.Length1 && |rets| == W.Length0
    requires forall p :: 0 <= p < |rets| ==> rets[p] == Dot(Row(W, p), x)
    ensures NonNegativeMatrix(W) && NonNegative(x) ==> NonNegative(rets)
  {
    if NonNegativeMatrix(W) && NonNegative(x) {
      forall p | 0 <= p < |rets| ensures rets[p] >= 0.0 {
        DotNonNegative(Row(W, p), x);
      }
    }
  }

  class UPSI {
    /** The requested mesh size, handed to the external mesh generator. */
    const evalPoints: nat
    const leverage: real
    /** The mesh: one candidate portfolio per row (mesh points x assets). */
    var W: array2<real>
    /** The wealth table: one row per regime, one entry per mesh point. */
    var S: array2<real>

    ghost predicate Valid()
      reads this
    {
      W != S && S.Length0 == W.Length1 && S.Length1 == W.Length0
    }

    constructor (evalPoints: nat, leverage: real)
      ensures Valid()
      ensures this.evalPoints == evalPoints && this.leverage == leverage
      ensures W.Length0 == 0 && W.Length1 == 0
    {
      this.evalPoints := evalPoints;
      this.leverage := leverage;
      W := new real[0, 0];
      S := new real[0, 0];
    }

    /** The first-period weights: uniform over the assets. */
    function InitWeights(columns: seq<string>): (b: seq<real>)
      ensures |b| == |columns|
      ensures |columns| > 0 ==> IsSimplex(b)
      ensures forall i, j :: 0 <= i < |b| && 0 <= j < |b| ==> b[i] == b[j]
    {
      var m := |columns|;
      if m == 0 then []
      else
        SumConstant(m, 1.0 / (m as real));
        Constant(m, 1.0 / (m as real))
    }

    /** Builds the stretched mesh from the generator's points and a wealth
        table of ones, m regimes by |mesh| points. */
    method InitStep(m: nat, mesh: seq<seq<real>>)
      requires m >= 2
      requires forall p :: 0 <= p < |mesh| ==> |mesh[p]| == m
      modifies this
      ensures Valid() && fresh(W) && fresh(S)
      ensures W.Length0 == |mesh| && W.Length1 == m
      ensures forall p :: 0 <= p < |mesh| ==>
        Row(W, p) == StretchRow(mesh[p], 1.0 / (m as real), StretchFactor(leverage, m))
      ensures forall i, p :: 0 <= i < m && 0 <= p < |mesh| ==> S[i, p] == 1.0
      ensures (forall p :: 0 <= p < |mesh| ==> Sum(mesh[p]) == 1.0) ==> RowsSumToOne(W)
      ensures (forall p :: 0 <= p < |mesh| ==> IsSimplex(mesh[p])) && leverage <= 1.0 ==>
        RowsOnSimplex(W)
    {
      var st := StretchFactor(leverage, m);
      var u := 1.0 / (m as real);
      var n := |mesh|;
      S := new real[m, n]((i, p) => 1.0);
      W := new real[n, m]((p, j) requires 0 <= p < n && 0 <= j < m =>
        StretchEntry(mesh[p][j], u, st));
      forall p | 0 <= p < n
        ensures Row(W, p) == StretchRow(mesh[p], u, st)
        ensures Sum(mesh[p]) == 1.0 ==> Sum(Row(W, p)) == 1.0
        ensures IsSimplex(mesh[p]) && leverage <= 1.0 ==> IsSimplex(Row(W, p))
      {
        assert Row(W, p) == StretchRow(mesh[p], u, st);
        StretchedPoint(mesh[p], m, leverage);
      }
    }

    /** The return W[p] . x of mesh point p in the period with relatives x. */
    method MeshReturn(p: nat, x: seq<real>) returns (ret: real)
      requires p < W.Length0 && |x| == W.Length1
      ensures ret == Dot(Row(W, p), x)
    {
      ghost var row := Row(W, p);
      ret := 0.0;
      var j := 0;
      while j < W.Length1
        invariant 0 <= j <= W.Length1
        invariant ret == Dot(row[..j], x[..j])
      {
        assert row[..j + 1][..j] == row[..j] && x[..j + 1][..j] == x[..j];
        ret := ret + W[p, j] * x[j];
        j := j + 1;
      }
      assert row[..j] == row && x[..j] == x;
    }

    /** The return W[p] . x of every mesh point p. */
    ghost function MeshReturns(x: seq<real>): (r: seq<real>)
      reads this, W
      requires |x| == W.Length1
      ensures |r| == W.Length0
      ensures NonNegativeMatrix(W) && NonNegative(x) ==> NonNegative(r)
    {
      var w := W;
      var rets := seq(w.Length0, p requires 0 <= p < w.Length0 reads w => Dot(Row(w, p), x));
      ReturnsNonNegative(w, x, rets);
      rets
    }

    /** Multiplies regime s's wealth of every mesh point by that point's
        return; no other regime's wealth changes. */
    method UpdateRegime(s: nat, x: seq<real>)
      requires Valid() && s < S.Length0 && |x| == W.Length1
      modifies S
      ensures forall i, p :: 0 <= i < S.Length0 && 0 <= p < S.Length1 && i != s ==>
        S[i, p] == old(S[i, p])
      ensures Row(S, s) == Mul(old(Row(S, s)), MeshReturns(x))
    {
      ghost var before := Row(S, s);
      ghost var rets := MeshReturns(x);
      ghost var after := Mul(before, rets);
      var p := 0;
      while p < S.Length1
        invariant 0 <= p <= S.Length1
        invariant forall i, q :: 0 <= i < S.Length0 && 0 <= q < S.Length1 && i != s ==>
          S[i, q] == old(S[i, q])
        invariant forall q :: 0 <= q < p ==> S[s, q] == after[q]
        invariant forall q :: p <= q < S.Length1 ==> S[s, q] == before[q]
      {
        var ret := MeshReturn(p, x);
        assert ret == rets[p] && S[s, p] == before[p];
        S[s, p] := S[s, p] * ret;
        p := p + 1;
      }
      forall q | 0 <= q < S.Length1 ensures Row(S, s)[q] == after[q] {
      }
      assert Row(S, s) == Mul(before, rets);
    }

    /** The wealth update of regime s, with what it keeps: unchanged prices
        leave the wealth alone, and positive (nonnegative) wealth stays
        positive (nonnegative) when the returns are. */
    method AdvanceRegime(s: nat, x: seq<real>)
      requires Valid() && s < S.Length0 && |x| == W.Length1
      modifies S
      ensures forall i, p :: 0 <= i < S.Length0 && 0 <= p < S.Length1 && i != s ==>
        S[i, p] == old(S[i, p])
      ensures Row(S, s) == Mul(old(Row(S, s)), MeshReturns(x))
      ensures (forall j :: 0 <= j < |x| ==> x[j] == 1.0) && RowsSumToOne(W) ==>
        Row(S, s) == old(Row(S, s))
      ensures old(Positive(Row(S, s))) && RowsOnSimplex(W) && Positive(x) ==>
        Positive(Row(S, s)) && (W.Length0 > 0 ==> Sum(Row(S, s)) > 0.0)
      ensures old(NonNegative(Row(S, s))) && NonNegativeMatrix(W) && NonNegative(x) ==>
        NonNegative(Row(S, s))
    {
      ghost var before := Row(S, s);
      UpdateRegime(s, x);
      if (forall j :: 0 <= j < |x| ==> x[j] == 1.0) && RowsSumToOne(W) {
        FlatPeriodReturnsOne(x);
      }
      if RowsOnSimplex(W) && Positive(x) {
        SimplexMeshReturnsPositive(x);
      }
      WealthUpdate(before, MeshReturns(x));
    }

    /** What multiplying a wealth row by the mesh returns keeps. */
    static lemma {:induction false} WealthUpdate(before: seq<real>, rets: seq<real>)
      requires |before| == |rets|
      ensures rets == Constant(|rets|, 1.0) ==> Mul(before, rets) == before
      ensures NonNegative(before) && NonNegative(rets) ==> NonNegative(Mul(before, rets))
      ensures Positive(before) && Positive(rets) ==> Positive(Mul(before, rets))
      ensures Positive(before) && Positive(rets) && |rets| > 0 ==> Sum(Mul(before, rets)) > 0.0
    {
      MulOnes(before);
      if NonNegative(before) && NonNegative(rets) {
        MulNonNegative(before, rets);
      }
      if Positive(before) && Positive(rets) {
        MulPositive(before, rets);
        if |rets| > 0 {
          SumPositive(Mul(before, rets));
        }
      }
    }

    /** With every mesh point summing to 1, a period of unchanged prices
        returns exactly 1 on every mesh point. */
    lemma {:induction false} FlatPeriodReturnsOne(x: seq<real>)
      requires |x| == W.Length1 && RowsSumToOne(W)
      requires forall j :: 0 <= j < |x| ==> x[j] == 1.0
      ensures MeshReturns(x) == Constant(W.Length0, 1.0)
    {
      assert x == Constant(|x|, 1.0);
      forall p | 0 <= p < W.Length0 ensures MeshReturns(x)[p] == 1.0 {
        DotOnes(Row(W, p));
      }
    }

    /** Mesh points on the simplex have a positive return under positive
        price relatives. */
    lemma {:induction false} SimplexMeshReturnsPositive(x: seq<real>)
      requires |x| == W.Length1 && RowsOnSimplex(W)
      requires Positive(x)
      ensures Positive(MeshReturns(x))
    {
      forall p | 0 <= p < W.Length0 ensures MeshReturns(x)[p] > 0.0 {
        DotPositive(Row(W, p), x);
      }
    }

    /** Entry j of the mixture: the weight of asset j summed over the mesh,
        each point weighted by its wealth under regime s. */
    method MixtureEntry(j: nat, s: nat) returns (v: real)
      requires Valid() && j < W.Length1 && s < S.Length0
      ensures v == Dot(Col(W, j), Row(S, s))
    {
      ghost var col, wealth := Col(W, j), Row(S, s);
      v := 0.0;
      var p := 0;
      while p < W.Length0
        invariant 0 <= p <= W.Length0
        invariant v == Dot(col[..p], wealth[..p])
      {
        assert col[..p + 1][..p] == col[..p] && wealth[..p + 1][..p] == wealth[..p];
        v := v + W[p, j] * S[s, p];
        p := p + 1;
      }
      assert col[..p] == col && wealth[..p] == wealth;
    }

    /** The unnormalised mixture W^T . S[s] of the mesh points. */
    method RegimeMixture(s: nat) returns (mix: seq<real>)
      requires Valid() && s < S.Length0
      ensures mix == Mixture(W, S, s)
    {
      var a := new real[W.Length1];
      var j := 0;
      while j < a.Length
        invariant 0 <= j <= a.Length
        invariant forall k :: 0 <= k < j ==> a[k] == Dot(Col(W, k), Row(S, s))
      {
        a[j] := MixtureEntry(j, s);
        j := j + 1;
      }
      mix := a[..];
    }

    /** The weights regime s proposes: its mixture divided by its total.
        When every mesh point sums to 1 that total is the regime's wealth,
        so the result is the wealth-weighted average of the mesh points. */
    method NormalizedMixture(s: nat) returns (b: Option<seq<real>>)
      requires Valid() && s < S.Length0
      ensures b == Normalize(Mixture(W, S, s))
      ensures b.Some? ==> |b.value| == W.Length1 && Sum(b.value) == 1.0
      ensures RowsSumToOne(W) ==> (b.Some? <==> Sum(Row(S, s)) != 0.0)
      ensures RowsSumToOne(W) && b.Some? ==> forall j :: 0 <= j < W.Length1 ==>
        b.value[j] * Sum(Row(S, s)) == Mixture(W, S, s)[j]
      ensures b.Some? && NonNegativeMatrix(W) && NonNegative(Row(S, s)) ==> IsSimplex(b.value)
    {
      var mix := RegimeMixture(s);
      b := Normalize(mix);
      if RowsSumToOne(W) {
        NormalizeByTotal(mix, Sum(Row(S, s)));
      }
    }

    /** One period: the hint's argmax picks the regime, only that regime's
        wealth is updated, and the result is its wealth-weighted mixture of
        the mesh, normalised to sum to 1. */
    method Step(x: seq<real>, lastB: seq<real>, history: seq<seq<real>>, hint: seq<real>)
      returns (b: Option<seq<real>>)
      requires Valid() && |hint| == S.Length0 && |hint| > 0 && |x| == W.Length1
      modifies S
      ensures forall i, p :: 0 <= i < S.Length0 && 0 <= p < S.Length1 && i != ArgMax(hint) ==>
        S[i, p] == old(S[i, p])
      ensures Row(S, ArgMax(hint)) == Mul(old(Row(S, ArgMax(hint))), MeshReturns(x))
      ensures b == Normalize(Mixture(W, S, ArgMax(hint)))
      ensures b.Some? ==> |b.value| == |x| && Sum(b.value) == 1.0
      ensures (forall j :: 0 <= j < |x| ==> x[j] == 1.0) && RowsSumToOne(W) ==>
        Row(S, ArgMax(hint)) == old(Row(S, ArgMax(hint)))
      ensures old(Positive(Row(S, ArgMax(hint)))) && RowsOnSimplex(W) && Positive(x) ==>
        Positive(Row(S, ArgMax(hint)))
      ensures RowsSumToOne(W) ==> (b.Some? <==> Sum(Row(S, ArgMax(hint))) != 0.0)
      ensures (b.Some? && NonNegativeMatrix(W) && NonNegative(x) &&
               old(NonNegative(Row(S, ArgMax(hint))))) ==> IsSimplex(b.value)
      ensures (old(Positive(Row(S, ArgMax(hint)))) && RowsOnSimplex(W) && Positive(x) &&
               W.Length0 > 0) ==> b.Some? && IsSimplex(b.value)
    {
      var s := ArgMax(hint);
      AdvanceRegime(s, x);
      SimplexRows(W);
      b := NormalizedMixture(s);
    }
  }
}
