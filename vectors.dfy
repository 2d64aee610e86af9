/** Real-valued vectors: the sums, dot products, linear combinations and
    argmax that the portfolio strategies are built from. */
module Vectors {

  /** Sum of the entries, accumulated from the front (index 0) to the back. */
  function Sum(v: seq<real>): real
  {
    if |v| == 0 then 0.0 else Sum(v[..|v| - 1]) + v[|v| - 1]
  }

  /** Dot product of two vectors of equal length. */
  function Dot(a: seq<real>, b: seq<real>): real
    requires |a| == |b|
  {
    if |a| == 0 then 0.0 else Dot(a[..|a| - 1], b[..|b| - 1]) + a[|a| - 1] * b[|b| - 1]
  }

  /** The vector of length n whose entries all equal c. */
  function Constant(n: nat, c: real): seq<real>
  {
    seq(n, _ => c)
  }

  /** The elementwise linear combination a*u + c*v. */
  function Lin(a: real, u: seq<real>, c: real, v: seq<real>): seq<real>
    requires |u| == |v|
  {
    seq(|u|, i requires 0 <= i < |u| => a * u[i] + c * v[i])
  }

  /** Every entry divided by t. */
  function Divide(v: seq<real>, t: real): seq<real>
    requires t != 0.0
  {
    seq(|v|, i requires 0 <= i < |v| => v[i] / t)
  }

  /** Elementwise product of two vectors of equal length. */
  function Mul(u: seq<real>, v: seq<real>): seq<real>
    requires |u| == |v|
  {
    seq(|u|, i requires 0 <= i < |u| => u[i] * v[i])
  }

  /** The unit vector of length n with its 1 at index k. */
  function OneHot(n: nat, k: nat): seq<real>
    requires k < n
  {
    seq(n, i => if i == k then 1.0 else 0.0)
  }

  predicate NonNegative(v: seq<real>)
  {
    forall i :: 0 <= i < |v| ==> v[i] >= 0.0
  }

  predicate Positive(v: seq<real>)
  {
    forall i :: 0 <= i < |v| ==> v[i] > 0.0
  }

  /** A point of the unit simplex: an unleveraged portfolio. */
  predicate IsSimplex(v: seq<real>)
  {
    NonNegative(v) && Sum(v) == 1.0
  }

  /** The first index of a largest entry, as numpy's argmax chooses it. */
  function ArgMax(v: seq<real>): (k: nat)
    requires |v| > 0
    ensures k < |v|
    ensures forall j :: 0 <= j < |v| ==> v[j] <= v[k]
    ensures forall j :: 0 <= j < k ==> v[j] < v[k]
  {
    if |v| == 1 then 0
    else
      var k' := ArgMax(v[..|v| - 1]);
      if v[|v| - 1] > v[k'] then |v| - 1 else k'
  }

  /** The two properties of ArgMax pick out exactly one index. */
  lemma {:induction false} ArgMaxUnique(v: seq<real>, k: nat)
    requires k < |v|
    requires forall j :: 0 <= j < |v| ==> v[j] <= v[k]
    requires forall j :: 0 <= j < k ==> v[j] < v[k]
    ensures k == ArgMax(v)
  {
  }

  lemma {:induction false} ScaleStep(a: real, su: real, un: real, tu: real)
    requires tu == su + un
    ensures a * su + a * un == a * tu
  {
  }

  /** Scaling every entry by a scales the sum by a. */
  lemma {:induction false} SumScale(w: seq<real>, a: real, u: seq<real>)
    requires |w| == |u|
    requires forall i :: 0 <= i < |w| ==> w[i] == a * u[i]
    ensures Sum(w) == a * Sum(u)
  {
    if |w| > 0 {
      var n := |w| - 1;
      SumScale(w[..n], a, u[..n]);
      ScaleStep(a, Sum(u[..n]), u[n], Sum(u));
    }
  }

  /** The sum of an elementwise sum is the sum of the sums. */
  lemma {:induction false} SumAdd(w: seq<real>, u: seq<real>, v: seq<real>)
    requires |w| == |u| == |v|
    requires forall i :: 0 <= i < |w| ==> w[i] == u[i] + v[i]
    ensures Sum(w) == Sum(u) + Sum(v)
  {
    if |w| > 0 {
      var n := |w| - 1;
      SumAdd(w[..n], u[..n], v[..n]);
    }
  }

  /** Sum is linear. */
  lemma {:induction false} SumLin(a: real, u: seq<real>, c: real, v: seq<real>)
    requires |u| == |v|
    ensures Sum(Lin(a, u, c, v)) == a * Sum(u) + c * Sum(v)
  {
    var au := seq(|u|, i requires 0 <= i < |u| => a * u[i]);
    var cv := seq(|v|, i requires 0 <= i < |v| => c * v[i]);
    SumScale(au, a, u);
    SumScale(cv, c, v);
    forall i | 0 <= i < |u| ensures Lin(a, u, c, v)[i] == au[i] + cv[i] {
      assert au[i] == a * u[i] && cv[i] == c * v[i];
    }
    SumAdd(Lin(a, u, c, v), au, cv);
  }

  lemma {:induction false} DivideAdd(x: real, y: real, t: real)
    requires t != 0.0
    ensures x / t + y / t == (x + y) / t
  {
  }

  lemma {:induction false} DivideSelf(x: real)
    requires x != 0.0
    ensures x / x == 1.0
  {
  }

  lemma {:induction false} SumDivide(v: seq<real>, t: real)
    requires t != 0.0
    ensures Sum(Divide(v, t)) == Sum(v) / t
  {
    if |v| > 0 {
      var n := |v| - 1;
      assert Divide(v, t)[..n] == Divide(v[..n], t);
      SumDivide(v[..n], t);
      DivideAdd(Sum(v[..n]), v[n], t);
    }
  }

  lemma {:induction false} SumConstant(n: nat, c: real)
    ensures Sum(Constant(n, c)) == n as real * c
  {
    if n > 0 {
      assert Constant(n, c)[..n - 1] == Constant(n - 1, c);
      SumConstant(n - 1, c);
    }
  }

  lemma {:induction false} SumNonNegative(v: seq<real>)
    requires NonNegative(v)
    ensures Sum(v) >= 0.0
  {
    if |v| > 0 {
      SumNonNegative(v[..|v| - 1]);
    }
  }

  lemma {:induction false} SumPositive(v: seq<real>)
    requires |v| > 0 && Positive(v)
    ensures Sum(v) > 0.0
  {
    SumNonNegative(v[..|v| - 1]);
  }

  lemma {:induction false} SumOneHot(n: nat, k: nat)
    requires k < n
    ensures Sum(OneHot(n, k)) == 1.0
  {
    if k == n - 1 {
      assert OneHot(n, k)[..n - 1] == Constant(n - 1, 0.0);
      SumConstant(n - 1, 0.0);
    } else {
      assert OneHot(n, k)[..n - 1] == OneHot(n - 1, k);
      SumOneHot(n - 1, k);
    }
  }

  /** Dotting with the all-ones vector sums the entries. */
  lemma {:induction false} DotOnes(a: seq<real>)
    ensures Dot(a, Constant(|a|, 1.0)) == Sum(a)
  {
    if |a| > 0 {
      var n := |a| - 1;
      assert Constant(|a|, 1.0)[..n] == Constant(n, 1.0);
      DotOnes(a[..n]);
    }
  }

  /** What a portfolio return is under nonnegative and under unchanged prices. */
  lemma {:induction false} DotBounds(a: seq<real>, x: seq<real>)
    requires |a| == |x|
    ensures NonNegative(a) && NonNegative(x) ==> Dot(a, x) >= 0.0
    ensures (forall j :: 0 <= j < |x| ==> x[j] == 1.0) ==> Dot(a, x) == Sum(a)
  {
    if NonNegative(a) && NonNegative(x) {
      DotNonNegative(a, x);
    }
    if forall j :: 0 <= j < |x| ==> x[j] == 1.0 {
      assert x == Constant(|a|, 1.0);
      DotOnes(a);
    }
  }

  lemma {:induction false} DotNonNegative(a: seq<real>, x: seq<real>)
    requires |a| == |x| && NonNegative(a) && NonNegative(x)
    ensures Dot(a, x) >= 0.0
  {
    if |a| > 0 {
      var n := |a| - 1;
      DotNonNegative(a[..n], x[..n]);
      assert a[n] * x[n] >= 0.0;
    }
  }

  /** A nonnegative vector with a positive sum has a positive return
      under strictly positive price relatives. */
  lemma {:induction false} DotPositive(a: seq<real>, x: seq<real>)
    requires |a| == |x| && NonNegative(a) && Sum(a) > 0.0
    requires forall j :: 0 <= j < |x| ==> x[j] > 0.0
    ensures Dot(a, x) > 0.0
  {
    var n := |a| - 1;
    var a', x' := a[..n], x[..n];
    if Sum(a') > 0.0 {
      DotPositive(a', x');
      assert a[n] * x[n] >= 0.0;
    } else {
      SumNonNegative(a');
      DotNonNegative(a', x');
      assert a[n] > 0.0;
      assert a[n] * x[n] > 0.0;
    }
  }

  lemma {:induction false} ProductNonNegative(x: real, y: real)
    requires x >= 0.0 && y >= 0.0
    ensures x * y >= 0.0
  {
  }

  /** A combination with nonnegative coefficients of nonnegative vectors is
      nonnegative. */
  lemma {:induction false} LinNonNegative(a: real, u: seq<real>, c: real, v: seq<real>)
    requires |u| == |v| && a >= 0.0 && c >= 0.0 && NonNegative(u) && NonNegative(v)
    ensures NonNegative(Lin(a, u, c, v))
  {
    forall i | 0 <= i < |u| ensures Lin(a, u, c, v)[i] >= 0.0 {
      ProductNonNegative(a, u[i]);
      ProductNonNegative(c, v[i]);
    }
  }

  /** The combinations with coefficients (1, 0) and (0, 1) pick out one side. */
  lemma {:induction false} LinEnds(u: seq<real>, v: seq<real>)
    requires |u| == |v|
    ensures Lin(1.0, u, 0.0, v) == u && Lin(0.0, u, 1.0, v) == v
  {
  }

  /** Positive vectors have a positive elementwise product. */
  lemma {:induction false} MulPositive(u: seq<real>, v: seq<real>)
    requires |u| == |v| && Positive(u) && Positive(v)
    ensures Positive(Mul(u, v))
  {
    forall i | 0 <= i < |u| ensures Mul(u, v)[i] > 0.0 {
      assert u[i] > 0.0 && v[i] > 0.0;
    }
  }

  /** Nonnegative vectors have a nonnegative elementwise product. */
  lemma {:induction false} MulNonNegative(u: seq<real>, v: seq<real>)
    requires |u| == |v| && NonNegative(u) && NonNegative(v)
    ensures NonNegative(Mul(u, v))
  {
    forall i | 0 <= i < |u| ensures Mul(u, v)[i] >= 0.0 {
      ProductNonNegative(u[i], v[i]);
    }
  }

  lemma {:induction false} MulOnes(u: seq<real>)
    ensures Mul(u, Constant(|u|, 1.0)) == u
  {
  }
}
