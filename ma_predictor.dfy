/** The moving-average reversion hint: for each asset, the average of 1 and
    the reciprocals of the asset's price-relative products over the most
    recent periods, i.e. the average of past prices relative to the latest. */
module MaPredictor {
  import opened Vectors

  /** A predictor for n assets with window size w. */
  datatype MAPredictor = MAPredictor(n: nat, w: int)

  /** Training has nothing to fit. */
  function Train(p: MAPredictor, X: seq<seq<real>>, y: seq<seq<real>>): (p': MAPredictor)
    ensures p' == p
  {
    p
  }

  /** Every row has n entries: a history matrix for n assets. */
  predicate WellShaped(h: seq<seq<real>>, n: nat)
  {
    forall k :: 0 <= k < |h| ==> |h[k]| == n
  }

  predicate HasColumn(h: seq<seq<real>>, j: nat)
  {
    forall k :: 0 <= k < |h| ==> j < |h[k]|
  }

  predicate AllNonZero(h: seq<seq<real>>)
  {
    forall k, j :: 0 <= k < |h| && 0 <= j < |h[k]| ==> h[k][j] != 0.0
  }

  predicate AllPositive(h: seq<seq<real>>)
  {
    forall k, j :: 0 <= k < |h| && 0 <= j < |h[k]| ==> h[k][j] > 0.0
  }

  /** Python's slice h[start:], where a negative start counts from the end
      and an out-of-range start is clamped. */
  function SliceFrom<T>(h: seq<T>, start: int): (r: seq<T>)
    ensures |r| == if start < 0 then Min(-start, |h|) else |h| - Min(start, |h|)
    ensures r == h[|h| - |r|..]
  {
    if start < 0 then h[if |h| + start < 0 then 0 else |h| + start..]
    else h[if start > |h| then |h| else start..]
  }

  /** The rows history[-(w-1):] that the hint is computed from: for w >= 2
      the last min(w - 1, |history|) rows, for w == 1 (the slice history[-0:])
      the whole history, and for w <= 0 all but the first 1 - w rows. */
  function Window(history: seq<seq<real>>, w: int): (win: seq<seq<real>>)
    ensures w >= 2 ==> win == history[|history| - Min(w - 1, |history|)..]
    ensures w == 1 ==> win == history
    ensures w <= 0 ==> win == history[Min(1 - w, |history|)..]
  {
    SliceFrom(history, -(w - 1))
  }

  function Min(a: int, b: int): int
  {
    if a < b then a else b
  }

  function Reverse<T>(s: seq<T>): (r: seq<T>)
    ensures |r| == |s|
    ensures forall i :: 0 <= i < |s| ==> r[i] == s[|s| - 1 - i]
  {
    if |s| == 0 then [] else Reverse(s[1..]) + [s[0]]
  }

  /** Running elementwise products down the rows, as numpy's cumprod along
      axis 0: row k is the product of rows 0..k. */
  function CumProd(T: seq<seq<real>>, n: nat): (c: seq<seq<real>>)
    requires WellShaped(T, n)
    ensures |c| == |T| && WellShaped(c, n)
  {
    if |T| == 0 then []
    else
      var c := CumProd(T[..|T| - 1], n);
      c + [if |c| == 0 then T[|T| - 1] else Mul(c[|c| - 1], T[|T| - 1])]
  }

  /** flipud(cumprod(flipud(T))): row i is the product of rows i..|T|-1. */
  function SuffixCumProd(T: seq<seq<real>>, n: nat): (c: seq<seq<real>>)
    requires WellShaped(T, n)
    ensures |c| == |T| && WellShaped(c, n)
  {
    Reverse(CumProd(Reverse(T), n))
  }

  /** Reference definition: the product of column j over all rows of T. */
  function ColumnProduct(T: seq<seq<real>>, j: nat): real
    requires HasColumn(T, j)
  {
    if |T| == 0 then 1.0 else T[0][j] * ColumnProduct(T[1..], j)
  }

  /** Column j of a matrix. */
  function Column(C: seq<seq<real>>, j: nat): (col: seq<real>)
    requires HasColumn(C, j)
    ensures |col| == |C|
  {
    seq(|C|, k requires 0 <= k < |C| => C[k][j])
  }

  function Reciprocals(v: seq<real>): seq<real>
    requires forall i :: 0 <= i < |v| ==> v[i] != 0.0
  {
    seq(|v|, i requires 0 <= i < |v| => 1.0 / v[i])
  }

  /** The reference suffix products of column j: entry i multiplies rows i.. of T. */
  function SuffixProducts(T: seq<seq<real>>, j: nat): (r: seq<real>)
    requires HasColumn(T, j)
    ensures |r| == |T|
  {
    seq(|T|, i requires 0 <= i < |T| => ColumnProduct(T[i..], j))
  }

  lemma {:induction false} ColumnProductSnoc(A: seq<seq<real>>, row: seq<real>, j: nat)
    requires HasColumn(A, j) && j < |row|
    ensures ColumnProduct(A + [row], j) == ColumnProduct(A, j) * row[j]
  {
    if |A| > 0 {
      assert (A + [row])[1..] == A[1..] + [row];
      ColumnProductSnoc(A[1..], row, j);
    }
  }

  /** The product does not depend on the order of the rows. */
  lemma {:induction false} ColumnProductReverse(U: seq<seq<real>>, j: nat)
    requires HasColumn(U, j)
    ensures ColumnProduct(Reverse(U), j) == ColumnProduct(U, j)
  {
    if |U| > 0 {
      ColumnProductReverse(U[1..], j);
      ColumnProductSnoc(Reverse(U[1..]), U[0], j);
    }
  }

  /** Unfolds CumProd at its last row. */
  lemma {:induction false} CumProdLast(R: seq<seq<real>>, n: nat)
    requires WellShaped(R, n) && |R| >= 2
    ensures CumProd(R, n)[|R| - 1] == Mul(CumProd(R[..|R| - 1], n)[|R| - 2], R[|R| - 1])
    ensures CumProd(R, n)[..|R| - 1] == CumProd(R[..|R| - 1], n)
  {
  }

  lemma {:induction false} ColumnProductPrefixStep(R: seq<seq<real>>, k: nat, j: nat)
    requires HasColumn(R, j) && k < |R|
    ensures ColumnProduct(R[..k + 1], j) == ColumnProduct(R[..k], j) * R[k][j]
  {
    assert R[..k + 1] == R[..k] + [R[k]];
    ColumnProductSnoc(R[..k], R[k], j);
  }

  /** Row k of the running products is the product of rows 0..k. */
  lemma {:induction false} CumProdIsPrefixProduct(R: seq<seq<real>>, n: nat, k: nat, j: nat)
    requires WellShaped(R, n) && k < |R| && j < n
    ensures CumProd(R, n)[k][j] == ColumnProduct(R[..k + 1], j)
    decreases |R|, 1
  {
    if |R| == 1 {
      assert R[..1][1..] == [];
    } else {
      var init := R[..|R| - 1];
      CumProdLast(R, n);
      if k < |R| - 1 {
        CumProdIsPrefixProduct(init, n, k, j);
        assert init[..k + 1] == R[..k + 1];
      } else {
        CumProdAtLast(R, n, j);
        assert R[..k + 1] == R;
      }
    }
  }

  /** The last row of the running products, from the row before it. */
  lemma {:induction false} CumProdAtLast(R: seq<seq<real>>, n: nat, j: nat)
    requires WellShaped(R, n) && |R| >= 2 && j < n
    ensures CumProd(R, n)[|R| - 1][j] == ColumnProduct(R, j)
    decreases |R|, 0
  {
    var k := |R| - 1;
    var init := R[..k];
    var c := CumProd(init, n);
    CumProdLast(R, n);
    assert CumProd(R, n)[k][j] == c[k - 1][j] * R[k][j];
    CumProdIsPrefixProduct(init, n, k - 1, j);
    assert init[..k] == init;
    ColumnProductPrefixStep(R, k, j);
    assert R[..k + 1] == R;
  }

  /** The first |T| - i rows of the reversal are the reversal of T[i..]. */
  lemma {:induction false} ReversePrefix<X>(T: seq<X>, i: nat)
    requires i <= |T|
    ensures Reverse(T)[..|T| - i] == Reverse(T[i..])
  {
  }

  /** The code's reversed running products are the suffix products. */
  lemma {:induction false} SuffixCumProdIsSuffixProduct(T: seq<seq<real>>, n: nat, i: nat, j: nat)
    requires WellShaped(T, n) && i < |T| && j < n
    ensures SuffixCumProd(T, n)[i][j] == ColumnProduct(T[i..], j)
  {
    var k := |T| - 1 - i;
    var R := Reverse(T);
    assert SuffixCumProd(T, n)[i] == CumProd(R, n)[k];
    CumProdIsPrefixProduct(R, n, k, j);
    ReversedSuffixProduct(T, n, i, j);
  }

  /** The first |T| - i rows of the reversal multiply to the product of T[i..]. */
  lemma {:induction false} ReversedSuffixProduct(T: seq<seq<real>>, n: nat, i: nat, j: nat)
    requires WellShaped(T, n) && i < |T| && j < n
    ensures HasColumn(Reverse(T)[..|T| - i], j)
    ensures ColumnProduct(Reverse(T)[..|T| - i], j) == ColumnProduct(T[i..], j)
  {
    var suffix := T[i..];
    assert HasColumn(suffix, j);
    ReversePrefix(T, i);
    ColumnProductReverse(suffix, j);
  }

  lemma {:induction false} SuffixCumProdColumn(T: seq<seq<real>>, n: nat, j: nat)
    requires WellShaped(T, n) && j < n
    ensures Column(SuffixCumProd(T, n), j) == SuffixProducts(T, j)
  {
    forall i | 0 <= i < |T|
      ensures Column(SuffixCumProd(T, n), j)[i] == SuffixProducts(T, j)[i]
    {
      SuffixCumProdIsSuffixProduct(T, n, i, j);
    }
  }

  lemma {:induction false} ColumnProductNonZero(T: seq<seq<real>>, j: nat)
    requires HasColumn(T, j) && AllNonZero(T)
    ensures ColumnProduct(T, j) != 0.0
  {
    if |T| > 0 {
      ColumnProductNonZero(T[1..], j);
      assert T[0][j] != 0.0;
    }
  }

  lemma {:induction false} ColumnProductPositive(T: seq<seq<real>>, j: nat)
    requires HasColumn(T, j) && AllPositive(T)
    ensures ColumnProduct(T, j) > 0.0
  {
    if |T| > 0 {
      ColumnProductPositive(T[1..], j);
      assert T[0][j] > 0.0;
    }
  }

  lemma {:induction false} ColumnProductOnes(T: seq<seq<real>>, j: nat)
    requires HasColumn(T, j) && forall k :: 0 <= k < |T| ==> T[k][j] == 1.0
    ensures ColumnProduct(T, j) == 1.0
  {
    if |T| > 0 {
      ColumnProductOnes(T[1..], j);
    }
  }

  /** Column j's product depends on column j alone. */
  lemma {:induction false} ColumnProductLocal(T1: seq<seq<real>>, T2: seq<seq<real>>, j: nat)
    requires HasColumn(T1, j) && HasColumn(T2, j) && |T1| == |T2|
    requires forall k :: 0 <= k < |T1| ==> T1[k][j] == T2[k][j]
    ensures ColumnProduct(T1, j) == ColumnProduct(T2, j)
  {
    if |T1| > 0 {
      ColumnProductLocal(T1[1..], T2[1..], j);
    }
  }

  /** Every product the hint takes a reciprocal of is nonzero. */
  lemma {:induction false} SuffixCumProdNonZero(T: seq<seq<real>>, n: nat)
    requires WellShaped(T, n) && AllNonZero(T)
    ensures AllNonZero(SuffixCumProd(T, n))
  {
    forall i, j | 0 <= i < |T| && 0 <= j < n ensures SuffixCumProd(T, n)[i][j] != 0.0 {
      SuffixCumProdIsSuffixProduct(T, n, i, j);
      ColumnProductNonZero(T[i..], j);
    }
  }

  /** The sum of the reciprocals of all ones, and of positive entries. */
  lemma {:induction false} ReciprocalsSum(v: seq<real>)
    requires forall i :: 0 <= i < |v| ==> v[i] != 0.0
    ensures (forall i :: 0 <= i < |v| ==> v[i] == 1.0) ==> Sum(Reciprocals(v)) == |v| as real
    ensures (forall i :: 0 <= i < |v| ==> v[i] > 0.0) ==> Sum(Reciprocals(v)) >= 0.0
  {
    var r := Reciprocals(v);
    if forall i :: 0 <= i < |v| ==> v[i] == 1.0 {
      assert r == Constant(|v|, 1.0);
      SumConstant(|v|, 1.0);
    }
    if forall i :: 0 <= i < |v| ==> v[i] > 0.0 {
      forall i | 0 <= i < |v| ensures r[i] >= 0.0 {
        DividePositive(1.0, v[i]);
      }
      SumNonNegative(r);
    }
  }

  lemma {:induction false} QuotientFacts(t: real, d: real)
    requires d > 0.0
    ensures t == d ==> t / d == 1.0
    ensures t > 0.0 ==> t / d > 0.0
  {
    if t == d {
      DivideSelf(d);
    }
    if t > 0.0 {
      DividePositive(t, d);
    }
  }

  /** The average of 1 and the reciprocals of the entries of v: 1 when every
      entry is 1, and positive when every entry is. */
  function AverageReciprocal(v: seq<real>): (a: real)
    requires forall i :: 0 <= i < |v| ==> v[i] != 0.0
    ensures (forall i :: 0 <= i < |v| ==> v[i] == 1.0) ==> a == 1.0
    ensures (forall i :: 0 <= i < |v| ==> v[i] > 0.0) ==> a > 0.0
  {
    ReciprocalsSum(v);
    QuotientFacts(1.0 + Sum(Reciprocals(v)), |v| as real + 1.0);
    (1.0 + Sum(Reciprocals(v))) / (|v| as real + 1.0)
  }

  /** The hint computed from a window T of price relatives. */
  function WindowHint(T: seq<seq<real>>, n: nat): (hint: seq<real>)
    requires WellShaped(T, n) && AllNonZero(T)
    ensures |hint| == n
  {
    var C := SuffixCumProd(T, n);
    SuffixCumProdNonZero(T, n);
    seq(n, j requires 0 <= j < n => AverageReciprocal(Column(C, j)))
  }

  /** The hint for the next period; nextX is not used. */
  function GetHint(p: MAPredictor, nextX: seq<real>, history: seq<seq<real>>): (hint: seq<real>)
    requires WellShaped(history, p.n) && AllNonZero(Window(history, p.w))
    ensures |hint| == p.n
  {
    WindowHint(Window(history, p.w), p.n)
  }

  lemma {:induction false} SuffixProductsNonZero(T: seq<seq<real>>, j: nat)
    requires HasColumn(T, j) && AllNonZero(T)
    ensures forall i :: 0 <= i < |T| ==> SuffixProducts(T, j)[i] != 0.0
  {
    forall i | 0 <= i < |T| ensures SuffixProducts(T, j)[i] != 0.0 {
      ColumnProductNonZero(T[i..], j);
    }
  }

  /** Entry j of the hint is the average of 1 and the reciprocals of the
      suffix products of column j of the window. */
  lemma {:induction false} WindowHintFormula(T: seq<seq<real>>, n: nat, j: nat)
    requires WellShaped(T, n) && AllNonZero(T) && j < n
    ensures forall i :: 0 <= i < |T| ==> SuffixProducts(T, j)[i] != 0.0
    ensures WindowHint(T, n)[j] == AverageReciprocal(SuffixProducts(T, j))
  {
    SuffixCumProdColumn(T, n, j);
    SuffixProductsNonZero(T, j);
  }

  /** Entry j of the hint: the average of 1 and the reciprocals of the
      suffix products of column j over the window, that is the average of the
      window's prices of asset j relative to its latest price, with the latest
      price itself counted once. */
  lemma {:induction false} HintFormula(p: MAPredictor, nextX: seq<real>, history: seq<seq<real>>, j: nat)
    requires WellShaped(history, p.n) && AllNonZero(Window(history, p.w)) && j < p.n
    ensures forall i :: 0 <= i < |Window(history, p.w)| ==>
      SuffixProducts(Window(history, p.w), j)[i] != 0.0
    ensures GetHint(p, nextX, history)[j] == AverageReciprocal(SuffixProducts(Window(history, p.w), j))
  {
    WindowHintFormula(Window(history, p.w), p.n, j);
  }

  /** With no history the hint is all ones. */
  lemma {:induction false} EmptyHistoryAllOnes(p: MAPredictor, nextX: seq<real>)
    ensures GetHint(p, nextX, []) == Constant(p.n, 1.0)
  {
    assert Window([], p.w) == [];
    forall j | 0 <= j < p.n ensures GetHint(p, nextX, [])[j] == 1.0 {
      WindowHintFormula([], p.n, j);
    }
  }

  lemma {:induction false} DividePositive(x: real, y: real)
    requires x > 0.0 && y > 0.0
    ensures x / y > 0.0
  {
  }

  /** A window of unchanged prices gives the hint all ones. */
  lemma {:induction false} WindowHintOnes(T: seq<seq<real>>, n: nat)
    requires WellShaped(T, n)
    requires forall k, j :: 0 <= k < |T| && 0 <= j < n ==> T[k][j] == 1.0
    ensures AllNonZero(T)
    ensures WindowHint(T, n) == Constant(n, 1.0)
  {
    forall j | 0 <= j < n ensures WindowHint(T, n)[j] == 1.0 {
      WindowHintFormula(T, n, j);
      forall i | 0 <= i < |T| ensures SuffixProducts(T, j)[i] == 1.0 {
        ColumnProductOnes(T[i..], j);
      }
    }
  }

  /** Strictly positive relatives give a strictly positive hint. */
  lemma {:induction false} WindowHintPositive(T: seq<seq<real>>, n: nat)
    requires WellShaped(T, n) && AllPositive(T)
    ensures AllNonZero(T)
    ensures Positive(WindowHint(T, n))
  {
    forall j | 0 <= j < n ensures WindowHint(T, n)[j] > 0.0 {
      WindowHintFormula(T, n, j);
      forall i | 0 <= i < |T| ensures SuffixProducts(T, j)[i] > 0.0 {
        ColumnProductPositive(T[i..], j);
      }
    }
  }

  /** get_hint over a window of unchanged prices is all ones. */
  lemma {:induction false} FlatWindowAllOnes(p: MAPredictor, nextX: seq<real>, history: seq<seq<real>>)
    requires WellShaped(history, p.n)
    requires forall k, j :: 0 <= k < |Window(history, p.w)| && 0 <= j < p.n ==>
      Window(history, p.w)[k][j] == 1.0
    ensures AllNonZero(Window(history, p.w))
    ensures GetHint(p, nextX, history) == Constant(p.n, 1.0)
  {
    var T := Window(history, p.w);
    assert WellShaped(T, p.n);
    WindowHintOnes(T, p.n);
  }

  /** get_hint over strictly positive relatives is strictly positive. */
  lemma {:induction false} PositiveWindowPositiveHint(p: MAPredictor, nextX: seq<real>, history: seq<seq<real>>)
    requires WellShaped(history, p.n) && AllPositive(Window(history, p.w))
    ensures AllNonZero(Window(history, p.w))
    ensures Positive(GetHint(p, nextX, history))
  {
    var T := Window(history, p.w);
    assert WellShaped(T, p.n);
    WindowHintPositive(T, p.n);
  }

  /** Suffix products of column j depend on column j alone. */
  lemma {:induction false} SuffixProductsLocal(T1: seq<seq<real>>, T2: seq<seq<real>>, j: nat)
    requires HasColumn(T1, j) && HasColumn(T2, j) && |T1| == |T2|
    requires forall k :: 0 <= k < |T1| ==> T1[k][j] == T2[k][j]
    ensures SuffixProducts(T1, j) == SuffixProducts(T2, j)
  {
    forall i | 0 <= i < |T1| ensures SuffixProducts(T1, j)[i] == SuffixProducts(T2, j)[i] {
      ColumnProductLocal(T1[i..], T2[i..], j);
    }
  }

  lemma {:induction false} WindowHintLocal(T1: seq<seq<real>>, T2: seq<seq<real>>, n: nat, j: nat)
    requires WellShaped(T1, n) && AllNonZero(T1) && WellShaped(T2, n) && AllNonZero(T2)
    requires j < n && |T1| == |T2|
    requires forall k :: 0 <= k < |T1| ==> T1[k][j] == T2[k][j]
    ensures WindowHint(T1, n)[j] == WindowHint(T2, n)[j]
  {
    WindowHintFormula(T1, n, j);
    WindowHintFormula(T2, n, j);
    SuffixProductsLocal(T1, T2, j);
  }

  /** Asset j's hint depends only on column j of the window. */
  lemma {:induction false} HintColumnLocal(p: MAPredictor, x1: seq<real>, h1: seq<seq<real>>,
                        x2: seq<real>, h2: seq<seq<real>>, j: nat)
    requires WellShaped(h1, p.n) && AllNonZero(Window(h1, p.w))
    requires WellShaped(h2, p.n) && AllNonZero(Window(h2, p.w))
    requires j < p.n && |Window(h1, p.w)| == |Window(h2, p.w)|
    requires forall k :: 0 <= k < |Window(h1, p.w)| ==> Window(h1, p.w)[k][j] == Window(h2, p.w)[k][j]
    ensures GetHint(p, x1, h1)[j] == GetHint(p, x2, h2)[j]
  {
    var T1, T2 := Window(h1, p.w), Window(h2, p.w);
    WindowHintLocal(T1, T2, p.n, j);
  }

  /** For w >= 2 only the last min(w - 1, |history|) rows matter. */
  lemma {:induction false} HintUsesRecentRows(p: MAPredictor, nextX: seq<real>, history: seq<seq<real>>)
    requires p.w >= 2
    requires WellShaped(history, p.n) && AllNonZero(Window(history, p.w))
    ensures var recent := history[|history| - Min(p.w - 1, |history|)..];
      WellShaped(recent, p.n) && Window(recent, p.w) == Window(history, p.w) &&
      GetHint(p, nextX, recent) == GetHint(p, nextX, history)
  {
    var recent := history[|history| - Min(p.w - 1, |history|)..];
    assert Window(recent, p.w) == recent;
  }
}
