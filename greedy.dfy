/** The greedy hinted strategy: all weight on the asset with the largest
    predicted return. It keeps no state between periods. */
module Greedy {
  import opened Vectors

  /** Periods of history the harness must supply before the first step. */
  const MinHistory: nat := 1

  /** Allocates a zero vector and writes a single 1 at the first index
      where the hint is largest. */
  method GreedyPortfolio(hint: seq<real>) returns (b: seq<real>)
    requires |hint| > 0
    ensures b == OneHot(|hint|, ArgMax(hint))
    ensures |b| == |hint| && IsSimplex(b)
    ensures forall i :: 0 <= i < |b| ==> (b[i] == 1.0 <==> i == ArgMax(hint))
    ensures forall i :: 0 <= i < |b| ==> (b[i] == 0.0 <==> i != ArgMax(hint))
    ensures forall j :: 0 <= j < |hint| ==> hint[j] <= hint[ArgMax(hint)]
    ensures forall j :: 0 <= j < ArgMax(hint) ==> hint[j] < hint[ArgMax(hint)]
  {
    var a := new real[|hint|](_ => 0.0);
    var k := ArgMax(hint);
    a[k] := 1.0;
    b := a[..];
    assert b == OneHot(|hint|, k);
    SumOneHot(|hint|, k);
  }

  /** The first-period weights: the greedy portfolio of the first hint. */
  method InitWeights(columns: seq<string>, hint: seq<real>) returns (b: seq<real>)
    requires |hint| > 0
    ensures b == OneHot(|hint|, ArgMax(hint)) && IsSimplex(b)
  {
    b := GreedyPortfolio(hint);
  }

  /** Every later period: the greedy portfolio of the new hint, whatever the
      price relatives, the previous weights and the history. */
  method Step(x: seq<real>, lastB: seq<real>, history: seq<seq<real>>, hint: seq<real>)
    returns (b: seq<real>)
    requires |hint| > 0
    ensures b == OneHot(|hint|, ArgMax(hint)) && IsSimplex(b)
  {
    b := GreedyPortfolio(hint);
  }

  /** The hint [0.1, 0.9, 0.2] puts all weight on the second asset. */
  lemma {:induction false} ThreeAssetExample()
    ensures OneHot(3, ArgMax([0.1, 0.9, 0.2])) == [0.0, 1.0, 0.0]
  {
    ArgMaxUnique([0.1, 0.9, 0.2], 1);
  }
}
