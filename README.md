# Hint-aware online portfolio selection in Dafny

This project models the decision logic of four components of the
universal-portfolios-with-ml library. Each period, a strategy receives the
vector `x` of price relatives (today's price over yesterday's, one per
asset). It may also receive a *hint*, a per-asset forecast. It answers with
portfolio weights.

- **Greedy** (`greedy.dfy`) puts all weight on the first asset where the hint
  is largest. It builds the result in an array: a zero vector with one slot
  set to 1.
- **Hinted** (`hinted.dfy`) is a class. It blends an unhinted strategy's
  weights `bHat` with a hinted strategy's weights `f` as
  `(1 - ll/r)·bHat + (ll/r)·f`. The trust parameter `r` starts at 1. `r²`
  grows by the relative shortfall `(ret(bHat) - ret(f)) / ret(bHat)` in every
  period where the hinted weights returned less. The class records both
  strategies' last weights and passes each strategy its own. A ghost field
  `periods` records each period's pair of returns, so that `Valid()` ties
  `r²` to the trust update replayed over every period so far.
- **UPSI** (`up_si.dfy`) is a class holding two arrays:
  - a mesh `W` of candidate constant-rebalanced portfolios, P points × m assets;
  - a wealth table `S`, m regimes × P points.

  `InitStep` stretches the mesh about the uniform portfolio according to the
  leverage, and fills `S` with ones. `Step` works in three stages:
  - it takes the hint's argmax as the regime;
  - it multiplies, in place, that regime's wealth row by every mesh point's
    return `W[p]·x`;
  - it returns the mixture `Wᵀ·S[s]`, divided by its own sum.
- **MAPredictor** (`ma_predictor.dfy`) is the moving-average hint. It keeps
  no state: it reads the last rows `history[-(w-1):]` of the history it is
  given. For each asset it averages 1 with the reciprocals of the suffix
  products of that window. This
  is the average of the window's prices relative to the latest price.

`vectors.dfy` holds the vector vocabulary shared by all four: `Sum`, `Dot`,
linear combinations, `OneHot`, the simplex, a first-index `ArgMax`, and their
lemmas. `wrappers.dfy` holds `Option` and `Result`.

All numbers are Dafny `real`: exact arithmetic, not floating point. The
sub-strategies of Hinted are function-valued parameters:
- the unhinted one, a universal portfolio by default;
- the hinted one, Greedy by default.

The square root that Hinted applies to `r²` is also a parameter, `sqrt`. The
caller promises that `sqrt` returns the nonnegative root of the one value it
is applied to. The UPSI mesh is an input of `InitStep`.

The source allocates the wealth table with the transpose of the mesh's
shape (`universal/algos/up_si.py:50`). That gives m regime rows by P point
columns, and the model follows the code. `S` is `array2` with
`S.Length0 == W.Length1` and `S.Length1 == W.Length0`.

## Model

| member | source | states |
|---|---|---|
| Vectors.ArgMax | universal/algos/greedy.py:33 | the index returned holds a largest entry, and every earlier entry is strictly smaller (numpy's first maximum) |
| Vectors.ArgMaxUnique | universal/algos/greedy.py:10-11 | those two properties determine the index, so ties go to the first one |
| Greedy.GreedyPortfolio | universal/algos/greedy.py:29-34 | the result has the hint's length and is the one-hot vector at the hint's first maximum: entry i is 1 iff i is that index, and 0 otherwise; it lies on the simplex |
| Greedy.InitWeights | universal/algos/greedy.py:36-37 | the first weights are the greedy portfolio of the hint, a simplex point |
| Greedy.Step | universal/algos/greedy.py:42-43 | every later step returns the same greedy portfolio of the hint, whatever the relatives, previous weights and history |
| Greedy.ThreeAssetExample | universal/algos/greedy.py:29-34 | the hint [0.1, 0.9, 0.2] yields [0, 1, 0] |
| Hinted.CheckConfig | universal/algos/hinted.py:33-36 | a configuration is accepted exactly when lambda is in [0, 1] and the mode is "add" or "mult"; a lambda out of range is reported first; "add" selects the arithmetic mode |
| Hinted.Hinted.New | universal/algos/hinted.py:33-47 | construction fails with CheckConfig's error, or yields a fresh object with r = 1, both last weights unset, and the chosen mode |
| Hinted.Combine | universal/algos/hinted.py:55-57 | the blend has the unhinted weights' length; lambda 0 gives the unhinted weights unchanged, lambda equal to r gives the hinted weights, and wherever the two strategies agree the blend agrees with them |
| Hinted.BlendWeight | universal/algos/hinted.py:57 | with lambda in [0, 1] and r >= 1, the hinted share ll/r lies in [0, 1] and never exceeds lambda |
| Hinted.CombineSumsToOne | universal/algos/hinted.py:57 | two weight vectors summing to 1 combine into one summing to 1, for any nonzero r |
| Hinted.CombineSimplex | universal/algos/hinted.py:57 | with lambda in [0, 1] and r >= 1, two simplex points combine into a simplex point |
| Hinted.CombineHalfIsAverage | universal/algos/hinted.py:57 | lambda 1/2 with r = 1 gives the elementwise average |
| Hinted.NextTrustSq | universal/algos/hinted.py:78-82 | the update never decreases r squared, and leaves it unchanged exactly when the hinted return is at least the unhinted one |
| Hinted.TrustSqAfterSnoc | universal/algos/hinted.py:78-82 | replaying the trust update over one more period applies NextTrustSq once more to the r squared reached before it |
| Hinted.TrustSqMonotone | universal/algos/hinted.py:78-82 | over any sequence of periods, r squared after i periods is at most r squared after any later j |
| Hinted.TrustSqAtLeastOne | universal/algos/hinted.py:78-82 | starting from r = 1, r squared stays at least 1 after any sequence of periods |
| Hinted.TrustSqUnchangedWhenHintHolds | universal/algos/hinted.py:78 | periods in which the hint did at least as well never change r |
| Hinted.RootExceeds | universal/algos/hinted.py:79-82 | the nonnegative root of a value above r² is above r, so r strictly grows when updated |
| Hinted.Hinted.InitWeights | universal/algos/hinted.py:61-67 | records both strategies' first weights as the last weights and returns their combination under the current r; simplex inputs give a simplex output |
| Hinted.Hinted.ReturnF | universal/algos/hinted.py:75 | the return of the previous hinted weights is nonnegative for nonnegative weights and relatives, and equals their total weight in a period where every relative is 1 |
| Hinted.Hinted.ReturnBHat | universal/algos/hinted.py:76 | the same two facts for the return of the previous unhinted weights |
| Hinted.Hinted.UpdateTrust | universal/algos/hinted.py:75-82 | r² becomes NextTrustSq of the old r² and the two returns of the previous weights, and that pair is appended to the recorded periods, so r² stays the update replayed from r = 1 over all periods; r is unchanged when the hint did at least as well, and strictly larger otherwise; r >= 1 is kept |
| Hinted.Hinted.StepStrategies | universal/algos/hinted.py:84-95 | each strategy is stepped from its own previous weights, both new weights are recorded as the last weights, and the result is their combination under the current r; simplex sub-results give a simplex result |
| Hinted.Hinted.Step | universal/algos/hinted.py:73-95 | updates r and the recorded periods as UpdateTrust does, from the returns of the weights recorded before the call; then steps each strategy from its own previous weights, records the new weights, and returns their combination under the new r; simplex sub-results give a simplex result |
| UpSi.StretchFactor | universal/algos/up_si.py:53-54 | the stretch is nonnegative, at most 1 without leverage, exactly 1 at leverage 1, and 0 at any leverage up to 1/m |
| UpSi.StretchEntry | universal/algos/up_si.py:55 | one stretched weight: stretch 1 keeps the weight, stretch 0 gives the uniform weight, and a weight already uniform stays uniform |
| UpSi.StretchRow | universal/algos/up_si.py:55 | a stretched mesh point has the point's length; stretch 1 keeps the point, and stretch 0 gives the uniform portfolio |
| UpSi.StretchRowIsLin | universal/algos/up_si.py:55 | a stretched mesh point is st·row + (1 - st)·uniform |
| UpSi.StretchPreservesSum | universal/algos/up_si.py:52-55 | stretching keeps a mesh point's weights summing to 1 |
| UpSi.StretchIdentity | universal/algos/up_si.py:53-55 | leverage 1 leaves the mesh as it is |
| UpSi.StretchCollapse | universal/algos/up_si.py:53-55 | leverage at most 1/m collapses every mesh point to the uniform portfolio |
| UpSi.StretchNonNegative | universal/algos/up_si.py:53-55 | without leverage above 1, stretched weights stay nonnegative |
| UpSi.StretchedPoint | universal/algos/up_si.py:52-55 | a mesh point summing to 1 still sums to 1 after the stretch, and a simplex point stays on the simplex when leverage <= 1 |
| UpSi.Normalize | universal/algos/up_si.py:65 | dividing by the sum is defined exactly when the sum is nonzero; the result then has the same length, sums to 1, times the sum gives back each entry, and lies on the simplex when the input is nonnegative |
| UpSi.NormalizeByTotal | universal/algos/up_si.py:65 | with the total known in advance, normalising is defined exactly when that total is nonzero, and each result entry times the total gives back the input entry |
| UpSi.MixtureMass | universal/algos/up_si.py:63 | the mixture Wᵀ·S[s] has total mass S[s]·(row sums of W), so with mesh points summing to 1 its sum is the regime's total wealth |
| UpSi.Mixture | universal/algos/up_si.py:63 | the mixture has one entry per asset; it sums to the regime's total wealth when every mesh point sums to 1, and is nonnegative for a nonnegative mesh and wealth row |
| UpSi.UPSI.constructor | universal/algos/up_si.py:20-38 | a new object stores the mesh size and the leverage and starts with an empty mesh and wealth table |
| UpSi.UPSI.InitWeights | universal/algos/up_si.py:40-42 | the first weights are uniform: all entries equal, summing to 1 for m > 0 |
| UpSi.UPSI.InitStep | universal/algos/up_si.py:44-55 | the mesh becomes the stretched input mesh; the wealth table has m regime rows, each with one entry per mesh point, all equal to 1; rows summing to 1, or simplex rows with leverage <= 1, keep that property |
| UpSi.UPSI.MeshReturn | universal/algos/up_si.py:62 | a loop computes the return W[p]·x of one mesh point |
| UpSi.UPSI.MeshReturns | universal/algos/up_si.py:62 | the mesh returns W·x have one entry per mesh point, nonnegative for a nonnegative mesh and nonnegative relatives |
| UpSi.UPSI.UpdateRegime | universal/algos/up_si.py:62 | row s of the wealth table becomes its old value times every mesh point's return, elementwise; no other row changes |
| UpSi.UPSI.FlatPeriodReturnsOne | universal/algos/up_si.py:62 | when every mesh point sums to 1, all relatives equal to 1 give every mesh point a return of 1 |
| UpSi.UPSI.SimplexMeshReturnsPositive | universal/algos/up_si.py:62 | simplex mesh points earn a positive return under positive relatives |
| UpSi.UPSI.WealthUpdate | universal/algos/up_si.py:62 | multiplying a wealth row by returns of 1 leaves it unchanged, keeps it nonnegative or positive when both factors are, and a positive nonempty row keeps a positive total |
| UpSi.UPSI.AdvanceRegime | universal/algos/up_si.py:62 | only row s of the wealth table changes, to its old value times the mesh returns; a flat period leaves it unchanged; positive wealth stays positive, with a positive total, under a simplex mesh and positive relatives; nonnegative wealth stays nonnegative under a nonnegative mesh and relatives |
| UpSi.UPSI.MixtureEntry | universal/algos/up_si.py:63 | a loop computes entry j of Wᵀ·S[s] |
| UpSi.UPSI.RegimeMixture | universal/algos/up_si.py:63 | the loop fills the whole mixture Wᵀ·S[s] |
| UpSi.UPSI.NormalizedMixture | universal/algos/up_si.py:63-65 | the result is the normalised mixture, one weight per asset summing to 1 whenever defined; with mesh points summing to 1 it is defined exactly when the regime's total wealth is nonzero, and each weight times that total is the mixture entry; it is a simplex point for a nonnegative mesh and wealth row |
| UpSi.UPSI.Step | universal/algos/up_si.py:57-65 | the regime is the hint's argmax, and only its wealth row is multiplied by the mesh returns (the mesh and other rows keep their values); the result is the normalised mixture, summing to 1 whenever defined, and defined exactly when the regime's new total wealth is nonzero if mesh points sum to 1; a flat period leaves the row unchanged; positive wealth stays positive under a simplex mesh and positive relatives, and the result is then always defined and on the simplex; nonnegative inputs give a simplex result whenever it is defined |
| MaPredictor.Train | universal/hints/ma_predictor.py:21-22 | training leaves the predictor unchanged |
| MaPredictor.SliceFrom | universal/hints/ma_predictor.py:25 | Python's slice h[start:] is a suffix of h: of length min(-start, len(h)) for a negative start, and len(h) - min(start, len(h)) otherwise |
| MaPredictor.Window | universal/hints/ma_predictor.py:25 | for w >= 2 the window is the last min(w - 1, len(history)) rows; for w = 1 the slice history[-0:] is the whole history; for w <= 0 it drops the first 1 - w rows |
| MaPredictor.Reverse | universal/hints/ma_predictor.py:27-28 | np.flipud: same length, entry i is entry len - 1 - i of the input |
| MaPredictor.CumProd | universal/hints/ma_predictor.py:27-28 | np.cumprod along axis 0 keeps the number of rows and the row width |
| MaPredictor.SuffixCumProd | universal/hints/ma_predictor.py:27-28 | the flipped cumprod of the flipped window keeps the number of rows and the row width |
| MaPredictor.CumProdIsPrefixProduct | universal/hints/ma_predictor.py:27-28 | row k of numpy's cumprod along axis 0 is the product of rows 0..k |
| MaPredictor.SuffixCumProdIsSuffixProduct | universal/hints/ma_predictor.py:27-28 | cprod[i][j], the flipped cumprod of the flipped window, is the product of column j over rows i..L-1 |
| MaPredictor.SuffixCumProdNonZero | universal/hints/ma_predictor.py:27-31 | nonzero relatives give nonzero cprod entries, so every reciprocal is defined |
| MaPredictor.AverageReciprocal | universal/hints/ma_predictor.py:30-32 | (1 + Σ 1/vᵢ) / (len(v) + 1) is 1 when every vᵢ is 1, and positive when every vᵢ is positive |
| MaPredictor.WindowHint | universal/hints/ma_predictor.py:30-32 | the hint computed from a window has one entry per asset |
| MaPredictor.GetHint | universal/hints/ma_predictor.py:24-32 | the hint has one entry per asset |
| MaPredictor.WindowHintFormula | universal/hints/ma_predictor.py:27-32 | hint entry j is (1 + Σ_i 1 / (product of column j over rows i..L-1)) / (L + 1) computed over the window |
| MaPredictor.HintFormula | universal/hints/ma_predictor.py:24-32 | the same formula for get_hint itself, with L the truncated history's length |
| MaPredictor.EmptyHistoryAllOnes | universal/hints/ma_predictor.py:25-32 | an empty history yields a hint of all ones |
| MaPredictor.WindowHintOnes | universal/hints/ma_predictor.py:27-32 | a window of all-1 relatives gives the hint of all ones |
| MaPredictor.WindowHintPositive | universal/hints/ma_predictor.py:27-32 | a window of positive relatives gives a positive hint |
| MaPredictor.FlatWindowAllOnes | universal/hints/ma_predictor.py:30-32 | a window whose relatives all equal 1 yields a hint of all ones |
| MaPredictor.PositiveWindowPositiveHint | universal/hints/ma_predictor.py:30-32 | strictly positive relatives yield a strictly positive hint |
| MaPredictor.WindowHintLocal | universal/hints/ma_predictor.py:28-31 | two windows of equal length that agree on column j give the same hint entry j |
| MaPredictor.HintColumnLocal | universal/hints/ma_predictor.py:28-31 | each asset's hint depends only on that asset's column of the window, not on next_x |
| MaPredictor.HintUsesRecentRows | universal/hints/ma_predictor.py:25 | for w >= 2, dropping all but the last min(w - 1, len(history)) rows changes neither the window nor the hint |

## Left out

- Floating point: every number is an exact `real`, so rounding in numpy's arithmetic and in `np.sqrt` is not modelled.
- Hinted.Hinted.Step: `np.sqrt` is a caller-supplied function, required only to return the nonnegative root of the one value it is applied to.
- Hinted.Hinted.Step, Hinted.Hinted.UpdateTrust: require a positive unhinted return whenever the hinted return is smaller, so the path where that return is 0 is not modelled. There numpy's float division by zero gives infinity with a warning rather than an error, `r` becomes infinite, and from then on `ll/r` is 0 and the output is the unhinted weights alone. A negative unhinted return is not excluded by any check in the source either.
- Hinted.Hinted.Step, Hinted.Hinted.InitWeights: require the 'add' mode. The geometric 'mult' mode (universal/algos/hinted.py:59) needs real powers, which Dafny lacks. CheckConfig still accepts 'mult'.
- Hinted.Hinted.Step: requires both last weights to be set. The source fails with an attribute error if `step` runs before `init_weights`.
- The sub-strategies (the unhinted universal portfolio and Greedy by default) are function parameters. Their own internal state is not modelled, and neither is the aliasing of the shared default arguments at universal/algos/hinted.py:20.
- Hinted.init_step only forwards its arguments to the two sub-strategies. Those have no modelled state, so it is not an operation of the model.
- Greedy.init_step does nothing, and the model's Greedy keeps no state, so it is not an operation of the model either.
- The `hinter` argument and its `isinstance(hinter, Hinter)` checks are not modelled: the hint is passed to every operation as a vector. universal/hinter.py, an abstract base, is not part of this model.
- universal/hints/shaky_oracle.py is not part of this model. Its hint is `next_x` plus random noise.
- The mesh generator `tools.mc_simplex` is external: UpSi.UPSI.InitStep takes its output as the `mesh` argument. The requested mesh size `eval_points` is stored as a `nat`, without Python's `int()` truncation of a float argument.
- UpSi.UPSI.InitStep: requires m >= 2. At m = 1 the stretch divides by 1 - 1/m = 0, which is a Python division error.
- UpSi.UPSI.Step: returns `None` where the mixture sums to zero. numpy would divide by zero and return non-finite weights.
- UpSi.UPSI.Step: wealth positivity is stated for a mesh of simplex points. A nonnegative mesh point whose weights are all zero would earn a return of 0.
- UpSi.UPSI.Step: does not itself state that each weight times the regime's total wealth is the mixture entry. That entrywise fact is in UpSi.UPSI.NormalizedMixture's contract, which Step calls on the updated table; repeating it in Step's contract makes the proof too costly.
- Greedy.GreedyPortfolio, Greedy.InitWeights, Greedy.Step: require a nonempty hint. `np.argmax` raises an error on an empty array.
- MaPredictor.GetHint: requires every relative in the window to be nonzero. numpy would yield an infinite reciprocal.
- `PRICE_TYPE`, `REPLACE_MISSING`, the `Algo` harness, `tools.quickrun` and the numpy/pandas shape handling (`np.matrix`, `flatten`, `reshape`) are not modelled. The `min_history` values are the `MinHistory` constants.
