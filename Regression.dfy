/** Multivariate linear regression: z-score feature scaling, full-batch
    gradient descent from all-zero weights, and prediction with a trained model. */
module Regression {
  import opened Wrappers

  type Matrix = seq<seq<real>>

  /** A non-empty matrix whose rows all have the width of the first row. */
  predicate IsMatrix(X: Matrix)
  {
    |X| > 0 && forall i :: 0 <= i < |X| ==> |X[i]| == |X[0]|
  }

  function Width(X: Matrix): nat
    requires IsMatrix(X)
  {
    |X[0]|
  }

  predicate NonZero(sigma: seq<real>)
  {
    forall j :: 0 <= j < |sigma| ==> sigma[j] != 0.0
  }

  // ---------------------------------------------------------------- scaling

  /** Sum of column `j` over the first `i` rows, accumulated top to bottom. */
  function ColumnSum(X: Matrix, j: nat, i: nat): real
    requires IsMatrix(X) && j < Width(X) && i <= |X|
  {
    if i == 0 then 0.0 else ColumnSum(X, j, i - 1) + X[i - 1][j]
  }

  function Mean(X: Matrix, j: nat): real
    requires IsMatrix(X) && j < Width(X)
  {
    ColumnSum(X, j, |X|) / |X| as real
  }

  /** Sum of squared deviations from `mu` of column `j` over the first `i` rows. */
  function SquaredDeviationSum(X: Matrix, j: nat, mu: real, i: nat): real
    requires IsMatrix(X) && j < Width(X) && i <= |X|
  {
    if i == 0 then 0.0
    else SquaredDeviationSum(X, j, mu, i - 1) + (X[i - 1][j] - mu) * (X[i - 1][j] - mu)
  }

  /** The population standard deviation of column `j`, with a zero (falsy)
      root replaced by 1 so that it can always be divided by. */
  function StdDev(X: Matrix, j: nat, sqrt: real -> real): (s: real)
    requires IsMatrix(X) && j < Width(X)
    ensures s != 0.0
  {
    var root := sqrt(SquaredDeviationSum(X, j, Mean(X, j), |X|) / |X| as real);
    if root == 0.0 then 1.0 else root
  }

  function Means(X: Matrix): (mu: seq<real>)
    requires IsMatrix(X)
    ensures |mu| == Width(X)
  {
    seq(Width(X), j requires 0 <= j < Width(X) => Mean(X, j))
  }

  function StdDevs(X: Matrix, sqrt: real -> real): (sigma: seq<real>)
    requires IsMatrix(X)
    ensures |sigma| == Width(X) && NonZero(sigma)
  {
    seq(Width(X), j requires 0 <= j < Width(X) => StdDev(X, j, sqrt))
  }

  /** A raw feature vector in standard units. */
  function Standardize(x: seq<real>, mu: seq<real>, sigma: seq<real>): (z: seq<real>)
    requires |mu| == |x| && |sigma| == |x| && NonZero(sigma)
    ensures |z| == |x|
  {
    seq(|x|, j requires 0 <= j < |x| => (x[j] - mu[j]) / sigma[j])
  }

  function ScaledMatrix(X: Matrix, mu: seq<real>, sigma: seq<real>): (Xs: Matrix)
    requires IsMatrix(X) && |mu| == Width(X) && |sigma| == Width(X) && NonZero(sigma)
    ensures IsMatrix(Xs) && |Xs| == |X| && Width(Xs) == Width(X)
  {
    seq(|X|, i requires 0 <= i < |X| => Standardize(X[i], mu, sigma))
  }

  /** featureScale: column means, guarded standard deviations, and the
      standardized matrix, computed column by column. */
  method FeatureScale(X: Matrix, sqrt: real -> real) returns (Xs: Matrix, mu: seq<real>, sigma: seq<real>)
    requires IsMatrix(X)
    ensures mu == Means(X) && sigma == StdDevs(X, sqrt)
    ensures |mu| == Width(X) && |sigma| == Width(X) && NonZero(sigma)
    ensures Xs == ScaledMatrix(X, mu, sigma)
  {
    var m, n := |X|, |X[0]|;
    var muA := new real[n];
    var j := 0;
    while j < n
      invariant 0 <= j <= n
      invariant forall k :: 0 <= k < j ==> muA[k] == Mean(X, k)
    {
      var sum := 0.0;
      var i := 0;
      while i < m
        invariant 0 <= i <= m
        invariant sum == ColumnSum(X, j, i)
      {
        sum := sum + X[i][j];
        i := i + 1;
      }
      muA[j] := sum / m as real;
      j := j + 1;
    }
    mu := muA[..];

    var sigmaA := new real[n];
    j := 0;
    while j < n
      invariant 0 <= j <= n
      invariant forall k :: 0 <= k < j ==> sigmaA[k] == StdDev(X, k, sqrt)
    {
      var s := 0.0;
      var i := 0;
      while i < m
        invariant 0 <= i <= m
        invariant s == SquaredDeviationSum(X, j, mu[j], i)
      {
        s := s + (X[i][j] - mu[j]) * (X[i][j] - mu[j]);
        i := i + 1;
      }
      var root := sqrt(s / m as real);
      sigmaA[j] := if root == 0.0 then 1.0 else root;
      j := j + 1;
    }
    sigma := sigmaA[..];
    Xs := seq(m, i requires 0 <= i < m => Standardize(X[i], mu, sigma));
  }

  lemma {:induction false} ColumnSumOfConstant(X: Matrix, j: nat, c: real, i: nat)
    requires IsMatrix(X) && j < Width(X) && i <= |X|
    requires forall r :: 0 <= r < |X| ==> X[r][j] == c
    ensures ColumnSum(X, j, i) == i as real * c
  {
    if i > 0 {
      ColumnSumOfConstant(X, j, c, i - 1);
    }
  }

  /** A constant column has that constant as its mean and standardizes to
      all zeros, whatever its guarded standard deviation. */
  lemma ConstantColumnScalesToZero(X: Matrix, j: nat, c: real, sqrt: real -> real)
    requires IsMatrix(X) && j < Width(X)
    requires forall r :: 0 <= r < |X| ==> X[r][j] == c
    ensures Mean(X, j) == c
    ensures forall r :: 0 <= r < |X| ==> ScaledMatrix(X, Means(X), StdDevs(X, sqrt))[r][j] == 0.0
  {
    ColumnSumOfConstant(X, j, c, |X|);
    assert Means(X)[j] == c;
  }

  /** A column whose entries are `(x - m) / s` sums to `(Σx - i*m) / s` over the first `i` rows. */
  lemma {:induction false} ScaledColumnSumPrefix(X: Matrix, S: Matrix, j: nat, m: real, s: real, i: nat)
    requires IsMatrix(X) && IsMatrix(S) && |S| == |X| && j < Width(X) && j < Width(S) && i <= |X|
    requires s != 0.0
    requires forall r :: 0 <= r < |X| ==> S[r][j] == (X[r][j] - m) / s
    ensures ColumnSum(S, j, i) == (ColumnSum(X, j, i) - i as real * m) / s
  {
    if i > 0 {
      ScaledColumnSumPrefix(X, S, j, m, s, i - 1);
      var a, x := ColumnSum(X, j, i - 1), X[i - 1][j];
      assert ColumnSum(S, j, i) == ColumnSum(S, j, i - 1) + S[i - 1][j];
      assert ColumnSum(X, j, i) == a + x;
      AddQuotients(a, x, m, s, i);
    }
  }

  /** The algebra of one more row: `(a - (i-1)*m)/s + (x - m)/s == (a + x - i*m)/s`. */
  lemma AddQuotients(a: real, x: real, m: real, s: real, i: nat)
    requires s != 0.0 && i >= 1
    ensures (a - (i - 1) as real * m) / s + (x - m) / s == (a + x - i as real * m) / s
  {
    assert (a - (i - 1) as real * m) + (x - m) == a + x - i as real * m;
  }

  /** Every column centred on its mean sums to zero, whatever non-zero
      scale divides it; in particular every standardized column has mean 0. */
  lemma ScaledColumnsAreCentred(X: Matrix, j: nat, sigma: seq<real>)
    requires IsMatrix(X) && j < Width(X) && |sigma| == Width(X) && NonZero(sigma)
    ensures ColumnSum(ScaledMatrix(X, Means(X), sigma), j, |X|) == 0.0
  {
    var mu := Means(X);
    var S := ScaledMatrix(X, mu, sigma);
    forall r | 0 <= r < |X|
      ensures S[r][j] == (X[r][j] - mu[j]) / sigma[j]
    {
      assert S[r] == Standardize(X[r], mu, sigma);
    }
    ScaledColumnSumPrefix(X, S, j, mu[j], sigma[j], |X|);
    assert mu[j] == ColumnSum(X, j, |X|) / |X| as real;
    Recentre(ColumnSum(X, j, |X|), |X| as real, sigma[j]);
  }

  /** Taking `m` times the mean `total / m` off the total leaves nothing. */
  lemma Recentre(total: real, m: real, s: real)
    requires m > 0.0 && s != 0.0
    ensures (total - m * (total / m)) / s == 0.0
  {
    assert m * (total / m) == total;
  }

  // ------------------------------------------------------------ prediction

  /** `theta[0] + theta[1]*x[0] + ... + theta[j]*x[j-1]`, accumulated left to right. */
  function Affine(theta: seq<real>, x: seq<real>, j: nat): real
    requires j <= |x| && |x| < |theta|
  {
    if j == 0 then theta[0] else Affine(theta, x, j - 1) + theta[j] * x[j - 1]
  }

  /** Bias plus dot product of the weights with the features. */
  function Hypothesis(theta: seq<real>, x: seq<real>): real
    requires |theta| == |x| + 1
  {
    Affine(theta, x, |x|)
  }

  lemma {:induction false} AffineAtOrigin(theta: seq<real>, x: seq<real>, j: nat)
    requires j <= |x| && |x| < |theta|
    requires forall k :: 0 <= k < |x| ==> x[k] == 0.0
    ensures Affine(theta, x, j) == theta[0]
  {
    if j > 0 {
      AffineAtOrigin(theta, x, j - 1);
    }
  }

  lemma {:induction false} AffineOfZeroWeights(theta: seq<real>, x: seq<real>, j: nat)
    requires j <= |x| && |x| < |theta|
    requires forall k :: 0 <= k < |theta| ==> theta[k] == 0.0
    ensures Affine(theta, x, j) == 0.0
  {
    if j > 0 {
      AffineOfZeroWeights(theta, x, j - 1);
    }
  }

  /** A trained model: weights (bias first) and the scaling it was trained under. */
  datatype LinearModel = LinearModel(theta: seq<real>, mu: seq<real>, sigma: seq<real>)
  {
    predicate WellFormed()
    {
      |mu| == |sigma| && |theta| == |mu| + 1 && NonZero(sigma)
    }
  }

  /** predictLinear: nothing without a model; otherwise the hypothesis on the
      input standardized with the model's own means and deviations. */
  function PredictLinear(model: Option<LinearModel>, rawX: seq<real>): (r: Option<real>)
    requires model.Some? ==> model.value.WellFormed() && |rawX| == |model.value.mu|
    ensures r.Some? <==> model.Some?
  {
    match model
    case None => None
    case Some(md) => Some(Hypothesis(md.theta, Standardize(rawX, md.mu, md.sigma)))
  }

  /** At the training means every standardized feature is 0, so the model
      predicts exactly its bias. */
  lemma PredictAtMeansIsBias(md: LinearModel)
    requires md.WellFormed()
    ensures PredictLinear(Some(md), md.mu) == Some(md.theta[0])
  {
    var z := Standardize(md.mu, md.mu, md.sigma);
    assert forall k :: 0 <= k < |z| ==> z[k] == 0.0;
    AffineAtOrigin(md.theta, z, |z|);
  }

  // ------------------------------------------------------- gradient descent

  function Predictions(X: Matrix, theta: seq<real>): (preds: seq<real>)
    requires IsMatrix(X) && |theta| == Width(X) + 1
    ensures |preds| == |X|
  {
    seq(|X|, i requires 0 <= i < |X| => Hypothesis(theta, X[i]))
  }

  /** Feature `k` of a row with the constant bias feature in front. */
  function Feature(x: seq<real>, k: nat): real
    requires k <= |x|
  {
    if k == 0 then 1.0 else x[k - 1]
  }

  /** Gradient component `k` accumulated over the first `i` rows:
      the sum of (prediction - label) * feature k. */
  function GradientSum(X: Matrix, y: seq<real>, preds: seq<real>, k: nat, i: nat): real
    requires IsMatrix(X) && |y| == |X| && |preds| == |X| && k <= Width(X) && i <= |X|
  {
    if i == 0 then 0.0
    else GradientSum(X, y, preds, k, i - 1) + (preds[i - 1] - y[i - 1]) * Feature(X[i - 1], k)
  }

  /** The whole gradient at the given predictions, one component per weight. */
  function Gradient(X: Matrix, y: seq<real>, preds: seq<real>): (grad: seq<real>)
    requires IsMatrix(X) && |y| == |X| && |preds| == |X|
    ensures |grad| == Width(X) + 1
  {
    seq(Width(X) + 1, k requires 0 <= k <= Width(X) => GradientSum(X, y, preds, k, |X|))
  }

  /** Every weight moved against its gradient component by `rate`. */
  function Update(theta: seq<real>, grad: seq<real>, rate: real): (next: seq<real>)
    requires |grad| == |theta|
    ensures |next| == |theta|
  {
    seq(|theta|, k requires 0 <= k < |theta| => theta[k] - rate * grad[k])
  }

  /** One synchronous update: the whole gradient is taken at `theta` and only
      then is every weight moved. */
  function Step(X: Matrix, y: seq<real>, alpha: real, theta: seq<real>): (next: seq<real>)
    requires IsMatrix(X) && |y| == |X| && |theta| == Width(X) + 1
    ensures |next| == |theta|
  {
    Update(theta, Gradient(X, y, Predictions(X, theta)), alpha / |X| as real)
  }

  function Zeros(n: nat): (z: seq<real>)
    ensures |z| == n && forall k :: 0 <= k < n ==> z[k] == 0.0
  {
    seq(n, _ => 0.0)
  }

  /** The weights after `iters` updates from all zeros. */
  function Descend(X: Matrix, y: seq<real>, alpha: real, iters: nat): (theta: seq<real>)
    requires IsMatrix(X) && |y| == |X|
    ensures |theta| == Width(X) + 1
  {
    if iters == 0 then Zeros(Width(X) + 1)
    else Step(X, y, alpha, Descend(X, y, alpha, iters - 1))
  }

  /** The predictions of every row under `theta`, as gradientDescent's `preds`. */
  method ComputePredictions(X: Matrix, theta: seq<real>) returns (preds: seq<real>)
    requires IsMatrix(X) && |theta| == Width(X) + 1
    ensures preds == Predictions(X, theta)
  {
    var n := |X[0]|;
    preds := [];
    for i := 0 to |X|
      invariant |preds| == i
      invariant forall r :: 0 <= r < i ==> preds[r] == Hypothesis(theta, X[r])
    {
      var row := X[i];
      var s := theta[0];
      for j := 0 to n
        invariant s == Affine(theta, row, j)
      {
        s := s + theta[j + 1] * row[j];
      }
      preds := preds + [s];
    }
  }

  /** The unscaled gradient accumulated row by row, as gradientDescent's `grad`. */
  method ComputeGradient(X: Matrix, y: seq<real>, preds: seq<real>) returns (grad: seq<real>)
    requires IsMatrix(X) && |y| == |X| && |preds| == |X|
    ensures grad == Gradient(X, y, preds)
  {
    var n := |X[0]|;
    var g := new real[n + 1](_ => 0.0);
    for i := 0 to |X|
      invariant forall k :: 0 <= k <= n ==> g[k] == GradientSum(X, y, preds, k, i)
    {
      var err := preds[i] - y[i];
      g[0] := g[0] + err;
      for j := 0 to n
        invariant g[0] == GradientSum(X, y, preds, 0, i + 1)
        invariant forall k :: 1 <= k <= j ==> g[k] == GradientSum(X, y, preds, k, i + 1)
        invariant forall k :: j < k <= n ==> g[k] == GradientSum(X, y, preds, k, i)
      {
        g[j + 1] := g[j + 1] + err * X[i][j];
      }
    }
    grad := g[..];
    assert forall k :: 0 <= k <= n ==> grad[k] == Gradient(X, y, preds)[k];
  }

  /** `theta[k] = theta[k] - rate * grad[k]` for every k, in place. */
  method UpdateWeights(th: array<real>, grad: seq<real>, rate: real)
    requires th.Length == |grad|
    modifies th
    ensures th[..] == Update(old(th[..]), grad, rate)
  {
    for k := 0 to th.Length
      invariant forall t :: 0 <= t < k ==> th[t] == old(th[t]) - rate * grad[t]
      invariant forall t :: k <= t < th.Length ==> th[t] == old(th[t])
    {
      th[k] := th[k] - rate * grad[k];
    }
    assert forall t :: 0 <= t < th.Length ==> th[t] == Update(old(th[..]), grad, rate)[t];
  }

  /** gradientDescent: `iters` synchronous updates from all-zero weights. */
  method GradientDescent(X: Matrix, y: seq<real>, alpha: real, iters: nat) returns (theta: seq<real>)
    requires IsMatrix(X) && |y| == |X|
    ensures theta == Descend(X, y, alpha, iters)
  {
    var m, n := |X|, |X[0]|;
    var th := new real[n + 1](_ => 0.0);
    assert th[..] == Zeros(n + 1);
    for iter := 0 to iters
      invariant th[..] == Descend(X, y, alpha, iter)
    {
      var preds := ComputePredictions(X, th[..]);
      var grad := ComputeGradient(X, y, preds);
      UpdateWeights(th, grad, alpha / m as real);
    }
    theta := th[..];
  }

  lemma {:induction false} GradientVanishesAtExactFit(X: Matrix, y: seq<real>, preds: seq<real>, k: nat, i: nat)
    requires IsMatrix(X) && |y| == |X| && |preds| == |X| && k <= Width(X) && i <= |X|
    requires forall r :: 0 <= r < |X| ==> preds[r] == y[r]
    ensures GradientSum(X, y, preds, k, i) == 0.0
  {
    if i > 0 {
      GradientVanishesAtExactFit(X, y, preds, k, i - 1);
    }
  }

  /** Weights that already reproduce every label are a fixed point of the update. */
  lemma StepFixedAtExactFit(X: Matrix, y: seq<real>, alpha: real, theta: seq<real>)
    requires IsMatrix(X) && |y| == |X| && |theta| == Width(X) + 1
    requires forall r :: 0 <= r < |X| ==> Hypothesis(theta, X[r]) == y[r]
    ensures Step(X, y, alpha, theta) == theta
  {
    var preds := Predictions(X, theta);
    forall k | 0 <= k < |theta|
      ensures Step(X, y, alpha, theta)[k] == theta[k]
    {
      GradientVanishesAtExactFit(X, y, preds, k, |X|);
    }
  }

  /** On all-zero labels the trainer never leaves its all-zero start. */
  lemma {:induction false} ZeroLabelsKeepZeroWeights(X: Matrix, y: seq<real>, alpha: real, iters: nat)
    requires IsMatrix(X) && |y| == |X|
    requires forall r :: 0 <= r < |y| ==> y[r] == 0.0
    ensures Descend(X, y, alpha, iters) == Zeros(Width(X) + 1)
  {
    if iters > 0 {
      ZeroLabelsKeepZeroWeights(X, y, alpha, iters - 1);
      var z := Zeros(Width(X) + 1);
      forall r | 0 <= r < |X|
        ensures Hypothesis(z, X[r]) == y[r]
      {
        AffineOfZeroWeights(z, X[r], |X[r]|);
      }
      StepFixedAtExactFit(X, y, alpha, z);
    }
  }

  // -------------------------------------------------------------- training

  /** `opts.alpha || 0.01`: an unset (0) learning rate falls back to 0.01. */
  function EffectiveAlpha(alpha: real): real
  {
    if alpha == 0.0 then 0.01 else alpha
  }

  /** `opts.iters || 3000`: an unset (0) iteration count falls back to 3000. */
  function EffectiveIters(iters: nat): nat
  {
    if iters == 0 then 3000 else iters
  }

  /** The model trainLinearModel builds: none for an empty matrix, otherwise
      gradient descent on the standardized matrix, packaged with its scaling. */
  function TrainedModel(X: Matrix, y: seq<real>, alpha: real, iters: nat, sqrt: real -> real): (r: Option<LinearModel>)
    requires |X| == 0 || IsMatrix(X)
    requires |y| == |X|
    ensures r.None? <==> |X| == 0
    ensures r.Some? ==> r.value.WellFormed() && |r.value.mu| == Width(X)
  {
    if |X| == 0 then None
    else
      var mu, sigma := Means(X), StdDevs(X, sqrt);
      Some(LinearModel(Descend(ScaledMatrix(X, mu, sigma), y, EffectiveAlpha(alpha), EffectiveIters(iters)), mu, sigma))
  }

  /** trainLinearModel: scale, then descend. */
  method TrainLinearModel(X: Matrix, y: seq<real>, alpha: real, iters: nat, sqrt: real -> real) returns (r: Option<LinearModel>)
    requires |X| == 0 || IsMatrix(X)
    requires |y| == |X|
    ensures r == TrainedModel(X, y, alpha, iters, sqrt)
  {
    if |X| == 0 {
      return None;
    }
    var Xs, mu, sigma := FeatureScale(X, sqrt);
    var a := if alpha == 0.0 then 0.01 else alpha;
    var its := if iters == 0 then 3000 else iters;
    var theta := GradientDescent(Xs, y, a, its);
    r := Some(LinearModel(theta, mu, sigma));
  }
}
