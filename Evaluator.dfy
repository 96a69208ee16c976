/** Evaluation of predictions on a test set: the confusion matrix with a
    totals row and column, the accuracy, Cohen's kappa, and the product of
    smoothed per-class recalls from which the geometric mean is taken.

    A confusion matrix over C classes is (C+1) x (C+1): cell (a, p) counts
    the test instances of actual class a predicted as p, and the extra last
    row and column receive the column and row totals. */
module Evaluator {
  import opened Basics

  type Grid = seq<seq<int>>

  predicate Square(g: Grid, size: nat)
  {
    |g| == size && forall r :: 0 <= r < size ==> |g[r]| == size
  }

  function Zeros(size: nat): (g: Grid)
    ensures Square(g, size)
  {
    seq(size, _ => seq(size, _ => 0))
  }

  /** Entries c of rows 0 .. n-1. */
  function Column(g: Grid, c: nat, n: nat): (col: seq<int>)
    requires n <= |g| && forall r :: 0 <= r < n ==> c < |g[r]|
    ensures |col| == n
  {
    seq(n, r requires 0 <= r < n => g[r][c])
  }

  /** Entries (i, i) for i < n. */
  function Diagonal(g: Grid, n: nat): (d: seq<int>)
    requires n <= |g| && forall r :: 0 <= r < n ==> n <= |g[r]|
    ensures |d| == n
  {
    seq(n, i requires 0 <= i < n => g[i][i])
  }

  /** Sum of pairwise products. */
  function Dot(a: seq<int>, b: seq<int>): int
    requires |a| == |b|
  {
    if a == [] then 0 else Dot(a[..|a| - 1], b[..|b| - 1]) + a[|a| - 1] * b[|b| - 1]
  }

  // ---------------------------------------------------------------------
  // Counting over the actual and predicted classes
  // ---------------------------------------------------------------------

  /** The number of instances of each class 0 .. numClasses-1. */
  function Counts(s: seq<int>, numClasses: nat): (counts: seq<int>)
    ensures |counts| == numClasses
  {
    seq(numClasses, v => Count(s, v))
  }

  /** Number of positions where actual and predicted class agree. */
  function Agreement(actual: seq<int>, pred: seq<int>): nat
    requires |actual| == |pred|
  {
    if actual == [] then 0
    else
      var n := |actual| - 1;
      Agreement(actual[..n], pred[..n]) + (if actual[n] == pred[n] then 1 else 0)
  }

  /** Number of positions with actual class a predicted as p. */
  function Matches(actual: seq<int>, pred: seq<int>, a: int, p: int): nat
    requires |actual| == |pred|
  {
    if actual == [] then 0
    else
      var n := |actual| - 1;
      Matches(actual[..n], pred[..n], a, p) + (if actual[n] == a && pred[n] == p then 1 else 0)
  }

  /** Cohen's kappa from the number of instances n, the number of
      agreements a and the chance term t, in the form the evaluator computes
      it: (n * a - t) / (n * n - t). None when the denominator is zero (a
      NaN or an infinity). */
  function KappaOf(n: int, a: int, t: int): Option<real>
  {
    if n * n - t == 0 then None else Some((n * a - t) as real / (n * n - t) as real)
  }

  /** Cohen's kappa of predictions against actual classes: the chance term
      sums, over the classes, the number of instances predicted as the
      class times the number that belong to it. */
  function CohenKappa(actual: seq<int>, pred: seq<int>, numClasses: nat): Option<real>
    requires |actual| == |pred|
  {
    KappaOf(|actual|, Agreement(actual, pred), Dot(Counts(pred, numClasses), Counts(actual, numClasses)))
  }

  lemma {:induction false} AgreementAtMost(actual: seq<int>, pred: seq<int>)
    requires |actual| == |pred|
    ensures Agreement(actual, pred) <= |actual|
  {
    if actual != [] {
      AgreementAtMost(actual[..|actual| - 1], pred[..|pred| - 1]);
    }
  }

  /** The share of correct predictions; None on an empty test set, where
      the quotient 0 / 0 is not a number. */
  function Accuracy(actual: seq<int>, pred: seq<int>): Option<real>
    requires |actual| == |pred|
  {
    if actual == [] then None else Some(Agreement(actual, pred) as real / |actual| as real)
  }

  /** The accuracy lies in [0, 1], is 1 exactly when every prediction is
      correct, and its error rate 1 - accuracy is the share of wrong ones. */
  lemma AccuracyInUnitInterval(actual: seq<int>, pred: seq<int>)
    requires |actual| == |pred| && actual != []
    ensures var acc := Accuracy(actual, pred).value;
            0.0 <= acc <= 1.0 && (acc == 1.0 <==> Agreement(actual, pred) == |actual|) &&
            1.0 - acc == (|actual| - Agreement(actual, pred)) as real / |actual| as real
  {
    AgreementAtMost(actual, pred);
    ShareOfWhole(Agreement(actual, pred) as real, |actual| as real);
  }

  lemma ShareOfWhole(a: real, n: real)
    requires 0.0 <= a <= n && n > 0.0
    ensures 0.0 <= a / n <= 1.0 && (a / n == 1.0 <==> a == n) && 1.0 - a / n == (n - a) / n
  {
    var q := a / n;
    assert q * n == a;
    assert (1.0 - q) * n == n - a;
    ZeroFactor(q - 1.0, n);
    var r := (n - a) / n;
    assert r * n == n - a;
    assert (r - (1.0 - q)) * n == r * n - (1.0 - q) * n == 0.0;
    ZeroFactor(r - (1.0 - q), n);
  }

  /** A product with a non-zero factor is zero only when the other factor
      is; it has the sign of x when n is positive. */
  lemma ZeroFactor(x: real, n: real)
    requires n > 0.0
    ensures x * n == 0.0 <==> x == 0.0
    ensures x * n >= 0.0 <==> x >= 0.0
  {
  }

  /** Appending one entry adds one to its own class's count. */
  lemma CountsAppend(s: seq<int>, v: int, numClasses: nat)
    requires 0 <= v < numClasses
    ensures Counts(s + [v], numClasses) == Counts(s, numClasses)[v := Count(s, v) + 1]
  {
    assert (s + [v])[..|s|] == s;
  }

  /** Class counts of in-range classes add up to the number of entries. */
  lemma {:induction false} CountsCoverAll(s: seq<int>, numClasses: nat)
    requires ClassesInRange(s, numClasses)
    ensures Sum(Counts(s, numClasses)) == |s|
  {
    if s == [] {
      assert Counts(s, numClasses) == seq(numClasses, _ => 0);
      ZeroRowSum(numClasses);
    } else {
      var n := |s| - 1;
      assert s == s[..n] + [s[n]];
      CountsCoverAll(s[..n], numClasses);
      CountsAppend(s[..n], s[n], numClasses);
      SumUpdate(Counts(s[..n], numClasses), s[n], 1);
    }
  }

  lemma {:induction false} DotOfNonNegative(a: seq<int>, b: seq<int>)
    requires |a| == |b| && NonNegative(a) && NonNegative(b)
    ensures Dot(a, b) >= 0
  {
    if a != [] {
      DotOfNonNegative(a[..|a| - 1], b[..|b| - 1]);
    }
  }

  /** If every b[i] is at most m, the dot product is at most m times the sum
      of the non-negative a. */
  lemma {:induction false} DotBound(a: seq<int>, b: seq<int>, m: int)
    requires |a| == |b| && NonNegative(a)
    requires forall i :: 0 <= i < |b| ==> b[i] <= m
    ensures Dot(a, b) <= m * Sum(a)
  {
    if a != [] {
      var n := |a| - 1;
      DotBound(a[..n], b[..n], m);
      MultiplyMonotone(a[n], b[n], m);
      assert m * Sum(a) == m * Sum(a[..n]) + m * a[n];
    }
  }

  /** The chance term never exceeds N * N: the denominator of kappa is
      never negative. */
  lemma ChanceAtMostSquare(actual: seq<int>, pred: seq<int>, numClasses: nat)
    requires |actual| == |pred| && ClassesInRange(actual, numClasses) && ClassesInRange(pred, numClasses)
    ensures 0 <= Dot(Counts(pred, numClasses), Counts(actual, numClasses)) <= |actual| * |actual|
  {
    var cp, ca := Counts(pred, numClasses), Counts(actual, numClasses);
    forall i | 0 <= i < numClasses ensures ca[i] <= |actual| {
      CountAtMost(actual, i);
    }
    DotOfNonNegative(cp, ca);
    DotBound(cp, ca, |actual|);
    CountsCoverAll(pred, numClasses);
  }

  /** Kappa never exceeds 1; it is 1 exactly when every prediction is right
      (and it is defined). */
  lemma KappaAtMostOne(actual: seq<int>, pred: seq<int>, numClasses: nat)
    requires |actual| == |pred| && ClassesInRange(actual, numClasses) && ClassesInRange(pred, numClasses)
    requires CohenKappa(actual, pred, numClasses).Some?
    ensures CohenKappa(actual, pred, numClasses).value <= 1.0
    ensures CohenKappa(actual, pred, numClasses).value == 1.0 <==> Agreement(actual, pred) == |actual|
  {
    ChanceAtMostSquare(actual, pred, numClasses);
    AgreementAtMost(actual, pred);
    ScaledRatio(|actual|, Agreement(actual, pred), Dot(Counts(pred, numClasses), Counts(actual, numClasses)));
  }

  /** For 0 <= a <= n and t < n * n the ratio is at most 1, and equals 1
      just when a == n. */
  lemma ScaledRatio(n: int, a: int, t: int)
    requires 0 <= a <= n && t < n * n
    ensures KappaOf(n, a, t).Some?
    ensures KappaOf(n, a, t).value <= 1.0
    ensures KappaOf(n, a, t).value == 1.0 <==> a == n
  {
    var num, den := n * a - t, n * n - t;
    assert n * a <= n * n by { MultiplyMonotone(n, a, n); }
    if a < n {
      assert n > 0;
      assert n * a < n * n by { MultiplyStrict(n, a, n); }
    }
    var k := num as real / den as real;
    assert k * den as real == num as real;
  }

  lemma MultiplyMonotone(n: int, a: int, b: int)
    requires 0 <= n && a <= b
    ensures n * a <= n * b
  {
    assert n * b - n * a == n * (b - a);
  }

  lemma MultiplyStrict(n: int, a: int, b: int)
    requires 0 < n && a < b
    ensures n * a < n * b
  {
    assert n * b - n * a == n * (b - a);
  }

  /** x out of n, as a rate. */
  function Rate(x: int, n: int): real
    requires n != 0
  {
    x as real / n as real
  }

  /** The observed agreement rate po. */
  function ObservedRate(actual: seq<int>, pred: seq<int>): real
    requires |actual| == |pred| && |actual| > 0
  {
    Rate(Agreement(actual, pred), |actual|)
  }

  /** The agreement rate pe expected by chance from the class frequencies. */
  function ChanceRate(actual: seq<int>, pred: seq<int>, numClasses: nat): real
    requires |actual| == |pred| && |actual| > 0
  {
    MultiplyStrict(|actual|, 0, |actual|);
    Rate(Dot(Counts(pred, numClasses), Counts(actual, numClasses)), |actual| * |actual|)
  }

  /** The form above is Cohen's (po - pe) / (1 - pe). */
  lemma KappaIsCohen(actual: seq<int>, pred: seq<int>, numClasses: nat)
    requires |actual| == |pred| && |actual| > 0
    requires CohenKappa(actual, pred, numClasses).Some?
    ensures ChanceRate(actual, pred, numClasses) != 1.0
    ensures CohenKappa(actual, pred, numClasses).value ==
            (ObservedRate(actual, pred) - ChanceRate(actual, pred, numClasses)) / (1.0 - ChanceRate(actual, pred, numClasses))
  {
    var n, a := |actual|, Agreement(actual, pred);
    var t := Dot(Counts(pred, numClasses), Counts(actual, numClasses));
    assert CohenKappa(actual, pred, numClasses) == KappaOf(n, a, t);
    RatesForm(n, a, t);
  }

  lemma RatesForm(n: int, a: int, t: int)
    requires n > 0 && KappaOf(n, a, t).Some?
    ensures n * n != 0 && Rate(t, n * n) != 1.0
    ensures KappaOf(n, a, t).value == (Rate(a, n) - Rate(t, n * n)) / (1.0 - Rate(t, n * n))
  {
    MultiplyStrict(n, 0, n);
    var sq, x := (n * n) as real, (n * a) as real;
    assert KappaOf(n, a, t).value == (x - t as real) / (sq - t as real);
    RateScaled(n, a);
    Rates(Rate(a, n), Rate(t, n * n), x, t as real, sq);
  }

  /** a out of n is n * a out of n * n. */
  lemma RateScaled(n: int, a: int)
    requires n > 0
    ensures n * n != 0 && Rate(a, n) == Rate(n * a, n * n)
  {
    MultiplyStrict(n, 0, n);
    RealProduct(n, n);
    RealProduct(n, a);
    var nr, ar := n as real, a as real;
    var q := ar / nr;
    assert q * nr == ar;
    assert q * (nr * nr) == (q * nr) * nr;
  }

  lemma RealProduct(n: int, m: int)
    ensures (n * m) as real == n as real * m as real
  {
  }

  /** With po = x / s and pe = t / s: (po - pe) / (1 - pe) == (x - t) / (s - t). */
  lemma Rates(po: real, pe: real, x: real, t: real, s: real)
    requires s > 0.0 && s != t && po == x / s && pe == t / s
    ensures pe != 1.0 && (x - t) / (s - t) == (po - pe) / (1.0 - pe)
  {
    assert po * s == x && pe * s == t;
    assert (po - pe) * s == x - t;
    assert (1.0 - pe) * s == s - t;
    var k := (x - t) / (s - t);
    assert k * (s - t) == x - t;
    assert k * ((1.0 - pe) * s) == (po - pe) * s;
    assert (k * (1.0 - pe)) * s == (po - pe) * s;
  }

  // ---------------------------------------------------------------------
  // The confusion matrix and its totals
  // ---------------------------------------------------------------------

  /** The confusion matrix of a test run: one count per (actual, predicted)
      pair, over numClasses + 1 rows and columns, added one instance at a
      time. */
  function Tabulate(actual: seq<int>, pred: seq<int>, numClasses: nat): (g: Grid)
    requires |actual| == |pred| && ClassesInRange(actual, numClasses) && ClassesInRange(pred, numClasses)
    ensures Square(g, numClasses + 1)
  {
    if actual == [] then Zeros(numClasses + 1)
    else
      var n := |actual| - 1;
      Increment(Tabulate(actual[..n], pred[..n], numClasses), actual[n], pred[n])
  }

  /** One more instance of actual class a predicted as p. */
  function Increment(g: Grid, a: nat, p: nat): (h: Grid)
    requires a < |g| && Square(g, |g|) && p < |g|
    ensures Square(h, |g|)
  {
    g[a := g[a][p := g[a][p] + 1]]
  }

  /** Column c after an increment in row a. */
  lemma ColumnAfterIncrement(g: Grid, a: nat, p: nat, c: nat, n: nat)
    requires a < n < |g| && Square(g, |g|) && p < |g| && c < |g|
    ensures Column(Increment(g, a, p), c, n) ==
            if c == p then Column(g, c, n)[a := g[a][c] + 1] else Column(g, c, n)
  {
  }

  /** The diagonal after an increment. */
  lemma DiagonalAfterIncrement(g: Grid, a: nat, p: nat, n: nat)
    requires a < n < |g| && Square(g, |g|) && p < n
    ensures Diagonal(Increment(g, a, p), n) ==
            if a == p then Diagonal(g, n)[a := g[a][a] + 1] else Diagonal(g, n)
  {
  }

  /** The tabulation of a non-empty run is the tabulation of all but its
      last instance, incremented by that instance. */
  lemma TabulateLast(actual: seq<int>, pred: seq<int>, numClasses: nat)
    requires |actual| == |pred| > 0 && ClassesInRange(actual, numClasses) && ClassesInRange(pred, numClasses)
    ensures var n := |actual| - 1;
            ClassesInRange(actual[..n], numClasses) && ClassesInRange(pred[..n], numClasses) &&
            0 <= actual[n] < numClasses && 0 <= pred[n] < numClasses &&
            Tabulate(actual, pred, numClasses) == Increment(Tabulate(actual[..n], pred[..n], numClasses), actual[n], pred[n])
  {
  }

  /** Cell (a, p) counts the instances of class a predicted as p; the totals
      row and column stay empty. */
  lemma {:induction false} TabulateCells(actual: seq<int>, pred: seq<int>, numClasses: nat)
    requires |actual| == |pred| && ClassesInRange(actual, numClasses) && ClassesInRange(pred, numClasses)
    ensures forall a, p :: 0 <= a <= numClasses && 0 <= p <= numClasses ==>
              Tabulate(actual, pred, numClasses)[a][p] == Matches(actual, pred, a, p)
    ensures forall a, p :: 0 <= a <= numClasses && 0 <= p <= numClasses && (a == numClasses || p == numClasses) ==>
              Tabulate(actual, pred, numClasses)[a][p] == 0
  {
    if actual != [] {
      var n := |actual| - 1;
      TabulateCells(actual[..n], pred[..n], numClasses);
    }
  }

  /** Row a of the matrix adds up to the number of instances of class a. */
  lemma {:induction false} TabulateRows(actual: seq<int>, pred: seq<int>, numClasses: nat, a: nat)
    requires |actual| == |pred| && ClassesInRange(actual, numClasses) && ClassesInRange(pred, numClasses)
    requires a < numClasses
    ensures Sum(Tabulate(actual, pred, numClasses)[a][..numClasses]) == Count(actual, a)
  {
    if actual == [] {
      assert Zeros(numClasses + 1)[a][..numClasses] == seq(numClasses, _ => 0);
      ZeroRowSum(numClasses);
    } else {
      var n := |actual| - 1;
      TabulateLast(actual, pred, numClasses);
      TabulateRows(actual[..n], pred[..n], numClasses, a);
      var g := Tabulate(actual[..n], pred[..n], numClasses);
      if actual[n] == a {
        var p := pred[n];
        assert g[a][p := g[a][p] + 1][..numClasses] == g[a][..numClasses][p := g[a][p] + 1];
        SumUpdate(g[a][..numClasses], p, 1);
      }
    }
  }

  /** Column p of the matrix adds up to the number of instances predicted
      as p. */
  lemma {:induction false} TabulateColumns(actual: seq<int>, pred: seq<int>, numClasses: nat, p: nat)
    requires |actual| == |pred| && ClassesInRange(actual, numClasses) && ClassesInRange(pred, numClasses)
    requires p < numClasses
    ensures Sum(Column(Tabulate(actual, pred, numClasses), p, numClasses)) == Count(pred, p)
  {
    if actual == [] {
      assert Column(Zeros(numClasses + 1), p, numClasses) == seq(numClasses, _ => 0);
      ZeroRowSum(numClasses);
    } else {
      var n := |actual| - 1;
      TabulateLast(actual, pred, numClasses);
      TabulateColumns(actual[..n], pred[..n], numClasses, p);
      var g := Tabulate(actual[..n], pred[..n], numClasses);
      ColumnAfterIncrement(g, actual[n], pred[n], p, numClasses);
      if pred[n] == p {
        SumUpdate(Column(g, p, numClasses), actual[n], 1);
      }
    }
  }

  /** The diagonal adds up to the number of correct predictions. */
  lemma {:induction false} TabulateTrace(actual: seq<int>, pred: seq<int>, numClasses: nat)
    requires |actual| == |pred| && ClassesInRange(actual, numClasses) && ClassesInRange(pred, numClasses)
    ensures Sum(Diagonal(Tabulate(actual, pred, numClasses), numClasses)) == Agreement(actual, pred)
  {
    if actual == [] {
      assert Diagonal(Zeros(numClasses + 1), numClasses) == seq(numClasses, _ => 0);
      ZeroRowSum(numClasses);
    } else {
      var n := |actual| - 1;
      TabulateLast(actual, pred, numClasses);
      TabulateTrace(actual[..n], pred[..n], numClasses);
      var g := Tabulate(actual[..n], pred[..n], numClasses);
      DiagonalAfterIncrement(g, actual[n], pred[n], numClasses);
      if actual[n] == pred[n] {
        SumUpdate(Diagonal(g, numClasses), actual[n], 1);
      }
    }
  }

  /** Totals of the rows: the last column plus the row's class cells. */
  function RowTotals(g: Grid): (t: seq<int>)
    requires |g| > 0 && Square(g, |g|)
    ensures |t| == |g| - 1
  {
    var c := |g| - 1;
    seq(c, r requires 0 <= r < c => g[r][c] + Sum(g[r][..c]))
  }

  /** Totals of the columns: the last row plus the column's class cells. */
  function ColumnTotals(g: Grid): (t: seq<int>)
    requires |g| > 0 && Square(g, |g|)
    ensures |t| == |g| - 1
  {
    var c := |g| - 1;
    seq(c, j requires 0 <= j < c => g[c][j] + Sum(Column(g, j, c)))
  }

  /** The matrix after the totals pass: class cells unchanged, row totals in
      the last column, column totals in the last row, and the corner
      increased by both the row totals and the column totals. */
  function Totalled(g: Grid): (t: Grid)
    requires |g| > 0 && Square(g, |g|)
    ensures Square(t, |g|)
  {
    var c := |g| - 1;
    var rows, cols := RowTotals(g), ColumnTotals(g);
    seq(|g|, r requires 0 <= r < |g| =>
      seq(|g|, j requires 0 <= j < |g| =>
        if r < c && j < c then g[r][j]
        else if r < c then rows[r]
        else if j < c then cols[j]
        else g[c][c] + Sum(rows) + Sum(cols)))
  }

  /** The corner cell halved: the totals pass counts every instance twice
      there. */
  function HalveCorner(g: Grid): (h: Grid)
    requires |g| > 0 && Square(g, |g|)
    ensures Square(h, |g|)
  {
    var c := |g| - 1;
    g[c := g[c][c := g[c][c] / 2]]
  }

  /** Cohen's kappa read from a totalled matrix: the corner is N, the
      diagonal holds the agreements, and the last row and column hold the
      class totals. */
  function Kappa(g: Grid): Option<real>
    requires |g| > 0 && Square(g, |g|)
  {
    var c := |g| - 1;
    KappaOf(g[c][c], Sum(Diagonal(g, c)), Dot(g[c][..c], Column(g, c, c)))
  }

  /** The matrix the evaluator ends with: the tabulation, totalled, with
      the corner halved. */
  function FinalMatrix(actual: seq<int>, pred: seq<int>, numClasses: nat): (g: Grid)
    requires |actual| == |pred| && ClassesInRange(actual, numClasses) && ClassesInRange(pred, numClasses)
    ensures Square(g, numClasses + 1)
  {
    HalveCorner(Totalled(Tabulate(actual, pred, numClasses)))
  }

  /** The final matrix holds the class counts in its last column, the
      prediction counts in its last row, the number of instances in its
      corner, and the correct predictions on its diagonal. */
  lemma FinalMatrixTotals(actual: seq<int>, pred: seq<int>, numClasses: nat)
    requires |actual| == |pred| && ClassesInRange(actual, numClasses) && ClassesInRange(pred, numClasses)
    ensures var g := FinalMatrix(actual, pred, numClasses);
            Column(g, numClasses, numClasses) == Counts(actual, numClasses) &&
            g[numClasses][..numClasses] == Counts(pred, numClasses) &&
            g[numClasses][numClasses] == |actual| &&
            Sum(Diagonal(g, numClasses)) == Agreement(actual, pred)
  {
    var c := numClasses;
    var g0 := Tabulate(actual, pred, c);
    TabulatedTotals(actual, pred, c);
    CountsCoverAll(actual, c);
    CountsCoverAll(pred, c);
    TabulateCells(actual, pred, c);
    TotalledParts(g0);
    TabulateTrace(actual, pred, c);
  }

  /** The row totals of a tabulation are the class counts, its column
      totals the prediction counts. */
  lemma TabulatedTotals(actual: seq<int>, pred: seq<int>, numClasses: nat)
    requires |actual| == |pred| && ClassesInRange(actual, numClasses) && ClassesInRange(pred, numClasses)
    ensures RowTotals(Tabulate(actual, pred, numClasses)) == Counts(actual, numClasses)
    ensures ColumnTotals(Tabulate(actual, pred, numClasses)) == Counts(pred, numClasses)
  {
    var c := numClasses;
    var g0 := Tabulate(actual, pred, c);
    TabulateCells(actual, pred, c);
    var rows, cols := RowTotals(g0), ColumnTotals(g0);
    forall r | 0 <= r < c ensures rows[r] == Count(actual, r) {
      TabulateRows(actual, pred, c, r);
    }
    forall j | 0 <= j < c ensures cols[j] == Count(pred, j) {
      TabulateColumns(actual, pred, c, j);
    }
  }

  /** Reading a halved totalled matrix: the last column holds the row
      totals, the last row the column totals, the corner half the corner
      total, and the diagonal is the original one. */
  lemma TotalledParts(g: Grid)
    requires |g| > 0 && Square(g, |g|)
    ensures var c := |g| - 1;
            var h := HalveCorner(Totalled(g));
            Column(h, c, c) == RowTotals(g) &&
            h[c][..c] == ColumnTotals(g) &&
            h[c][c] == (g[c][c] + Sum(RowTotals(g)) + Sum(ColumnTotals(g))) / 2 &&
            Diagonal(h, c) == Diagonal(g, c)
  {
  }

  /** The kappa read from the final matrix is Cohen's kappa of the run. */
  lemma FinalMatrixKappa(actual: seq<int>, pred: seq<int>, numClasses: nat)
    requires |actual| == |pred| && ClassesInRange(actual, numClasses) && ClassesInRange(pred, numClasses)
    ensures Kappa(FinalMatrix(actual, pred, numClasses)) == CohenKappa(actual, pred, numClasses)
  {
    FinalMatrixTotals(actual, pred, numClasses);
  }

  // ---------------------------------------------------------------------
  // Smoothed recalls, for the geometric mean
  // ---------------------------------------------------------------------

  /** Smoothed recall of class i: (1 + correct predictions of i) over
      (1 + instances of i), read from a totalled matrix. */
  function Recall(g: Grid, i: nat): real
    requires |g| > 0 && Square(g, |g|) && i < |g| - 1 && g[i][|g| - 1] >= 0
  {
    (1 + g[i][i]) as real / (1 + g[i][|g| - 1]) as real
  }

  /** Product of the smoothed recalls of classes 0 .. n-1. */
  function RecallProduct(g: Grid, n: nat): real
    requires |g| > 0 && Square(g, |g|) && n < |g|
    requires forall i :: 0 <= i < n ==> g[i][|g| - 1] >= 0
  {
    if n == 0 then 1.0 else RecallProduct(g, n - 1) * Recall(g, n - 1)
  }

  /** When no class has more correct predictions than instances, every
      recall lies in (0, 1], and so does the product. */
  lemma {:induction false} RecallProductInUnitInterval(g: Grid, n: nat)
    requires |g| > 0 && Square(g, |g|) && n < |g|
    requires forall i :: 0 <= i < n ==> 0 <= g[i][i] <= g[i][|g| - 1]
    ensures 0.0 < RecallProduct(g, n) <= 1.0
  {
    if n > 0 {
      RecallProductInUnitInterval(g, n - 1);
      RatioInUnitInterval(1 + g[n - 1][n - 1], 1 + g[n - 1][|g| - 1]);
      ProductInUnitInterval(RecallProduct(g, n - 1), Recall(g, n - 1));
    }
  }

  lemma MultiplyThenDivide(x: real, a: real, b: real)
    requires b != 0.0
    ensures x * a / b == x * (a / b)
  {
  }

  lemma ProductInUnitInterval(x: real, y: real)
    requires 0.0 < x <= 1.0 && 0.0 < y <= 1.0
    ensures 0.0 < x * y <= 1.0
  {
    assert x * y <= 1.0 * y;
  }

  /** Correct predictions of a class never exceed its instances. */
  lemma {:induction false} MatchesAtMostCount(actual: seq<int>, pred: seq<int>, a: int)
    requires |actual| == |pred|
    ensures Matches(actual, pred, a, a) <= Count(actual, a)
  {
    if actual != [] {
      MatchesAtMostCount(actual[..|actual| - 1], pred[..|pred| - 1], a);
    }
  }

  /** The recall product of a run lies in (0, 1]; so does its geometric
      mean. */
  lemma FinalRecallProduct(actual: seq<int>, pred: seq<int>, numClasses: nat)
    requires |actual| == |pred| && ClassesInRange(actual, numClasses) && ClassesInRange(pred, numClasses)
    ensures var g := FinalMatrix(actual, pred, numClasses);
            (forall i :: 0 <= i < numClasses ==> g[i][numClasses] >= 0) &&
            0.0 < RecallProduct(g, numClasses) <= 1.0
  {
    var c := numClasses;
    var g := FinalMatrix(actual, pred, c);
    FinalMatrixTotals(actual, pred, c);
    TabulateCells(actual, pred, c);
    TotalledParts(Tabulate(actual, pred, c));
    forall i | 0 <= i < c ensures 0 <= g[i][i] <= g[i][c] {
      assert g[i][c] == Column(g, c, c)[i] == Count(actual, i);
      MatchesAtMostCount(actual, pred, i);
    }
    RecallProductInUnitInterval(g, c);
  }

  /** The product of smoothed recalls of a test run, read from its final
      matrix; it lies in (0, 1]. */
  function RunRecallProduct(actual: seq<int>, pred: seq<int>, numClasses: nat): (product: real)
    requires |actual| == |pred| && ClassesInRange(actual, numClasses) && ClassesInRange(pred, numClasses)
    ensures 0.0 < product <= 1.0
  {
    FinalRecallProduct(actual, pred, numClasses);
    RecallProduct(FinalMatrix(actual, pred, numClasses), numClasses)
  }

  // ---------------------------------------------------------------------
  // The matrix in place
  // ---------------------------------------------------------------------

  /** The cells of a matrix, row by row. */
  function Cells(m: array2<int>): (g: Grid)
    reads m
    ensures |g| == m.Length0 && forall r :: 0 <= r < |g| ==> |g[r]| == m.Length1
    ensures forall r, k :: 0 <= r < m.Length0 && 0 <= k < m.Length1 ==> g[r][k] == m[r, k]
  {
    seq(m.Length0, r requires 0 <= r < m.Length0 reads m =>
      seq(m.Length1, k requires 0 <= k < m.Length1 reads m => m[r, k]))
  }

  /** Matrices agreeing cell by cell have equal cells. */
  lemma SameCells(m: array2<int>, g: Grid)
    requires |g| == m.Length0 && forall r :: 0 <= r < |g| ==> |g[r]| == m.Length1
    requires forall r, k :: 0 <= r < m.Length0 && 0 <= k < m.Length1 ==> m[r, k] == g[r][k]
    ensures Cells(m) == g
  {
    forall r | 0 <= r < |g| ensures Cells(m)[r] == g[r] {
    }
  }

  /** Cell (r, k) after the totals pass has handled class rows 0 .. i-1:
      those rows' totals are in the last column, their cells are added into
      the last row, and their totals into the corner. */
  function PartialCell(g: Grid, i: nat, r: nat, k: nat): int
    requires |g| > 0 && Square(g, |g|) && i < |g| && r < |g| && k < |g|
  {
    var c := |g| - 1;
    if r < c && k < c then g[r][k]
    else if r < c then (if r < i then RowTotals(g)[r] else g[r][c])
    else if k < c then g[c][k] + Sum(Column(g, k, i))
    else g[c][c] + Sum(RowTotals(g)[..i])
  }

  lemma PartialStart(g: Grid)
    requires |g| > 0 && Square(g, |g|)
    ensures forall r, k :: 0 <= r < |g| && 0 <= k < |g| ==> PartialCell(g, 0, r, k) == g[r][k]
  {
    forall r, k | 0 <= r < |g| && 0 <= k < |g| ensures PartialCell(g, 0, r, k) == g[r][k] {
      assert Column(g, k, 0) == [];
      assert RowTotals(g)[..0] == [];
    }
  }

  lemma ColumnStep(g: Grid, k: nat, i: nat)
    requires i < |g| && forall r :: 0 <= r <= i ==> k < |g[r]|
    ensures Sum(Column(g, k, i + 1)) == Sum(Column(g, k, i)) + g[i][k]
  {
    assert Column(g, k, i + 1)[..i] == Column(g, k, i);
  }

  lemma PrefixStep(s: seq<int>, i: nat)
    requires i < |s|
    ensures Sum(s[..i + 1]) == Sum(s[..i]) + s[i]
  {
    assert s[..i + 1][..i] == s[..i];
  }

  /** Handling class row i: the row's total goes into the last column, its
      cells into the last row, its total into the corner. */
  lemma PartialStep(g: Grid, i: nat)
    requires |g| > 0 && Square(g, |g|) && i < |g| - 1
    ensures var c := |g| - 1;
            (forall r, k :: 0 <= r < c && r != i && 0 <= k <= c ==> PartialCell(g, i + 1, r, k) == PartialCell(g, i, r, k)) &&
            (forall k :: 0 <= k < c ==> PartialCell(g, i + 1, i, k) == PartialCell(g, i, i, k) == g[i][k]) &&
            PartialCell(g, i + 1, i, c) == PartialCell(g, i, i, c) + Sum(g[i][..c]) &&
            (forall k :: 0 <= k < c ==> PartialCell(g, i + 1, c, k) == PartialCell(g, i, c, k) + g[i][k]) &&
            PartialCell(g, i + 1, c, c) == PartialCell(g, i, c, c) + PartialCell(g, i + 1, i, c)
  {
    var c := |g| - 1;
    forall k | 0 <= k < c ensures PartialCell(g, i + 1, c, k) == PartialCell(g, i, c, k) + g[i][k] {
      ColumnStep(g, k, i);
    }
    PrefixStep(RowTotals(g), i);
  }

  /** After the last row, the partial totals are the full totals. */
  lemma LastStep(g: Grid)
    requires |g| > 0 && Square(g, |g|)
    ensures var c := |g| - 1;
            (forall r, k :: 0 <= r <= c && 0 <= k <= c && (r < c || k < c) ==> Totalled(g)[r][k] == PartialCell(g, c, r, k)) &&
            Totalled(g)[c][c] == PartialCell(g, c, c, c) + Sum(seq(c, k requires 0 <= k < c => PartialCell(g, c, c, k)))
  {
    var c := |g| - 1;
    assert seq(c, k requires 0 <= k < c => PartialCell(g, c, c, k)) == ColumnTotals(g);
    assert RowTotals(g)[..c] == RowTotals(g);
  }

  /** The totals pass over class row i: each cell of the row is added to
      the row's total and to its column's total, then the row's total to
      the corner. */
  method AccumulateRow(m: array2<int>, i: nat, ghost row: seq<int>)
    requires m.Length0 == m.Length1 && i < m.Length0 - 1 && |row| == m.Length0 - 1
    requires forall k :: 0 <= k < |row| ==> m[i, k] == row[k]
    modifies m
    ensures var c := m.Length0 - 1;
            (forall r, k :: 0 <= r < c && r != i && 0 <= k <= c ==> m[r, k] == old(m[r, k])) &&
            (forall k :: 0 <= k < c ==> m[i, k] == row[k]) &&
            m[i, c] == old(m[i, c]) + Sum(row) &&
            (forall k :: 0 <= k < c ==> m[c, k] == old(m[c, k]) + row[k]) &&
            m[c, c] == old(m[c, c]) + m[i, c]
  {
    var c := m.Length0 - 1;
    for j := 0 to m.Length1
      invariant forall r, k :: 0 <= r < c && r != i && 0 <= k <= c ==> m[r, k] == old(m[r, k])
      invariant forall k :: 0 <= k < c ==> m[i, k] == row[k]
      invariant m[i, c] == old(m[i, c]) + Sum(row[..if j < c then j else c])
      invariant forall k :: 0 <= k < c ==> m[c, k] == old(m[c, k]) + (if k < j then row[k] else 0)
      invariant m[c, c] == old(m[c, c]) + (if j > c then m[i, c] else 0)
    {
      if j != c {
        PrefixStep(row, j);
        m[i, c] := m[i, c] + m[i, j];
      }
      m[c, j] := m[c, j] + m[i, j];
    }
    assert row[..c] == row;
  }

  /** The totals pass over the last row: only the corner changes, by the
      column totals held in that row. */
  method AccumulateLastRow(m: array2<int>, ghost row: seq<int>)
    requires m.Length0 == m.Length1 > 0 && |row| == m.Length0 - 1
    requires forall k :: 0 <= k < |row| ==> m[|row|, k] == row[k]
    modifies m
    ensures var c := m.Length0 - 1;
            (forall r, k :: 0 <= r <= c && 0 <= k <= c && (r < c || k < c) ==> m[r, k] == old(m[r, k])) &&
            m[c, c] == old(m[c, c]) + Sum(row)
  {
    var c := m.Length0 - 1;
    for j := 0 to m.Length1
      invariant forall r, k :: 0 <= r <= c && 0 <= k <= c && (r < c || k < c) ==> m[r, k] == old(m[r, k])
      invariant m[c, c] == old(m[c, c]) + Sum(row[..if j < c then j else c])
    {
      if j != c {
        PrefixStep(row, j);
        m[c, c] := m[c, c] + m[c, j];
      }
    }
    assert row[..c] == row;
  }

  /** One class row of the totals pass, from the partial totals before row
      i to those after it. */
  method TotalRow(m: array2<int>, i: nat, ghost g: Grid)
    requires m.Length0 == m.Length1 == |g| && Square(g, |g|) && i < |g| - 1
    requires forall r, k :: 0 <= r < |g| && 0 <= k < |g| ==> m[r, k] == PartialCell(g, i, r, k)
    modifies m
    ensures forall r, k :: 0 <= r < |g| && 0 <= k < |g| ==> m[r, k] == PartialCell(g, i + 1, r, k)
  {
    var c := |g| - 1;
    PartialStep(g, i);
    AccumulateRow(m, i, g[i][..c]);
    forall r, k | 0 <= r < |g| && 0 <= k < |g| ensures m[r, k] == PartialCell(g, i + 1, r, k) {
      if r < c && r != i {
      } else if r == i {
      } else if k < c {
      } else {
      }
    }
  }

  /** The totals pass of the evaluator, in place: row totals into the last
      column, column totals into the last row, and both into the corner. */
  method AddTotals(m: array2<int>)
    requires m.Length0 == m.Length1 > 0
    modifies m
    ensures Cells(m) == Totalled(old(Cells(m)))
  {
    var size := m.Length0;
    var c := size - 1;
    ghost var g := Cells(m);
    PartialStart(g);
    for i := 0 to c
      invariant forall r, k :: 0 <= r < size && 0 <= k < size ==> m[r, k] == PartialCell(g, i, r, k)
    {
      TotalRow(m, i, g);
    }
    LastStep(g);
    AccumulateLastRow(m, seq(c, k requires 0 <= k < c => PartialCell(g, c, c, k)));
    SameCells(m, Totalled(g));
  }

  /** Cohen's kappa of a totalled matrix with its corner halved: the
      diagonal sum, the chance term, and the ratio they give. */
  method CalculateKappa(m: array2<int>) returns (kappa: Option<real>)
    requires m.Length0 == m.Length1 > 0
    ensures kappa == Kappa(Cells(m))
  {
    var c := m.Length0 - 1;
    var dii := DiagonalSum(m);
    var tMul := ChanceTerm(m);
    var n := m[c, c];
    if n * n - tMul == 0 {
      kappa := None;
    } else {
      kappa := Some((n * dii - tMul) as real / (n * n - tMul) as real);
    }
  }

  /** The sum of the class cells on the diagonal. */
  method DiagonalSum(m: array2<int>) returns (dii: int)
    requires m.Length0 == m.Length1 > 0
    ensures dii == Sum(Diagonal(Cells(m), m.Length0 - 1))
  {
    var c := m.Length0 - 1;
    ghost var d := Diagonal(Cells(m), c);
    dii := 0;
    for i := 0 to c
      invariant dii == Sum(d[..i])
    {
      PrefixStep(d, i);
      dii := dii + m[i, i];
    }
    assert d[..c] == d;
  }

  /** The sum over the classes of column total times row total. */
  method ChanceTerm(m: array2<int>) returns (tMul: int)
    requires m.Length0 == m.Length1 > 0
    ensures tMul == Dot(Cells(m)[m.Length0 - 1][..m.Length0 - 1], Column(Cells(m), m.Length0 - 1, m.Length0 - 1))
  {
    var c := m.Length0 - 1;
    ghost var lastRow, lastColumn := Cells(m)[c][..c], Column(Cells(m), c, c);
    tMul := 0;
    for i := 0 to c
      invariant tMul == Dot(lastRow[..i], lastColumn[..i])
    {
      assert lastRow[..i + 1][..i] == lastRow[..i] && lastColumn[..i + 1][..i] == lastColumn[..i];
      tMul := tMul + m[c, i] * m[i, c];
    }
    assert lastRow[..c] == lastRow && lastColumn[..c] == lastColumn;
  }

  /** The product loop of the geometric mean. */
  method RecallProductOf(m: array2<int>) returns (gMean: real)
    requires m.Length0 == m.Length1 > 0
    requires forall i, k :: 0 <= i < m.Length0 - 1 && k == m.Length0 - 1 ==> m[i, k] >= 0
    ensures gMean == RecallProduct(Cells(m), m.Length0 - 1)
  {
    var c := m.Length0 - 1;
    ghost var g := Cells(m);
    gMean := 1.0;
    for i := 0 to c
      invariant gMean == RecallProduct(g, i)
    {
      MultiplyThenDivide(gMean, (1 + m[i, i]) as real, (1 + m[i, c]) as real);
      gMean := gMean * (1 + m[i, i]) as real / (1 + m[i, c]) as real;
    }
  }
}
