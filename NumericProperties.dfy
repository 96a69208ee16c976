/** What the numeric rule means for a column sorted by value: one raw split
    per distinct value at strictly ascending thresholds that separate the
    values, counts that cover every instance once, and a merged rule whose
    neighbouring entries differ in class, whose bounds are raw thresholds
    ending at the last value + 1, and whose weights lie in (0, 1]. */
module NumericProperties {
  import opened Basics
  import opened Tuples
  import opened NumericTrainer

  // ---------------------------------------------------------------------
  // The raw scan

  /** In a sorted column, a change of value is a step up. */
  lemma CutIsStepUp(col: seq<real>, c: nat)
    requires Sorted(col) && c in Cuts(col)
    ensures 0 < c < |col| && col[c - 1] < col[c]
  {
    CutsAt(col, c);
  }

  /** Threshold k lies above every value of run k, and threshold k - 1
      below it: the thresholds separate the distinct values. */
  lemma ThresholdBrackets(col: seq<real>, k: nat, i: nat)
    requires Sorted(col) && |col| > 0 && k <= |Cuts(col)|
    requires RunLo(Cuts(col), k) <= i < RunHi(Cuts(col), |col|, k)
    ensures col[i] < RawThresholds(col)[k]
    ensures k > 0 ==> RawThresholds(col)[k - 1] < col[i]
  {
    ThresholdAbove(col, k, i);
    if k > 0 {
      ThresholdBelow(col, k, i);
    }
  }

  lemma ThresholdAbove(col: seq<real>, k: nat, i: nat)
    requires Sorted(col) && |col| > 0 && k <= |Cuts(col)|
    requires RunLo(Cuts(col), k) <= i < RunHi(Cuts(col), |col|, k)
    ensures col[i] < RawThresholds(col)[k]
  {
    var cs := Cuts(col);
    RawThresholdAt(col, k);
    if k < |cs| {
      var c := cs[k];
      assert c in cs;
      CutIsStepUp(col, c);
      assert col[i] <= col[c - 1];
    } else {
      assert col[i] <= col[|col| - 1];
    }
  }

  lemma ThresholdBelow(col: seq<real>, k: nat, i: nat)
    requires Sorted(col) && |col| > 0 && 0 < k <= |Cuts(col)|
    requires RunLo(Cuts(col), k) <= i < |col|
    ensures RawThresholds(col)[k - 1] < col[i]
  {
    var cs := Cuts(col);
    RawThresholdAt(col, k - 1);
    var c := cs[k - 1];
    assert c in cs;
    CutIsStepUp(col, c);
    assert col[c] <= col[i];
  }

  lemma RawThresholdAt(col: seq<real>, k: nat)
    requires |col| > 0 && k <= |Cuts(col)|
    ensures k < |Cuts(col)| ==> 0 < Cuts(col)[k] < |col| && RawThresholds(col)[k] == Midpoint(col, Cuts(col)[k])
    ensures k == |Cuts(col)| ==> RawThresholds(col)[k] == col[|col| - 1] + 1.0
  {
  }

  lemma AdjacentThresholds(col: seq<real>, k: nat)
    requires Sorted(col) && |col| > 0 && k < |Cuts(col)|
    ensures RawThresholds(col)[k] < RawThresholds(col)[k + 1]
  {
    RunBounds(col, k + 1);
    ThresholdBrackets(col, k + 1, RunLo(Cuts(col), k + 1));
  }

  /** The raw thresholds are strictly ascending. */
  lemma {:induction false} ThresholdsAscending(col: seq<real>, k: nat, l: nat)
    requires Sorted(col) && |col| > 0 && k < l < |RawThresholds(col)|
    ensures RawThresholds(col)[k] < RawThresholds(col)[l]
    decreases l - k
  {
    AdjacentThresholds(col, k);
    if k + 1 < l {
      ThresholdsAscending(col, k + 1, l);
    }
  }

  /** The values of the runs are strictly ascending. */
  lemma RunValuesAscending(col: seq<real>, k: nat, l: nat)
    requires Sorted(col) && |col| > 0 && k < l <= |Cuts(col)|
    ensures col[RunLo(Cuts(col), k)] < col[RunLo(Cuts(col), l)]
  {
    var cs := Cuts(col);
    RunBounds(col, k);
    RunBounds(col, l);
    ThresholdBrackets(col, k, RunLo(cs, k));
    ThresholdBrackets(col, l, RunLo(cs, l));
    if k < l - 1 {
      ThresholdsAscending(col, k, l - 1);
    }
  }

  /** Exactly one raw split per distinct value: the run holding instance i
      is the only run whose value is col[i]. */
  lemma OneSplitPerValue(col: seq<real>, i: nat) returns (k: nat)
    requires Sorted(col) && i < |col|
    ensures k < |RawThresholds(col)| && RunLo(Cuts(col), k) <= i < RunHi(Cuts(col), |col|, k)
    ensures col[RunLo(Cuts(col), k)] == col[i]
    ensures forall l :: 0 <= l <= |Cuts(col)| && l != k ==> col[RunLo(Cuts(col), l)] != col[i]
  {
    var cs := Cuts(col);
    k := RunOf(col, i);
    RunUniform(col, k, i);
    forall l | 0 <= l <= |cs| && l != k ensures col[RunLo(cs, l)] != col[i] {
      if l < k {
        RunValuesAscending(col, l, k);
      } else {
        RunValuesAscending(col, k, l);
      }
    }
  }

  /** Summed over all raw splits, the class counts count every instance
      once. */
  lemma CountsCoverInstances(col: seq<real>, classes: seq<int>, numClasses: nat)
    requires |col| == |classes| > 0 && ClassesInRange(classes, numClasses)
    ensures Sum(TotalCounts(RawCounts(col, classes, numClasses))) == |col|
  {
    var cs := Cuts(col);
    var tot := TotalCounts(RawCounts(col, classes, numClasses));
    CountsCoverPrefix(col, classes, numClasses, |cs| + 1);
    assert tot[..|cs| + 1] == tot;
  }

  /** The first k raw splits count the instances before the end of run
      k - 1. */
  lemma {:induction false} CountsCoverPrefix(col: seq<real>, classes: seq<int>, numClasses: nat, k: nat)
    requires |col| == |classes| > 0 && ClassesInRange(classes, numClasses) && k <= |Cuts(col)| + 1
    ensures Sum(TotalCounts(RawCounts(col, classes, numClasses))[..k])
         == if k == 0 then 0 else RunHi(Cuts(col), |col|, k - 1)
  {
    var cs := Cuts(col);
    var tot := TotalCounts(RawCounts(col, classes, numClasses));
    if k > 0 {
      CountsCoverPrefix(col, classes, numClasses, k - 1);
      assert tot[..k][..k - 1] == tot[..k - 1];
      RawCountsSize(col, classes, numClasses, k - 1);
      if k > 1 {
        RunBounds(col, k - 2);
      }
    }
  }

  // ---------------------------------------------------------------------
  // The merge

  /** Neighbouring merged entries never share a class. */
  lemma MergedClassesDiffer(raw: seq<DoubleTuple>, mx: seq<int>, tot: seq<int>, k: nat)
    requires |raw| > 0 && |mx| == |raw| && |tot| == |raw| && Positive(tot)
    requires k + 1 < |MergeRuns(raw, mx, tot)|
    ensures MergeRuns(raw, mx, tot)[k].classVal != MergeRuns(raw, mx, tot)[k + 1].classVal
  {
    var cls := ClassesOf(raw);
    MergeRunsAt(raw, mx, tot, k);
    MergeRunsAt(raw, mx, tot, k + 1);
    RunsDiffer(cls, k);
  }

  /** Merged entry k has the bound of the last raw split of its run, and
      the class of the first. */
  lemma MergedEntryParts(raw: seq<DoubleTuple>, mx: seq<int>, tot: seq<int>, k: nat)
    requires |raw| > 0 && |mx| == |raw| && |tot| == |raw| && Positive(tot)
    requires k < |MergeRuns(raw, mx, tot)|
    ensures var cs := Cuts(ClassesOf(raw));
      0 < RunHi(cs, |raw|, k) <= |raw| &&
      MergeRuns(raw, mx, tot)[k].splitVal == raw[RunHi(cs, |raw|, k) - 1].splitVal &&
      (k + 1 == |MergeRuns(raw, mx, tot)| <==> RunHi(cs, |raw|, k) == |raw|) &&
      (k + 1 < |MergeRuns(raw, mx, tot)| ==> RunHi(cs, |raw|, k) < RunHi(cs, |raw|, k + 1))
  {
    var cls := ClassesOf(raw);
    MergeRunsAt(raw, mx, tot, k);
    RunBounds(cls, k);
    if k + 1 < |MergeRuns(raw, mx, tot)| {
      RunBounds(cls, k + 1);
    }
  }

  /** Sums respect a pointwise order. */
  lemma {:induction false} SumMonotone(a: seq<int>, b: seq<int>)
    requires |a| == |b| && forall i :: 0 <= i < |a| ==> a[i] <= b[i]
    ensures Sum(a) <= Sum(b)
  {
    if a != [] {
      var a', b' := a[..|a| - 1], b[..|b| - 1];
      assert forall i :: 0 <= i < |a'| ==> a'[i] <= b'[i] by {
        forall i | 0 <= i < |a'| ensures a'[i] <= b'[i] { assert a'[i] == a[i] && b'[i] == b[i]; }
      }
      SumMonotone(a', b');
    }
  }

  /** A merged entry pools chosen counts over totals; when every raw split's
      chosen count is positive and at most its total, so is the pool, and
      the weight lies in (0, 1]. */
  lemma MergedWeightInUnitInterval(raw: seq<DoubleTuple>, mx: seq<int>, tot: seq<int>, k: nat)
    requires |raw| > 0 && |mx| == |raw| && |tot| == |raw| && Positive(tot)
    requires forall i :: 0 <= i < |raw| ==> 0 < mx[i] <= tot[i]
    requires k < |MergeRuns(raw, mx, tot)|
    ensures 0.0 < MergeRuns(raw, mx, tot)[k].weight <= 1.0
  {
    var cs := Cuts(ClassesOf(raw));
    MergeRunsAt(raw, mx, tot, k);
    var lo, hi := RunLo(cs, k), RunHi(cs, |raw|, k);
    assert Positive(mx);
    SlicePositive(mx, lo, hi);
    SumMonotone(mx[lo..hi], tot[lo..hi]);
    RatioInUnitInterval(Sum(mx[lo..hi]), Sum(tot[lo..hi]));
  }

  // ---------------------------------------------------------------------
  // The learnt rule

  /** Each bound of the rule is a raw threshold (the one of the last raw
      split of its run); only the last entry has the final bound. */
  lemma RuleBoundIsThreshold(col: seq<real>, classes: seq<int>, numClasses: nat, k: nat) returns (j: nat)
    requires |col| == |classes| > 0 && numClasses > 0 && ClassesInRange(classes, numClasses)
    requires k < |NumericRule(col, classes, numClasses)|
    ensures j < |RawThresholds(col)| && NumericRule(col, classes, numClasses)[k].splitVal == RawThresholds(col)[j]
    ensures k + 1 == |NumericRule(col, classes, numClasses)| <==> j + 1 == |RawThresholds(col)|
  {
    var splits, data := RawThresholds(col), RawCounts(col, classes, numClasses);
    RawCountsWellCounted(col, classes, numClasses);
    var raw := RawSplits(splits, data);
    MergedEntryParts(raw, MaxCounts(data), TotalCounts(data), k);
    j := RunHi(Cuts(ClassesOf(raw)), |raw|, k) - 1;
  }

  /** The last bound of the rule is the largest value + 1. */
  lemma RuleEndsAtLastPlusOne(col: seq<real>, classes: seq<int>, numClasses: nat)
    requires |col| == |classes| > 0 && numClasses > 0 && ClassesInRange(classes, numClasses)
    ensures |NumericRule(col, classes, numClasses)| > 0
    ensures NumericRule(col, classes, numClasses)[|NumericRule(col, classes, numClasses)| - 1].splitVal
         == col[|col| - 1] + 1.0
  {
    var rule := NumericRule(col, classes, numClasses);
    var j := RuleBoundIsThreshold(col, classes, numClasses, |rule| - 1);
  }

  /** Raw splits keep the strictly ascending thresholds of the scan. */
  lemma RawSplitsAscending(col: seq<real>, classes: seq<int>, numClasses: nat, i: nat, j: nat)
    requires |col| == |classes| > 0 && numClasses > 0 && ClassesInRange(classes, numClasses) && Sorted(col)
    requires WellCounted(RawCounts(col, classes, numClasses))
    requires i < j < |RawThresholds(col)|
    ensures var raw := RawSplits(RawThresholds(col), RawCounts(col, classes, numClasses));
      raw[i].splitVal < raw[j].splitVal
  {
    ThresholdsAscending(col, i, j);
  }

  /** Merging keeps ascending bounds ascending. */
  lemma MergedBoundsAscending(raw: seq<DoubleTuple>, mx: seq<int>, tot: seq<int>, k: nat)
    requires |raw| > 0 && |mx| == |raw| && |tot| == |raw| && Positive(tot)
    requires forall i, j :: 0 <= i < j < |raw| ==> raw[i].splitVal < raw[j].splitVal
    requires k + 1 < |MergeRuns(raw, mx, tot)|
    ensures MergeRuns(raw, mx, tot)[k].splitVal < MergeRuns(raw, mx, tot)[k + 1].splitVal
  {
    MergedEntryParts(raw, mx, tot, k);
    MergedEntryParts(raw, mx, tot, k + 1);
  }

  /** The bounds of the rule are strictly ascending. */
  lemma RuleBoundsAscending(col: seq<real>, classes: seq<int>, numClasses: nat, k: nat)
    requires |col| == |classes| > 0 && numClasses > 0 && ClassesInRange(classes, numClasses) && Sorted(col)
    requires k + 1 < |NumericRule(col, classes, numClasses)|
    ensures NumericRule(col, classes, numClasses)[k].splitVal < NumericRule(col, classes, numClasses)[k + 1].splitVal
  {
    var splits, data := RawThresholds(col), RawCounts(col, classes, numClasses);
    RawCountsWellCounted(col, classes, numClasses);
    var raw := RawSplits(splits, data);
    forall i, j | 0 <= i < j < |raw| ensures raw[i].splitVal < raw[j].splitVal {
      RawSplitsAscending(col, classes, numClasses, i, j);
    }
    MergedBoundsAscending(raw, MaxCounts(data), TotalCounts(data), k);
  }

  /** Neighbouring entries of the rule predict different classes. */
  lemma RuleClassesAlternate(col: seq<real>, classes: seq<int>, numClasses: nat, k: nat)
    requires |col| == |classes| > 0 && numClasses > 0 && ClassesInRange(classes, numClasses)
    requires k + 1 < |NumericRule(col, classes, numClasses)|
    ensures NumericRule(col, classes, numClasses)[k].classVal != NumericRule(col, classes, numClasses)[k + 1].classVal
  {
    var splits, data := RawThresholds(col), RawCounts(col, classes, numClasses);
    RawCountsWellCounted(col, classes, numClasses);
    MergedClassesDiffer(RawSplits(splits, data), MaxCounts(data), TotalCounts(data), k);
  }

  /** Every weight of the rule lies in (0, 1]. */
  lemma RuleWeightsInUnitInterval(col: seq<real>, classes: seq<int>, numClasses: nat, k: nat)
    requires |col| == |classes| > 0 && numClasses > 0 && ClassesInRange(classes, numClasses)
    requires k < |NumericRule(col, classes, numClasses)|
    ensures 0.0 < NumericRule(col, classes, numClasses)[k].weight <= 1.0
  {
    var splits, data := RawThresholds(col), RawCounts(col, classes, numClasses);
    RawCountsWellCounted(col, classes, numClasses);
    var raw, mx, tot := RawSplits(splits, data), MaxCounts(data), TotalCounts(data);
    forall i | 0 <= i < |raw| ensures 0 < mx[i] <= tot[i] {
      RawSplitMeaning(splits, data, i);
    }
    MergedWeightInUnitInterval(raw, mx, tot, k);
  }

  /** Every entry of the rule votes for a class of the class attribute:
      the rule never holds a negative "no vote" class. */
  lemma RuleClassesInRange(col: seq<real>, classes: seq<int>, numClasses: nat, k: nat)
    requires |col| == |classes| > 0 && numClasses > 0 && ClassesInRange(classes, numClasses)
    requires k < |NumericRule(col, classes, numClasses)|
    ensures 0 <= NumericRule(col, classes, numClasses)[k].classVal < numClasses
  {
    var splits, data := RawThresholds(col), RawCounts(col, classes, numClasses);
    RawCountsWellCounted(col, classes, numClasses);
    var raw, mx, tot := RawSplits(splits, data), MaxCounts(data), TotalCounts(data);
    forall i | 0 <= i < |raw| ensures tot[i] > 0 {
      RawSplitMeaning(splits, data, i);
    }
    MergeRunsAt(raw, mx, tot, k);
    var lo := RunLo(Cuts(ClassesOf(raw)), k);
    RawSplitMeaning(splits, data, lo);
    assert |data[lo]| == numClasses;
  }

  // ---------------------------------------------------------------------
  // Example

  /** Values 1, 2, 3 with classes 0, 0, 1: raw splits at 1.5, 2.5 and 4,
      the first two of class 0 merged into one entry bounded by 2.5. */
  lemma ThreeValueExample()
    ensures NumericRule([1.0, 2.0, 3.0], [0, 0, 1], 2) == [DoubleTuple(2.5, 0, 1.0), DoubleTuple(4.0, 1, 1.0)]
  {
    var col, classes := [1.0, 2.0, 3.0], [0, 0, 1];
    ExampleScan(col, classes);
    var splits, data := RawThresholds(col), RawCounts(col, classes, 2);
    RawCountsWellCounted(col, classes, 2);
    var raw, mx, tot := RawSplits(splits, data), MaxCounts(data), TotalCounts(data);
    ExampleSplits(splits, data);
    ExampleMerge(raw, mx, tot);
  }

  lemma ExampleScan(col: seq<real>, classes: seq<int>)
    requires col == [1.0, 2.0, 3.0] && classes == [0, 0, 1]
    ensures RawThresholds(col) == [1.5, 2.5, 4.0]
    ensures RawCounts(col, classes, 2) == [[1, 0], [1, 0], [0, 1]]
  {
    ExampleCuts(col, [1, 2]);
    ExampleCounts(col, classes);
  }

  /** The changes of value of the example columns. */
  lemma ExampleCuts<T>(s: seq<T>, cs: seq<nat>)
    requires |s| == 3
    requires cs == (if s[1] != s[0] then [1] else []) + (if s[2] != s[1] then [2] else [])
    ensures Cuts(s) == cs
  {
    assert s[..2][..1] == s[..1] && s[..3][..2] == s[..2] && s[..3] == s;
    assert Cuts(s[..1]) == [];
    assert s[..2][1] == s[1] && s[..2][0] == s[0];
  }

  lemma ExampleCounts(col: seq<real>, classes: seq<int>)
    requires col == [1.0, 2.0, 3.0] && classes == [0, 0, 1] && Cuts(col) == [1, 2]
    ensures RawCounts(col, classes, 2) == [[1, 0], [1, 0], [0, 1]]
  {
    var d := RawCounts(col, classes, 2);
    assert classes[0..1] == [0] && classes[1..2] == [0] && classes[2..3] == [1];
    assert [0][..0] == [] && [1][..0] == [];
    RawCountsAt(col, classes, 2, 0);
    RawCountsAt(col, classes, 2, 1);
    RawCountsAt(col, classes, 2, 2);
    assert d[0] == [1, 0] && d[1] == [1, 0] && d[2] == [0, 1];
  }

  lemma ExampleSplits(splits: seq<real>, data: seq<seq<int>>)
    requires splits == [1.5, 2.5, 4.0] && data == [[1, 0], [1, 0], [0, 1]]
    ensures WellCounted(data)
    ensures RawSplits(splits, data) == [DoubleTuple(1.5, 0, 1.0), DoubleTuple(2.5, 0, 1.0), DoubleTuple(4.0, 1, 1.0)]
    ensures MaxCounts(data) == [1, 1, 1] && TotalCounts(data) == [1, 1, 1]
  {
    assert [1, 0][..1] == [1] && [0, 1][..1] == [0] && [1][..0] == [] && [0][..0] == [];
    assert Sum([1, 0]) == 1 && Sum([0, 1]) == 1;
    assert FirstMax([1, 0]) == 0 && FirstMax([0, 1]) == 1;
  }

  lemma ExampleMerge(raw: seq<DoubleTuple>, mx: seq<int>, tot: seq<int>)
    requires raw == [DoubleTuple(1.5, 0, 1.0), DoubleTuple(2.5, 0, 1.0), DoubleTuple(4.0, 1, 1.0)]
    requires mx == [1, 1, 1] && tot == [1, 1, 1]
    ensures Positive(tot)
    ensures MergeRuns(raw, mx, tot) == [DoubleTuple(2.5, 0, 1.0), DoubleTuple(4.0, 1, 1.0)]
  {
    var cls := ClassesOf(raw);
    assert cls[0] == 0 && cls[1] == 0 && cls[2] == 1;
    ExampleCuts(cls, [2]);
    ExampleSums(mx);
    MergeRunsAt(raw, mx, tot, 0);
    MergeRunsAt(raw, mx, tot, 1);
    assert MergedEntry(raw, mx, tot, 0, 2) == DoubleTuple(2.5, 0, 1.0);
    assert MergedEntry(raw, mx, tot, 2, 3) == DoubleTuple(4.0, 1, 1.0);
  }

  lemma ExampleSums(s: seq<int>)
    requires s == [1, 1, 1]
    ensures Sum(s[0..2]) == 2 && Sum(s[2..3]) == 1
  {
    assert s[0..2] == [1, 1] && [1, 1][..1] == [1] && [1][..0] == [] && s[2..3] == [1];
  }
}
