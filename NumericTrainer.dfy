/** Training the rule of a numeric attribute. Over the column sorted by
    value: (1) one raw split per run of equal values, at the midpoint to the
    next value (the last one at last value + 1), holding the run's class
    counts; (2) each raw split's first most frequent class and its share;
    (3) neighbouring raw splits with the same class merged into one entry
    whose bound is the bound of the run's last raw split and whose weight
    pools the counts of the run. */
module NumericTrainer {
  import opened Basics
  import opened Tuples
  import opened Attributes

  predicate Sorted(col: seq<real>)
  {
    forall i, j :: 0 <= i < j < |col| ==> col[i] <= col[j]
  }

  /** How many elements of s hold each class 0 .. numClasses-1. */
  function CountsOf(s: seq<int>, numClasses: nat): (v: seq<int>)
    ensures |v| == numClasses && NonNegative(v)
  {
    if s == [] then seq(numClasses, _ => 0)
    else
      var p, x := CountsOf(s[..|s| - 1], numClasses), s[|s| - 1];
      if 0 <= x < numClasses then p[x := p[x] + 1] else p
  }

  /** Class counts of instances lo .. hi-1. */
  function ClassCounts(classes: seq<int>, lo: nat, hi: nat, numClasses: nat): (v: seq<int>)
    requires lo <= hi <= |classes|
    ensures |v| == numClasses && NonNegative(v)
  {
    CountsOf(classes[lo..hi], numClasses)
  }

  // ---------------------------------------------------------------------
  // Step 1: the raw scan

  /** The threshold between the values at c - 1 and c: their midpoint. */
  function Midpoint(col: seq<real>, c: nat): real
    requires 0 < c < |col|
  {
    (col[c - 1] + col[c]) / 2.0
  }

  /** The raw thresholds: the midpoint between each pair of neighbouring
      distinct values, then the last value + 1. */
  function RawThresholds(col: seq<real>): (t: seq<real>)
    requires |col| > 0
    ensures |t| == |Cuts(col)| + 1
  {
    var cs := Cuts(col);
    seq(|cs| + 1, k requires 0 <= k <= |cs| =>
      if k < |cs| then Midpoint(col, cs[k]) else col[|col| - 1] + 1.0)
  }

  /** The class counts of every run of equal values. */
  function RawCounts(col: seq<real>, classes: seq<int>, numClasses: nat): (d: seq<seq<int>>)
    requires |col| == |classes| > 0
    ensures |d| == |Cuts(col)| + 1
  {
    var cs := Cuts(col);
    seq(|cs| + 1, k requires 0 <= k <= |cs| =>
      RunBounds(col, k);
      ClassCounts(classes, RunLo(cs, k), RunHi(cs, |col|, k), numClasses))
  }

  lemma ClassCountsStep(classes: seq<int>, lo: nat, i: nat, numClasses: nat)
    requires lo <= i < |classes| && 0 <= classes[i] < numClasses
    ensures ClassCounts(classes, lo, i + 1, numClasses)
         == ClassCounts(classes, lo, i, numClasses)[classes[i] := ClassCounts(classes, lo, i, numClasses)[classes[i]] + 1]
  {
    assert classes[lo..i + 1][..i - lo] == classes[lo..i];
  }

  /** What the scan has produced after reading the first i instances, whose
      value changes are at cs: one raw split per change, and the running
      counts of the run still open. */
  ghost predicate ScanState(col: seq<real>, classes: seq<int>, numClasses: nat, i: nat,
                            splits: seq<real>, splitData: seq<seq<int>>, counts: seq<int>)
    requires |col| == |classes| && i <= |col|
  {
    ScanStateAt(col, classes, numClasses, i, Cuts(col[..i]), splits, splitData, counts)
  }

  ghost predicate ScanStateAt(col: seq<real>, classes: seq<int>, numClasses: nat, i: nat, cs: seq<nat>,
                              splits: seq<real>, splitData: seq<seq<int>>, counts: seq<int>)
    requires |col| == |classes| && i <= |col|
  {
    Emitted(col, classes, numClasses, cs, splits, splitData) &&
    RunLo(cs, |cs|) <= i && |counts| == numClasses &&
    counts == ClassCounts(classes, RunLo(cs, |cs|), i, numClasses)
  }

  /** One raw split for each of the value changes cs: the midpoint at the
      change and the class counts of the run the change closes. */
  ghost predicate Emitted(col: seq<real>, classes: seq<int>, numClasses: nat, cs: seq<nat>,
                          splits: seq<real>, splitData: seq<seq<int>>)
    requires |col| == |classes|
  {
    |splits| == |cs| && |splitData| == |cs| &&
    forall k {:trigger splits[k]} :: 0 <= k < |cs| ==>
      0 < cs[k] < |col| && RunLo(cs, k) <= cs[k] &&
      splits[k] == Midpoint(col, cs[k]) &&
      splitData[k] == ClassCounts(classes, RunLo(cs, k), cs[k], numClasses)
  }

  /** Closing the open run at a change i extends the emitted splits by one. */
  lemma EmittedAppend(col: seq<real>, classes: seq<int>, numClasses: nat, cs: seq<nat>,
                      splits: seq<real>, splitData: seq<seq<int>>, i: nat)
    requires |col| == |classes| && 0 < i < |col|
    requires Emitted(col, classes, numClasses, cs, splits, splitData)
    requires RunLo(cs, |cs|) <= i
    ensures Emitted(col, classes, numClasses, cs + [i], splits + [Midpoint(col, i)],
                    splitData + [ClassCounts(classes, RunLo(cs, |cs|), i, numClasses)])
  {
    var cs' := cs + [i];
    var splits' := splits + [Midpoint(col, i)];
    var splitData' := splitData + [ClassCounts(classes, RunLo(cs, |cs|), i, numClasses)];
    forall k | 0 <= k < |cs'|
      ensures 0 < cs'[k] < |col| && RunLo(cs', k) <= cs'[k]
      ensures splits'[k] == Midpoint(col, cs'[k])
      ensures splitData'[k] == ClassCounts(classes, RunLo(cs', k), cs'[k], numClasses)
    {
      if k < |cs| {
        assert cs'[k] == cs[k] && RunLo(cs', k) == RunLo(cs, k);
        assert splits'[k] == splits[k] && splitData'[k] == splitData[k];
      } else {
        assert cs'[k] == i && RunLo(cs', k) == RunLo(cs, |cs|);
      }
    }
  }

  lemma ScanStart(col: seq<real>, classes: seq<int>, numClasses: nat)
    requires |col| == |classes| > 0
    ensures ScanState(col, classes, numClasses, 0, [], [], seq(numClasses, _ => 0))
  {
    assert Cuts(col[..0]) == [];
  }

  /** The instance at i continues the open run. */
  lemma ScanSame(col: seq<real>, classes: seq<int>, numClasses: nat, i: nat,
                 splits: seq<real>, splitData: seq<seq<int>>, counts: seq<int>)
    requires |col| == |classes| && i < |col| && ClassesInRange(classes, numClasses)
    requires i == 0 || col[i] == col[i - 1]
    requires ScanState(col, classes, numClasses, i, splits, splitData, counts)
    ensures ScanState(col, classes, numClasses, i + 1, splits, splitData,
                      counts[classes[i] := counts[classes[i]] + 1])
  {
    if i == 0 {
      assert Cuts(col[..1]) == [] && Cuts(col[..0]) == [];
    } else {
      CutsPrefix(col, i);
    }
    var cs := Cuts(col[..i]);
    assert Cuts(col[..i + 1]) == cs;
    ClassCountsStep(classes, RunLo(cs, |cs|), i, numClasses);
  }

  /** The instance at i opens a new run: the open run becomes a raw split. */
  lemma ScanChange(col: seq<real>, classes: seq<int>, numClasses: nat, i: nat,
                   splits: seq<real>, splitData: seq<seq<int>>, counts: seq<int>)
    requires |col| == |classes| && 0 < i < |col| && ClassesInRange(classes, numClasses)
    requires col[i] != col[i - 1]
    requires ScanState(col, classes, numClasses, i, splits, splitData, counts)
    ensures var zeros := seq(numClasses, _ => 0);
      ScanState(col, classes, numClasses, i + 1, splits + [Midpoint(col, i)], splitData + [counts],
                zeros[classes[i] := zeros[classes[i]] + 1])
  {
    CutsPrefix(col, i);
    var cs := Cuts(col[..i]);
    assert Cuts(col[..i + 1]) == cs + [i];
    EmittedAppend(col, classes, numClasses, cs, splits, splitData, i);
    OneCount(classes, i, numClasses);
  }

  /** A single instance counts once, for its class. */
  lemma OneCount(classes: seq<int>, i: nat, numClasses: nat)
    requires i < |classes| && 0 <= classes[i] < numClasses
    ensures ClassCounts(classes, i, i + 1, numClasses) == seq(numClasses, _ => 0)[classes[i] := 1]
  {
    var s := classes[i..i + 1];
    assert s[..0] == [] && s[0] == classes[i];
    var zeros := seq(numClasses, _ => 0);
    assert CountsOf(s[..0], numClasses) == zeros;
    assert CountsOf(s, numClasses) == zeros[classes[i] := zeros[classes[i]] + 1];
  }

  lemma ScanEnd(col: seq<real>, classes: seq<int>, numClasses: nat,
                splits: seq<real>, splitData: seq<seq<int>>, counts: seq<int>)
    requires |col| == |classes| > 0
    requires ScanState(col, classes, numClasses, |col|, splits, splitData, counts)
    ensures splits + [col[|col| - 1] + 1.0] == RawThresholds(col)
    ensures splitData + [counts] == RawCounts(col, classes, numClasses)
  {
    assert col[..|col|] == col;
    ScanEndThresholds(col, splits);
    ScanEndCounts(col, classes, numClasses, splitData, counts);
  }

  lemma ScanEndThresholds(col: seq<real>, splits: seq<real>)
    requires |col| > 0
    requires var cs := Cuts(col);
      |splits| == |cs| && forall k :: 0 <= k < |cs| ==> splits[k] == Midpoint(col, cs[k])
    ensures splits + [col[|col| - 1] + 1.0] == RawThresholds(col)
  {
  }

  lemma ScanEndCounts(col: seq<real>, classes: seq<int>, numClasses: nat, splitData: seq<seq<int>>, counts: seq<int>)
    requires |col| == |classes| > 0
    requires var cs := Cuts(col);
      |splitData| == |cs| &&
      (forall k :: 0 <= k < |cs| ==> splitData[k] == ClassCounts(classes, RunLo(cs, k), cs[k], numClasses)) &&
      RunLo(cs, |cs|) <= |col| &&
      counts == ClassCounts(classes, RunLo(cs, |cs|), |col|, numClasses)
    ensures splitData + [counts] == RawCounts(col, classes, numClasses)
  {
    var cs := Cuts(col);
    var r := RawCounts(col, classes, numClasses);
    var got := splitData + [counts];
    forall k | 0 <= k < |r| ensures got[k] == r[k] {
      RawCountsAt(col, classes, numClasses, k);
    }
  }

  lemma RawCountsAt(col: seq<real>, classes: seq<int>, numClasses: nat, k: nat)
    requires |col| == |classes| > 0 && k <= |Cuts(col)|
    ensures RunLo(Cuts(col), k) < RunHi(Cuts(col), |col|, k) <= |col|
    ensures RawCounts(col, classes, numClasses)[k]
         == ClassCounts(classes, RunLo(Cuts(col), k), RunHi(Cuts(col), |col|, k), numClasses)
  {
    RunBounds(col, k);
  }

  /** Copies the running class counts into a new list and resets them to
      zero for the next run. */
  method DrainCounts(totalCnt: array<int>) returns (singleSplit: seq<int>)
    modifies totalCnt
    ensures singleSplit == old(totalCnt[..])
    ensures totalCnt[..] == seq(totalCnt.Length, _ => 0)
  {
    ghost var open := totalCnt[..];
    singleSplit := [];
    for j := 0 to totalCnt.Length
      invariant singleSplit == open[..j]
      invariant totalCnt[..] == seq(totalCnt.Length, c requires 0 <= c < totalCnt.Length => if c < j then 0 else open[c])
    {
      singleSplit := singleSplit + [totalCnt[j]];
      totalCnt[j] := 0;
    }
    assert open[..totalCnt.Length] == open;
  }

  /** Copies the running class counts into a new list. */
  method CopyCounts(totalCnt: array<int>) returns (singleSplit: seq<int>)
    ensures singleSplit == totalCnt[..]
  {
    singleSplit := [];
    for j := 0 to totalCnt.Length
      invariant singleSplit == totalCnt[..j]
    {
      singleSplit := singleSplit + [totalCnt[j]];
    }
    assert totalCnt[..totalCnt.Length] == totalCnt[..];
  }

  /** Walks the column once, emitting a raw split each time the value
      changes and a final one after the last value. */
  method ScanSplits(col: seq<real>, classes: seq<int>, numClasses: nat)
    returns (splits: seq<real>, splitData: seq<seq<int>>)
    requires |col| == |classes| > 0 && ClassesInRange(classes, numClasses)
    ensures splits == RawThresholds(col) && splitData == RawCounts(col, classes, numClasses)
  {
    var totalCnt, curval;
    splits, splitData, totalCnt, curval := ScanRuns(col, classes, numClasses);
    var singleSplit := CopyCounts(totalCnt);
    ScanEnd(col, classes, numClasses, splits, splitData, singleSplit);
    splitData := splitData + [singleSplit];
    splits := splits + [curval + 1.0];
  }

  /** The loop of the scan: every run but the last closed into a raw
      split, and the last run's counts left in totalCnt. */
  method ScanRuns(col: seq<real>, classes: seq<int>, numClasses: nat)
    returns (splits: seq<real>, splitData: seq<seq<int>>, totalCnt: array<int>, curval: real)
    requires |col| == |classes| > 0 && ClassesInRange(classes, numClasses)
    ensures totalCnt.Length == numClasses && curval == col[|col| - 1]
    ensures ScanState(col, classes, numClasses, |col|, splits, splitData, totalCnt[..])
  {
    var numInsts := |col|;
    totalCnt := new int[numClasses](_ => 0);
    var pval;
    pval, curval := col[0], col[0];
    splits, splitData := [], [];
    ScanStart(col, classes, numClasses);
    var i := 0;
    while i < numInsts
      invariant 0 <= i <= numInsts && totalCnt.Length == numClasses
      invariant pval == curval == col[if i == 0 then 0 else i - 1]
      invariant ScanState(col, classes, numClasses, i, splits, splitData, totalCnt[..])
    {
      curval := col[i];
      pval, splits, splitData := ScanInstance(col, classes, numClasses, i, totalCnt, pval, splits, splitData);
      i := i + 1;
    }
  }

  /** One iteration of the scan, over the instance at i: if its value
      differs from the previous one, the open run is closed into a raw split
      at the midpoint; then the instance is counted for its class. */
  method ScanInstance(col: seq<real>, classes: seq<int>, numClasses: nat, i: nat, totalCnt: array<int>,
                      pval: real, splits: seq<real>, splitData: seq<seq<int>>)
    returns (pval': real, splits': seq<real>, splitData': seq<seq<int>>)
    requires |col| == |classes| && i < |col| && ClassesInRange(classes, numClasses)
    requires totalCnt.Length == numClasses && pval == col[if i == 0 then 0 else i - 1]
    requires ScanState(col, classes, numClasses, i, splits, splitData, totalCnt[..])
    modifies totalCnt
    ensures pval' == col[i]
    ensures ScanState(col, classes, numClasses, i + 1, splits', splitData', totalCnt[..])
  {
    var curval := col[i];
    var curclass := classes[i];
    pval', splits', splitData' := pval, splits, splitData;
    ghost var before := totalCnt[..];
    if curval != pval {
      ScanChange(col, classes, numClasses, i, splits, splitData, before);
      assert (pval + curval) / 2.0 == Midpoint(col, i);
      splits' := splits + [(pval + curval) / 2.0];
      var singleSplit := DrainCounts(totalCnt);
      splitData' := splitData + [singleSplit];
      pval' := curval;
      before := totalCnt[..];
    } else {
      ScanSame(col, classes, numClasses, i, splits, splitData, before);
    }
    totalCnt[curclass] := totalCnt[curclass] + 1;
    assert totalCnt[..] == before[curclass := before[curclass] + 1];
  }

  // ---------------------------------------------------------------------
  // Step 2: a class and a weight for every raw split

  /** Every raw split has class counts for at least one class and counts
      at least one instance. */
  predicate WellCounted(splitData: seq<seq<int>>)
  {
    forall i :: 0 <= i < |splitData| ==> |splitData[i]| > 0 && NonNegative(splitData[i]) && Sum(splitData[i]) > 0
  }

  /** The raw splits with their classes and weights: split i keeps its
      threshold, takes the first most frequent class of its counts, and
      weighs it by that class's share of the split's instances. */
  function RawSplits(splits: seq<real>, splitData: seq<seq<int>>): (raw: seq<DoubleTuple>)
    requires |splits| == |splitData| && WellCounted(splitData)
    ensures |raw| == |splits|
  {
    seq(|splits|, i requires 0 <= i < |splits| =>
      var m := FirstMax(splitData[i]);
      DoubleTuple(splits[i], m, splitData[i][m] as real / Sum(splitData[i]) as real))
  }

  /** The count of each raw split's chosen class. */
  function MaxCounts(splitData: seq<seq<int>>): (mx: seq<int>)
    requires WellCounted(splitData)
    ensures |mx| == |splitData|
  {
    seq(|splitData|, i requires 0 <= i < |splitData| => splitData[i][FirstMax(splitData[i])])
  }

  /** The number of instances of each raw split. */
  function TotalCounts(splitData: seq<seq<int>>): (tot: seq<int>)
    ensures |tot| == |splitData|
  {
    seq(|splitData|, i requires 0 <= i < |splitData| => Sum(splitData[i]))
  }

  /** What step 2 gives each raw split: its own threshold, the lowest class
      with the largest count, a chosen count no larger than the split's
      total and a positive weight of at most 1 that is their ratio. */
  lemma RawSplitMeaning(splits: seq<real>, splitData: seq<seq<int>>, i: nat)
    requires |splits| == |splitData| && WellCounted(splitData) && i < |splits|
    ensures var raw, mx, tot := RawSplits(splits, splitData), MaxCounts(splitData), TotalCounts(splitData);
      raw[i].splitVal == splits[i] &&
      IsFirstMax(splitData[i], raw[i].classVal) &&
      mx[i] == splitData[i][raw[i].classVal] &&
      tot[i] == Sum(splitData[i]) &&
      0 < mx[i] <= tot[i] &&
      raw[i].weight == mx[i] as real / tot[i] as real &&
      0.0 < raw[i].weight <= 1.0
  {
    var d := splitData[i];
    var m := FirstMax(d);
    SumOfNonNegative(d);
    if d[m] == 0 {
      assert forall c :: 0 <= c < |d| ==> d[c] == 0;
      assert d == seq(|d|, _ => 0);
      ZeroRowSum(|d|);
    }
    RatioInUnitInterval(d[m], Sum(d));
  }

  /** Gives every raw split its first most frequent class, that class's
      count, the split's total and the ratio of the two as its weight. */
  method AssignSplitClasses(splits: seq<real>, splitData: seq<seq<int>>)
    returns (listSplitClassWt: seq<DoubleTuple>, splitMaxClassCnt: seq<int>, splitTotalInstCnt: seq<int>)
    requires |splits| == |splitData| && WellCounted(splitData)
    ensures listSplitClassWt == RawSplits(splits, splitData)
    ensures splitMaxClassCnt == MaxCounts(splitData) && splitTotalInstCnt == TotalCounts(splitData)
  {
    listSplitClassWt, splitMaxClassCnt, splitTotalInstCnt := [], [], [];
    for i := 0 to |splits|
      invariant listSplitClassWt == RawSplits(splits, splitData)[..i]
      invariant splitMaxClassCnt == MaxCounts(splitData)[..i]
      invariant splitTotalInstCnt == TotalCounts(splitData)[..i]
    {
      var classIndex1, max1, total1 := ScanCounts(splitData[i]);
      FirstMaxUnique(splitData[i], classIndex1, FirstMax(splitData[i]));
      listSplitClassWt := listSplitClassWt + [DoubleTuple(splits[i], classIndex1, max1 as real / total1 as real)];
      splitMaxClassCnt := splitMaxClassCnt + [max1];
      splitTotalInstCnt := splitTotalInstCnt + [total1];
    }
    assert RawSplits(splits, splitData)[..|splits|] == RawSplits(splits, splitData);
    assert MaxCounts(splitData)[..|splits|] == MaxCounts(splitData);
    assert TotalCounts(splitData)[..|splits|] == TotalCounts(splitData);
  }

  // ---------------------------------------------------------------------
  // Step 3: merging neighbouring raw splits of the same class

  function ClassesOf(raw: seq<DoubleTuple>): (cls: seq<int>)
    ensures |cls| == |raw|
  {
    seq(|raw|, i requires 0 <= i < |raw| => raw[i].classVal)
  }

  predicate Positive(s: seq<int>)
  {
    forall i :: 0 <= i < |s| ==> s[i] > 0
  }

  lemma {:induction false} SumPositive(s: seq<int>)
    requires Positive(s) && |s| > 0
    ensures Sum(s) > 0
  {
    if |s| > 1 {
      var p := s[..|s| - 1];
      assert Positive(p) by { forall i | 0 <= i < |p| ensures p[i] > 0 { assert p[i] == s[i]; } }
      SumPositive(p);
    }
  }

  /** A non-empty stretch of positive totals has a positive sum. */
  lemma SlicePositive(tot: seq<int>, lo: nat, hi: nat)
    requires lo < hi <= |tot| && Positive(tot)
    ensures Sum(tot[lo..hi]) > 0
  {
    assert Positive(tot[lo..hi]) by {
      forall i | 0 <= i < hi - lo ensures tot[lo..hi][i] > 0 { assert tot[lo..hi][i] == tot[lo + i]; }
    }
    SumPositive(tot[lo..hi]);
  }

  /** The merged entry of raw splits lo .. hi-1: the bound of the last one,
      the class of the first, and pooled max counts over pooled totals. */
  function MergedEntry(raw: seq<DoubleTuple>, mx: seq<int>, tot: seq<int>, lo: nat, hi: nat): DoubleTuple
    requires lo < hi <= |raw| && |mx| == |raw| && |tot| == |raw| && Positive(tot)
  {
    SlicePositive(tot, lo, hi);
    DoubleTuple(raw[hi - 1].splitVal, raw[lo].classVal, Sum(mx[lo..hi]) as real / Sum(tot[lo..hi]) as real)
  }

  /** One entry per run of raw splits with equal classes. */
  function MergeRuns(raw: seq<DoubleTuple>, mx: seq<int>, tot: seq<int>): (out: seq<DoubleTuple>)
    requires |raw| > 0 && |mx| == |raw| && |tot| == |raw| && Positive(tot)
    ensures |out| == |Cuts(ClassesOf(raw))| + 1
  {
    var cs := Cuts(ClassesOf(raw));
    seq(|cs| + 1, k requires 0 <= k <= |cs| =>
      RunBounds(ClassesOf(raw), k);
      MergedEntry(raw, mx, tot, RunLo(cs, k), RunHi(cs, |raw|, k)))
  }

  lemma SumStep(s: seq<int>, lo: nat, i: nat)
    requires lo <= i < |s|
    ensures Sum(s[lo..i + 1]) == Sum(s[lo..i]) + s[i]
  {
    assert s[lo..i + 1][..i - lo] == s[lo..i];
  }

  /** What the merge has produced after reading the first i raw splits:
      one entry per class change seen so far, and the pooled counts of the
      run still open, which starts at lo. */
  ghost predicate MergeState(raw: seq<DoubleTuple>, mx: seq<int>, tot: seq<int>, i: nat, lo: nat,
                             pval: int, total1: int, max1: int, emitted: seq<DoubleTuple>)
    requires |mx| == |raw| && |tot| == |raw| && Positive(tot) && i <= |raw|
  {
    MergeStateAt(raw, mx, tot, i, Cuts(ClassesOf(raw)[..i]), lo, pval, total1, max1, emitted)
  }

  ghost predicate MergeStateAt(raw: seq<DoubleTuple>, mx: seq<int>, tot: seq<int>, i: nat, cs: seq<nat>, lo: nat,
                               pval: int, total1: int, max1: int, emitted: seq<DoubleTuple>)
    requires |mx| == |raw| && |tot| == |raw| && Positive(tot) && i <= |raw|
  {
    Merged(raw, mx, tot, cs, emitted) &&
    lo == RunLo(cs, |cs|) && lo < i &&
    pval == raw[lo].classVal && pval == raw[i - 1].classVal &&
    total1 == Sum(tot[lo..i]) && max1 == Sum(mx[lo..i])
  }

  /** One merged entry for each of the class changes cs, covering the run
      the change closes. */
  ghost predicate Merged(raw: seq<DoubleTuple>, mx: seq<int>, tot: seq<int>, cs: seq<nat>, emitted: seq<DoubleTuple>)
    requires |mx| == |raw| && |tot| == |raw| && Positive(tot)
  {
    |emitted| == |cs| &&
    forall k {:trigger emitted[k]} :: 0 <= k < |cs| ==>
      RunLo(cs, k) < cs[k] <= |raw| &&
      emitted[k] == MergedEntry(raw, mx, tot, RunLo(cs, k), cs[k])
  }

  /** Closing the open run at a class change i adds its merged entry. */
  lemma MergedAppend(raw: seq<DoubleTuple>, mx: seq<int>, tot: seq<int>, cs: seq<nat>,
                     emitted: seq<DoubleTuple>, i: nat)
    requires |mx| == |raw| && |tot| == |raw| && Positive(tot)
    requires Merged(raw, mx, tot, cs, emitted)
    requires RunLo(cs, |cs|) < i <= |raw|
    ensures Merged(raw, mx, tot, cs + [i], emitted + [MergedEntry(raw, mx, tot, RunLo(cs, |cs|), i)])
  {
    var cs' := cs + [i];
    var emitted' := emitted + [MergedEntry(raw, mx, tot, RunLo(cs, |cs|), i)];
    forall k | 0 <= k < |cs'|
      ensures RunLo(cs', k) < cs'[k] <= |raw|
      ensures emitted'[k] == MergedEntry(raw, mx, tot, RunLo(cs', k), cs'[k])
    {
      if k < |cs| {
        assert cs'[k] == cs[k] && RunLo(cs', k) == RunLo(cs, k);
        assert emitted'[k] == emitted[k];
      } else {
        assert cs'[k] == i && RunLo(cs', k) == RunLo(cs, |cs|);
      }
    }
  }

  lemma MergeStart(raw: seq<DoubleTuple>, mx: seq<int>, tot: seq<int>)
    requires |raw| > 0 && |mx| == |raw| && |tot| == |raw| && Positive(tot)
    ensures MergeState(raw, mx, tot, 1, 0, raw[0].classVal, tot[0], mx[0], [])
  {
    assert Cuts(ClassesOf(raw)[..1]) == [];
    assert tot[0..1] == [tot[0]] && mx[0..1] == [mx[0]];
    assert [tot[0]][..0] == [] && [mx[0]][..0] == [];
  }

  /** The raw split at i has the open run's class and joins it. */
  lemma MergeSame(raw: seq<DoubleTuple>, mx: seq<int>, tot: seq<int>, i: nat, lo: nat,
                  pval: int, total1: int, max1: int, emitted: seq<DoubleTuple>)
    requires |mx| == |raw| && |tot| == |raw| && Positive(tot) && 0 < i < |raw|
    requires raw[i].classVal == pval
    requires MergeState(raw, mx, tot, i, lo, pval, total1, max1, emitted)
    ensures MergeState(raw, mx, tot, i + 1, lo, pval, total1 + tot[i], max1 + mx[i], emitted)
  {
    var cls := ClassesOf(raw);
    assert cls[i] == raw[i].classVal == raw[i - 1].classVal == cls[i - 1];
    CutsPrefix(cls, i);
    var cs := Cuts(cls[..i]);
    assert cs + [] == cs;
    SumStep(tot, lo, i);
    SumStep(mx, lo, i);
    assert MergeStateAt(raw, mx, tot, i + 1, cs, lo, pval, total1 + tot[i], max1 + mx[i], emitted);
  }

  /** The raw split at i has another class: the open run is closed into a
      merged entry and a new run starts at i. */
  lemma MergeChange(raw: seq<DoubleTuple>, mx: seq<int>, tot: seq<int>, i: nat, lo: nat,
                    pval: int, total1: int, max1: int, emitted: seq<DoubleTuple>)
    requires |mx| == |raw| && |tot| == |raw| && Positive(tot) && 0 < i < |raw|
    requires raw[i].classVal != pval
    requires MergeState(raw, mx, tot, i, lo, pval, total1, max1, emitted)
    ensures total1 > 0
    ensures MergeState(raw, mx, tot, i + 1, i, raw[i].classVal, 0 + tot[i], 0 + mx[i],
                       emitted + [DoubleTuple(raw[i - 1].splitVal, pval, max1 as real / total1 as real)])
  {
    var cls := ClassesOf(raw);
    CutsPrefix(cls, i);
    var cs := Cuts(cls[..i]);
    assert Cuts(cls[..i + 1]) == cs + [i];
    SlicePositive(tot, lo, i);
    var entry := MergedEntry(raw, mx, tot, lo, i);
    assert entry == DoubleTuple(raw[i - 1].splitVal, pval, max1 as real / total1 as real);
    MergedAppend(raw, mx, tot, cs, emitted, i);
    SumStep(tot, i, i);
    SumStep(mx, i, i);
    assert tot[i..i] == [] && mx[i..i] == [];
    assert MergeStateAt(raw, mx, tot, i + 1, cs + [i], i, raw[i].classVal, 0 + tot[i], 0 + mx[i], emitted + [entry]);
  }

  /** After the last raw split, flushing the open run completes MergeRuns. */
  lemma MergeEnd(raw: seq<DoubleTuple>, mx: seq<int>, tot: seq<int>, lo: nat,
                 pval: int, total1: int, max1: int, emitted: seq<DoubleTuple>)
    requires |raw| > 0 && |mx| == |raw| && |tot| == |raw| && Positive(tot)
    requires MergeState(raw, mx, tot, |raw|, lo, pval, total1, max1, emitted)
    ensures total1 > 0
    ensures emitted + [DoubleTuple(raw[|raw| - 1].splitVal, pval, max1 as real / total1 as real)]
         == MergeRuns(raw, mx, tot)
  {
    var cls := ClassesOf(raw);
    assert cls[..|raw|] == cls;
    var cs := Cuts(cls);
    SlicePositive(tot, lo, |raw|);
    var entry := MergedEntry(raw, mx, tot, lo, |raw|);
    assert entry == DoubleTuple(raw[|raw| - 1].splitVal, pval, max1 as real / total1 as real);
    var got := emitted + [entry];
    var want := MergeRuns(raw, mx, tot);
    forall k | 0 <= k < |want| ensures got[k] == want[k] {
      MergeRunsAt(raw, mx, tot, k);
    }
  }

  lemma MergeRunsAt(raw: seq<DoubleTuple>, mx: seq<int>, tot: seq<int>, k: nat)
    requires |raw| > 0 && |mx| == |raw| && |tot| == |raw| && Positive(tot)
    requires k <= |Cuts(ClassesOf(raw))|
    ensures RunLo(Cuts(ClassesOf(raw)), k) < RunHi(Cuts(ClassesOf(raw)), |raw|, k) <= |raw|
    ensures MergeRuns(raw, mx, tot)[k]
         == MergedEntry(raw, mx, tot, RunLo(Cuts(ClassesOf(raw)), k), RunHi(Cuts(ClassesOf(raw)), |raw|, k))
  {
    RunBounds(ClassesOf(raw), k);
  }

  /** Appends to the attribute's numeric rule one entry per run of raw
      splits of equal class, closing a run when the class changes and
      flushing the last run after the scan. */
  method MergeSplits(attributeData: AttributeData, listSplitClassWt: seq<DoubleTuple>,
                     splitMaxClassCnt: seq<int>, splitTotalInstCnt: seq<int>)
    requires |listSplitClassWt| > 0 && |splitMaxClassCnt| == |listSplitClassWt|
    requires |splitTotalInstCnt| == |listSplitClassWt| && Positive(splitTotalInstCnt)
    modifies attributeData`listSplitClassWt
    ensures attributeData.listSplitClassWt
      == old(attributeData.listSplitClassWt) + MergeRuns(listSplitClassWt, splitMaxClassCnt, splitTotalInstCnt)
  {
    var raw, mx, tot := listSplitClassWt, splitMaxClassCnt, splitTotalInstCnt;
    ghost var start := attributeData.listSplitClassWt;
    ghost var emitted := [];
    var pval := raw[0].classVal;
    var total1, max1 := tot[0], mx[0];
    ghost var lo := 0;
    MergeStart(raw, mx, tot);
    var i := 1;
    while i < |raw|
      invariant 1 <= i <= |raw|
      invariant MergeState(raw, mx, tot, i, lo, pval, total1, max1, emitted)
      invariant attributeData.listSplitClassWt == start + emitted
    {
      pval, total1, max1, lo, emitted :=
        MergeSplit(attributeData, raw, mx, tot, i, pval, total1, max1, lo, emitted, start);
      i := i + 1;
    }
    MergeEnd(raw, mx, tot, lo, pval, total1, max1, emitted);
    var psplit := raw[i - 1].splitVal;
    ghost var last := DoubleTuple(psplit, pval, max1 as real / total1 as real);
    attributeData.listSplitClassWt := attributeData.listSplitClassWt + [DoubleTuple(psplit, pval, max1 as real / total1 as real)];
    assert attributeData.listSplitClassWt == start + (emitted + [last]);
  }

  /** One iteration of the merge, over raw split i: a class change closes
      the open run into an entry of the attribute's rule; then split i's
      counts join the run. */
  method MergeSplit(attributeData: AttributeData, raw: seq<DoubleTuple>, mx: seq<int>, tot: seq<int>, i: nat,
                    pval: int, total1: int, max1: int, ghost lo: nat, ghost emitted: seq<DoubleTuple>,
                    ghost start: seq<DoubleTuple>)
    returns (pval': int, total1': int, max1': int, ghost lo': nat, ghost emitted': seq<DoubleTuple>)
    requires |mx| == |raw| && |tot| == |raw| && Positive(tot) && 0 < i < |raw|
    requires MergeState(raw, mx, tot, i, lo, pval, total1, max1, emitted)
    requires attributeData.listSplitClassWt == start + emitted
    modifies attributeData`listSplitClassWt
    ensures MergeState(raw, mx, tot, i + 1, lo', pval', total1', max1', emitted')
    ensures attributeData.listSplitClassWt == start + emitted'
  {
    pval', total1', max1', lo', emitted' := pval, total1, max1, lo, emitted;
    if raw[i].classVal != pval {
      MergeChange(raw, mx, tot, i, lo, pval, total1, max1, emitted);
      var psplit := raw[i - 1].splitVal;
      attributeData.listSplitClassWt := attributeData.listSplitClassWt + [DoubleTuple(psplit, pval, max1 as real / total1 as real)];
      emitted' := emitted + [DoubleTuple(psplit, pval, max1 as real / total1 as real)];
      pval' := raw[i].classVal;
      total1', max1' := 0, 0;
      lo' := i;
    } else {
      MergeSame(raw, mx, tot, i, lo, pval, total1, max1, emitted);
    }
    total1' := total1' + tot[i];
    max1' := max1' + mx[i];
  }

  // ---------------------------------------------------------------------
  // The whole trainer

  /** Instances whose classes are all in range are each counted once. */
  lemma {:induction false} CountsOfSum(s: seq<int>, numClasses: nat)
    requires ClassesInRange(s, numClasses)
    ensures Sum(CountsOf(s, numClasses)) == |s|
  {
    if s == [] {
      ZeroRowSum(numClasses);
    } else {
      var p := s[..|s| - 1];
      assert ClassesInRange(p, numClasses) by {
        forall i | 0 <= i < |p| ensures 0 <= p[i] < numClasses { assert p[i] == s[i]; }
      }
      CountsOfSum(p, numClasses);
      SumUpdate(CountsOf(p, numClasses), s[|s| - 1], 1);
    }
  }

  /** The counts of raw split k cover exactly the instances of its run,
      which is never empty. */
  lemma RawCountsSize(col: seq<real>, classes: seq<int>, numClasses: nat, k: nat)
    requires |col| == |classes| > 0 && ClassesInRange(classes, numClasses) && k <= |Cuts(col)|
    ensures var d := RawCounts(col, classes, numClasses)[k];
      |d| == numClasses && NonNegative(d) &&
      Sum(d) == RunHi(Cuts(col), |col|, k) - RunLo(Cuts(col), k) > 0
  {
    RawCountsAt(col, classes, numClasses, k);
    var lo, hi := RunLo(Cuts(col), k), RunHi(Cuts(col), |col|, k);
    var s := classes[lo..hi];
    assert ClassesInRange(s, numClasses) by {
      forall i | 0 <= i < |s| ensures 0 <= s[i] < numClasses { assert s[i] == classes[lo + i]; }
    }
    CountsOfSum(s, numClasses);
  }

  lemma RawCountsWellCounted(col: seq<real>, classes: seq<int>, numClasses: nat)
    requires |col| == |classes| > 0 && numClasses > 0 && ClassesInRange(classes, numClasses)
    ensures WellCounted(RawCounts(col, classes, numClasses))
  {
    var d := RawCounts(col, classes, numClasses);
    forall k | 0 <= k < |d| ensures |d[k]| > 0 && NonNegative(d[k]) && Sum(d[k]) > 0 {
      RawCountsSize(col, classes, numClasses, k);
    }
  }

  lemma TotalsPositive(splitData: seq<seq<int>>)
    requires WellCounted(splitData)
    ensures Positive(TotalCounts(splitData))
  {
  }

  /** The rule learnt for a numeric attribute from its column sorted by
      value (`col[i]` is the i-th smallest value, `classes[i]` the class of
      that instance): the raw splits with their classes and weights, merged
      into runs of equal class. */
  function NumericRule(col: seq<real>, classes: seq<int>, numClasses: nat): (rule: seq<DoubleTuple>)
    requires |col| == |classes| > 0 && numClasses > 0 && ClassesInRange(classes, numClasses)
  {
    var splits, data := RawThresholds(col), RawCounts(col, classes, numClasses);
    RawCountsWellCounted(col, classes, numClasses);
    MergeRuns(RawSplits(splits, data), MaxCounts(data), TotalCounts(data))
  }

  /** Trains a numeric attribute: marks it numeric and appends its rule to
      the attribute's list. */
  method TrainNumericAttributeWeight(attributeData: AttributeData, col: seq<real>, classes: seq<int>, numClasses: nat)
    requires |col| == |classes| > 0 && numClasses > 0 && ClassesInRange(classes, numClasses) && Sorted(col)
    modifies attributeData`numeric, attributeData`listSplitClassWt
    ensures attributeData.numeric
    ensures attributeData.listSplitClassWt == old(attributeData.listSplitClassWt) + NumericRule(col, classes, numClasses)
  {
    var splits, splitData := ScanSplits(col, classes, numClasses);
    attributeData.numeric := true;
    RawCountsWellCounted(col, classes, numClasses);
    var listSplitClassWt, splitMaxClassCnt, splitTotalInstCnt := AssignSplitClasses(splits, splitData);
    MergeSplits(attributeData, listSplitClassWt, splitMaxClassCnt, splitTotalInstCnt);
  }
}
