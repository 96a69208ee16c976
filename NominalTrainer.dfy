/** Training the rule of a nominal attribute: a value-by-class contingency
    table, then for every domain value the first class with the most
    instances and the fraction of the value's instances in that class. */
module NominalTrainer {
  import opened Basics
  import opened Attributes

  /** `new Random(7).nextInt()`: a generator re-seeded with 7 on every call
      yields the same first int, the one the JDK's linear congruential
      generator gives for seed 7. */
  const Random7NextInt: int := -1156638823

  /** The class given to a domain value never seen in training. Java's `%`
      keeps the sign of the negative dividend, so this is never a positive
      class: it is 0 or a negative "no vote" marker. */
  function FallbackClass(numClasses: nat): (c: int)
    requires numClasses > 0
    ensures -(numClasses as int) < c <= 0
  {
    JavaRem(Random7NextInt, numClasses)
  }

  /** Number of training instances with value v and class c. */
  function PairCount(column: seq<string>, classes: seq<int>, v: string, c: int): nat
    requires |column| == |classes|
  {
    if column == [] then 0
    else
      PairCount(column[..|column| - 1], classes[..|classes| - 1], v, c)
      + (if column[|column| - 1] == v && classes[|classes| - 1] == c then 1 else 0)
  }

  /** The contingency row of value v: instances with value v, per class. */
  function ContingencyRow(column: seq<string>, classes: seq<int>, v: string, numClasses: nat): (row: seq<int>)
    requires |column| == |classes|
    ensures |row| == numClasses && NonNegative(row)
  {
    seq(numClasses, c => PairCount(column, classes, v, c))
  }

  /** The class the rule predicts for a value with contingency row `row`. */
  function NominalClass(row: seq<int>): int
    requires |row| > 0
  {
    if Sum(row) == 0 then FallbackClass(|row|) else FirstMax(row)
  }

  /** The weight the rule gives that prediction. */
  function NominalWeight(row: seq<int>): real
    requires |row| > 0
  {
    if Sum(row) == 0 then 0.0 else row[FirstMax(row)] as real / Sum(row) as real
  }

  /** Fills `attributeData` with the nominal rule learnt from a training
      column (`column[i]` is instance i's value, `classes[i]` its class)
      over the attribute's domain. */
  method TrainNominalAttributeWeight(attributeData: AttributeData, column: seq<string>, classes: seq<int>,
                                     domain: seq<string>, numClasses: nat)
    requires |column| == |classes| && numClasses > 0 && ClassesInRange(classes, numClasses)
    modifies attributeData
    ensures attributeData.Valid() && attributeData.noOfNomValues == |domain|
    ensures fresh(attributeData.attValClass) && fresh(attributeData.weight)
    ensures forall j :: 0 <= j < |domain| ==>
      attributeData.attValClass[j] == NominalClass(ContingencyRow(column, classes, domain[j], numClasses)) &&
      attributeData.weight[j] == NominalWeight(ContingencyRow(column, classes, domain[j], numClasses))
    ensures !attributeData.discard && !attributeData.numeric
    ensures attributeData.listSplitClassWt == old(attributeData.listSplitClassWt)
  {
    var limit2, limit3 := |domain|, numClasses;
    var attValPred := CountPairs(column, classes, domain, numClasses);
    attributeData.SetNominalAttributeValueClassArray(limit2);

    // the class and weight of every value
    var j := 0;
    while j < limit2
      modifies attributeData.attValClass, attributeData.weight
      invariant 0 <= j <= limit2
      invariant forall j' :: 0 <= j' < j ==>
        attributeData.attValClass[j'] == NominalClass(ContingencyRow(column, classes, domain[j'], numClasses)) &&
        attributeData.weight[j'] == NominalWeight(ContingencyRow(column, classes, domain[j'], numClasses))
    {
      var row := seq(limit3, k requires 0 <= k < limit3 reads attValPred => attValPred[j, k]);
      assert row == ContingencyRow(column, classes, domain[j], numClasses);
      SetValueRule(attributeData.attValClass, attributeData.weight, j, row);
      j := j + 1;
    }

    attributeData.discard := false;
    attributeData.numeric := false;
  }

  /** Sets the class and weight of domain value j from its contingency row:
      the first class with the largest count and its share of the row, or
      the fallback class and weight 0 for a value never seen. */
  method SetValueRule(attValClass: array<int>, weight: array<real>, j: nat, row: seq<int>)
    requires j < attValClass.Length && j < weight.Length && |row| > 0
    modifies attValClass, weight
    ensures attValClass[..] == old(attValClass[..])[j := NominalClass(row)]
    ensures weight[..] == old(weight[..])[j := NominalWeight(row)]
  {
    var maxPredCntClassIndex, maxPredCnt, cnt := ScanCounts(row);
    FirstMaxUnique(row, maxPredCntClassIndex, FirstMax(row));
    if cnt == 0 {
      attValClass[j] := FallbackClass(|row|);
      weight[j] := 0.0;
    } else {
      attValClass[j] := maxPredCntClassIndex;
      weight[j] := maxPredCnt as real / cnt as real;
    }
  }

  /** The value-by-class contingency table of a training column: cell (j, k)
      counts the instances whose value equals domain[j] and whose class is k. */
  method CountPairs(column: seq<string>, classes: seq<int>, domain: seq<string>, numClasses: nat)
    returns (attValPred: array2<int>)
    requires |column| == |classes| && ClassesInRange(classes, numClasses)
    ensures fresh(attValPred) && attValPred.Length0 == |domain| && attValPred.Length1 == numClasses
    ensures forall j, k :: 0 <= j < |domain| && 0 <= k < numClasses ==>
      attValPred[j, k] == PairCount(column, classes, domain[j], k)
  {
    var limit1, limit2, limit3 := |column|, |domain|, numClasses;
    attValPred := new int[limit2, limit3]((_, _) => 0);
    var i := 0;
    while i < limit1
      invariant 0 <= i <= limit1
      invariant forall j, k :: 0 <= j < limit2 && 0 <= k < limit3 ==>
        attValPred[j, k] == PairCount(column[..i], classes[..i], domain[j], k)
    {
      assert column[..i + 1][..i] == column[..i] && classes[..i + 1][..i] == classes[..i];
      CountInstance(attValPred, domain, column[i], classes[i]);
      i := i + 1;
    }
    assert column[..limit1] == column && classes[..limit1] == classes;
  }

  /** Counts one instance with value attvalue and class cls: the cell of
      every domain entry equal to attvalue, in column cls, goes up by one. */
  method CountInstance(attValPred: array2<int>, domain: seq<string>, attvalue: string, cls: int)
    requires attValPred.Length0 == |domain| && 0 <= cls < attValPred.Length1
    modifies attValPred
    ensures forall j, k :: 0 <= j < |domain| && 0 <= k < attValPred.Length1 ==>
      attValPred[j, k] == old(attValPred[j, k]) + (if domain[j] == attvalue && k == cls then 1 else 0)
  {
    var j := 0;
    while j < |domain|
      invariant 0 <= j <= |domain|
      invariant forall j', k :: 0 <= j' < |domain| && 0 <= k < attValPred.Length1 ==>
        attValPred[j', k] == old(attValPred[j', k]) + (if j' < j && domain[j'] == attvalue && k == cls then 1 else 0)
    {
      if attvalue == domain[j] {
        attValPred[j, cls] := attValPred[j, cls] + 1;
      }
      j := j + 1;
    }
  }

  /** The instances with value v, summed over all classes, are exactly the
      occurrences of v in the column. */
  lemma {:induction false} RowTotalIsOccurrences(column: seq<string>, classes: seq<int>, v: string, numClasses: nat)
    requires |column| == |classes| && ClassesInRange(classes, numClasses)
    ensures Sum(ContingencyRow(column, classes, v, numClasses)) == multiset(column)[v]
  {
    if column == [] {
      assert ContingencyRow(column, classes, v, numClasses) == seq(numClasses, _ => 0);
      ZeroRowSum(numClasses);
    } else {
      var n := |column| - 1;
      var col', cls' := column[..n], classes[..n];
      assert ClassesInRange(cls', numClasses) by {
        forall i | 0 <= i < |cls'| ensures 0 <= cls'[i] < numClasses { assert cls'[i] == classes[i]; }
      }
      RowTotalIsOccurrences(col', cls', v, numClasses);
      assert column == col' + [column[n]];
      var row', row := ContingencyRow(col', cls', v, numClasses), ContingencyRow(column, classes, v, numClasses);
      if column[n] == v {
        assert row == row'[classes[n] := row'[classes[n]] + 1];
        SumUpdate(row', classes[n], 1);
      } else {
        assert row == row';
      }
    }
  }

  /** What the rule means for one domain value v. If v occurs in training,
      the class is the lowest class index with the largest count and the
      weight is that count over v's occurrences, in (0, 1]. If it never
      occurs, the weight is 0 and the class is the same fallback every time. */
  lemma NominalRuleMeaning(column: seq<string>, classes: seq<int>, v: string, numClasses: nat)
    requires |column| == |classes| && numClasses > 0 && ClassesInRange(classes, numClasses)
    ensures var row := ContingencyRow(column, classes, v, numClasses);
      (v in column ==>
        IsFirstMax(row, NominalClass(row)) &&
        NominalWeight(row) == row[NominalClass(row)] as real / multiset(column)[v] as real &&
        0.0 < NominalWeight(row) <= 1.0) &&
      (v !in column ==>
        NominalClass(row) == FallbackClass(numClasses) && NominalWeight(row) == 0.0)
  {
    var row := ContingencyRow(column, classes, v, numClasses);
    RowTotalIsOccurrences(column, classes, v, numClasses);
    if v in column {
      var m := FirstMax(row);
      SumOfNonNegative(row);
      if row[m] == 0 {
        assert forall c :: 0 <= c < |row| ==> row[c] == 0;
        assert row == seq(numClasses, _ => 0);
        ZeroRowSum(numClasses);
      }
      assert 0 < row[m] <= Sum(row);
      RatioInUnitInterval(row[m], Sum(row));
    }
  }

  /** The two-class example: values x, x, x, y, y with classes 0, 0, 1, 1, 1
      give x the class 0 with weight 2/3 and y the class 1 with weight 1. */
  lemma TwoValueExample()
    ensures var column, classes := ["x", "x", "x", "y", "y"], [0, 0, 1, 1, 1];
      var rx, ry := ContingencyRow(column, classes, "x", 2), ContingencyRow(column, classes, "y", 2);
      NominalClass(rx) == 0 && NominalWeight(rx) == 2.0 / 3.0 &&
      NominalClass(ry) == 1 && NominalWeight(ry) == 1.0
  {
    var column, classes := ["x", "x", "x", "y", "y"], [0, 0, 1, 1, 1];
    ExampleCounts(column, classes, "x");
    ExampleCounts(column, classes, "y");
    var rx, ry := ContingencyRow(column, classes, "x", 2), ContingencyRow(column, classes, "y", 2);
    assert rx == [2, 1];
    assert ry == [0, 2];
    assert rx[..1] == [2] && ry[..1] == [0] && [2][..0] == [] && [0][..0] == [];
    assert Sum(rx) == 3 && Sum(ry) == 2;
    assert FirstMax(rx) == 0;
    assert FirstMax(ry) == 1;
  }

  /** The class counts of one value in the example column. */
  lemma ExampleCounts(column: seq<string>, classes: seq<int>, v: string)
    requires column == ["x", "x", "x", "y", "y"] && classes == [0, 0, 1, 1, 1]
    ensures v == "x" ==> PairCount(column, classes, v, 0) == 2 && PairCount(column, classes, v, 1) == 1
    ensures v == "y" ==> PairCount(column, classes, v, 0) == 0 && PairCount(column, classes, v, 1) == 2
  {
    assert column[..4] == ["x", "x", "x", "y"] && classes[..4] == [0, 0, 1, 1];
    assert column[..3] == ["x", "x", "x"] && classes[..3] == [0, 0, 1];
    assert column[..2] == ["x", "x"] && classes[..2] == [0, 0];
    assert column[..1] == ["x"] && classes[..1] == [0];
    assert ["x"][..0] == [] && [0][..0] == [];
    assert column[..2][..1] == column[..1] && classes[..2][..1] == classes[..1];
    assert column[..3][..2] == column[..2] && classes[..3][..2] == classes[..2];
    assert column[..4][..3] == column[..3] && classes[..4][..3] == classes[..3];
    assert column[..5][..4] == column[..4] && classes[..5][..4] == classes[..4];
    assert column[..5] == column && classes[..5] == classes;
    if v == "x" {
      assert PairCount(column[..1], classes[..1], v, 0) == 1 && PairCount(column[..1], classes[..1], v, 1) == 0;
      assert PairCount(column[..2], classes[..2], v, 0) == 2 && PairCount(column[..2], classes[..2], v, 1) == 0;
      assert PairCount(column[..3], classes[..3], v, 0) == 2 && PairCount(column[..3], classes[..3], v, 1) == 1;
      assert PairCount(column[..4], classes[..4], v, 0) == 2 && PairCount(column[..4], classes[..4], v, 1) == 1;
      assert PairCount(column[..5], classes[..5], v, 0) == 2 && PairCount(column[..5], classes[..5], v, 1) == 1;
    } else if v == "y" {
      assert PairCount(column[..1], classes[..1], v, 0) == 0 && PairCount(column[..1], classes[..1], v, 1) == 0;
      assert PairCount(column[..2], classes[..2], v, 0) == 0 && PairCount(column[..2], classes[..2], v, 1) == 0;
      assert PairCount(column[..3], classes[..3], v, 0) == 0 && PairCount(column[..3], classes[..3], v, 1) == 0;
      assert PairCount(column[..4], classes[..4], v, 0) == 0 && PairCount(column[..4], classes[..4], v, 1) == 1;
      assert PairCount(column[..5], classes[..5], v, 0) == 0 && PairCount(column[..5], classes[..5], v, 1) == 2;
    }
  }
}
