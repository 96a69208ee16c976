/** Stratified assignment of instances to cross-validation folds. Class 0
    counts as negative and every other class as positive. For each of the
    two groups a list of fold numbers is built with count / folds entries
    for every fold and one more for each of the first count % folds folds;
    the list is shuffled, and the instances, in order, take their fold from
    the front of their group's list. */
module Folds {
  import opened Basics

  // ---------------------------------------------------------------------
  // Counting the two groups
  // ---------------------------------------------------------------------

  /** Number of instances of class 0, the negative class. */
  function NegativeCount(classes: seq<int>): (n: nat)
    ensures n <= |classes|
  {
    CountAtMost(classes, 0);
    Count(classes, 0)
  }

  /** The counting loop: negatives and positives together make up all
      instances. */
  method CountGroups(classes: seq<int>) returns (positiveCount: nat, negativeCount: nat)
    ensures negativeCount == NegativeCount(classes)
    ensures positiveCount + negativeCount == |classes|
  {
    positiveCount, negativeCount := 0, 0;
    for i := 0 to |classes|
      invariant negativeCount == NegativeCount(classes[..i])
      invariant positiveCount + negativeCount == i
    {
      assert classes[..i + 1][..i] == classes[..i];
      if classes[i] == 0 {
        negativeCount := negativeCount + 1;
      } else {
        positiveCount := positiveCount + 1;
      }
    }
    assert classes[..|classes|] == classes;
  }

  // ---------------------------------------------------------------------
  // The quota list of one group
  // ---------------------------------------------------------------------

  /** q copies of fold v. */
  function Repeat(v: int, q: nat): seq<int>
  {
    if q == 0 then [] else Repeat(v, q - 1) + [v]
  }

  /** q copies of each fold 0 .. i-1, fold by fold. */
  function Blocks(i: nat, q: nat): seq<int>
  {
    if i == 0 then [] else Blocks(i - 1, q) + Repeat(i - 1, q)
  }

  /** The folds 0 .. r-1, one each. */
  function Range(r: nat): seq<int>
  {
    if r == 0 then [] else Range(r - 1) + [r - 1]
  }

  /** The list of fold numbers for a group of `count` instances, before it
      is shuffled. */
  function QuotaList(count: nat, folds: nat): seq<int>
    requires folds > 0
  {
    Blocks(folds, count / folds) + Range(count % folds)
  }

  lemma {:induction false} RepeatLength(v: int, q: nat)
    ensures |Repeat(v, q)| == q
  {
    if q > 0 {
      RepeatLength(v, q - 1);
    }
  }

  lemma {:induction false} RangeLength(r: nat)
    ensures |Range(r)| == r
  {
    if r > 0 {
      RangeLength(r - 1);
    }
  }

  lemma {:induction false} BlocksLength(i: nat, q: nat)
    ensures |Blocks(i, q)| == i * q
  {
    if i > 0 {
      BlocksLength(i - 1, q);
      RepeatLength(i - 1, q);
      assert (i - 1) * q + q == i * q;
    }
  }

  /** The quota list has one entry per instance of the group. */
  lemma QuotaListLength(count: nat, folds: nat)
    requires folds > 0
    ensures |QuotaList(count, folds)| == count
  {
    BlocksLength(folds, count / folds);
    RangeLength(count % folds);
  }

  /** Fold f's share of a group: count / folds, plus one for the first
      count % folds folds. */
  function Quota(count: nat, folds: nat, f: int): nat
    requires folds > 0
  {
    count / folds + (if 0 <= f < count % folds then 1 else 0)
  }

  lemma {:induction false} BlocksCount(i: nat, q: nat, f: int)
    ensures Count(Blocks(i, q), f) == if 0 <= f < i then q else 0
  {
    if i > 0 {
      var init, last := Blocks(i - 1, q), Repeat(i - 1, q);
      BlocksCount(i - 1, q, f);
      RepeatCount(i - 1, q, f);
      CountAppend(init, last, f);
      if f == i - 1 {
        assert Count(init, f) == 0 && Count(last, f) == q;
      } else if 0 <= f < i - 1 {
        assert Count(init, f) == q && Count(last, f) == 0;
      } else {
        assert Count(init, f) == 0 && Count(last, f) == 0;
      }
    }
  }

  lemma {:induction false} RepeatCount(v: int, q: nat, f: int)
    ensures Count(Repeat(v, q), f) == if f == v then q else 0
  {
    if q > 0 {
      RepeatCount(v, q - 1, f);
    }
  }

  lemma {:induction false} RangeCount(r: nat, f: int)
    ensures Count(Range(r), f) == if 0 <= f < r then 1 else 0
  {
    if r > 0 {
      RangeCount(r - 1, f);
    }
  }

  /** The quota list holds exactly Quota(count, folds, f) entries for
      each fold f, and nothing else. */
  lemma QuotaListCounts(count: nat, folds: nat, f: int)
    requires folds > 0
    ensures Count(QuotaList(count, folds), f) == if 0 <= f < folds then Quota(count, folds, f) else 0
  {
    var blocks, extra := Blocks(folds, count / folds), Range(count % folds);
    BlocksCount(folds, count / folds, f);
    RangeCount(count % folds, f);
    CountAppend(blocks, extra, f);
  }

  /** The quota list, however shuffled, holds only folds 0 .. folds-1. */
  lemma ShuffledQuotaInRange(count: nat, folds: nat, picks: seq<nat>)
    requires folds > 0 && ValidPicks(picks, |QuotaList(count, folds)|)
    ensures forall v :: v in Shuffled(QuotaList(count, folds), picks) ==> 0 <= v < folds
  {
    var q := QuotaList(count, folds);
    ShufflePermutes(q, picks, |q|);
    forall v | v in Shuffled(q, picks)
      ensures 0 <= v < folds
    {
      CountIsMultiplicity(Shuffled(q, picks), v);
      CountIsMultiplicity(q, v);
      QuotaListCounts(count, folds, v);
    }
  }

  /** The loops that build both quota lists, adding fold i's share to each
      list in turn and then the extra entries. */
  method BuildQuotas(positiveCount: nat, negativeCount: nat, folds: nat) returns (pmap: seq<int>, nmap: seq<int>)
    requires folds > 0
    ensures pmap == QuotaList(positiveCount, folds)
    ensures nmap == QuotaList(negativeCount, folds)
  {
    var pinfold, remainingPositive := positiveCount / folds, positiveCount % folds;
    var ninfold, remainingNegative := negativeCount / folds, negativeCount % folds;
    pmap, nmap := [], [];
    for i := 0 to folds
      invariant pmap == Blocks(i, pinfold) && nmap == Blocks(i, ninfold)
    {
      pmap := AddCopies(pmap, i, pinfold);
      nmap := AddCopies(nmap, i, ninfold);
    }
    pmap := AddExtras(pmap, remainingPositive);
    nmap := AddExtras(nmap, remainingNegative);
  }

  /** One fold's share: q more copies of fold v. */
  method AddCopies(list: seq<int>, v: int, q: nat) returns (r: seq<int>)
    ensures r == list + Repeat(v, q)
  {
    r := list;
    for j := 0 to q
      invariant r == list + Repeat(v, j)
    {
      r := r + [v];
    }
  }

  /** The remainder: one more entry for each of the folds 0 .. remaining-1;
      nothing when the remainder is zero. */
  method AddExtras(list: seq<int>, remaining: nat) returns (r: seq<int>)
    ensures r == list + Range(remaining)
  {
    r := list;
    if remaining != 0 {
      for j := 0 to remaining
        invariant r == list + Range(j)
      {
        r := r + [j];
      }
    } else {
      assert list + Range(0) == list;
    }
  }

  // ---------------------------------------------------------------------
  // The shuffle
  // ---------------------------------------------------------------------

  /** Random choices for shuffling a list of length n: for each position
      k = n-1 down to 1, a position in 0 .. k to swap it with. */
  predicate ValidPicks(picks: seq<nat>, n: nat)
  {
    |picks| == n && forall k :: 0 <= k < n ==> picks[k] <= k
  }

  function Swap(s: seq<int>, i: nat, j: nat): (t: seq<int>)
    requires i < |s| && j < |s|
    ensures |t| == |s| && multiset(t) == multiset(s)
  {
    s[i := s[j]][j := s[i]]
  }

  /** The shuffle after it has reached position i: positions i-1 down to 1
      are still to be swapped with their picks. */
  function ShuffleFrom(s: seq<int>, picks: seq<nat>, i: nat): (t: seq<int>)
    requires ValidPicks(picks, |s|) && i <= |s|
    ensures |t| == |s|
    decreases i
  {
    if i <= 1 then s else ShuffleFrom(Swap(s, i - 1, picks[i - 1]), picks, i - 1)
  }

  function Shuffled(s: seq<int>, picks: seq<nat>): (t: seq<int>)
    requires ValidPicks(picks, |s|)
    ensures |t| == |s|
  {
    ShuffleFrom(s, picks, |s|)
  }

  /** Shuffling only reorders the list. */
  lemma {:induction false} ShufflePermutes(s: seq<int>, picks: seq<nat>, i: nat)
    requires ValidPicks(picks, |s|) && i <= |s|
    ensures multiset(ShuffleFrom(s, picks, i)) == multiset(s)
    decreases i
  {
    if i > 1 {
      ShufflePermutes(Swap(s, i - 1, picks[i - 1]), picks, i - 1);
    }
  }

  /** The shuffle of a list in place, from the back. */
  method Shuffle(s: seq<int>, picks: seq<nat>) returns (t: seq<int>)
    requires ValidPicks(picks, |s|)
    ensures t == Shuffled(s, picks)
    ensures multiset(t) == multiset(s)
  {
    t := s;
    var i := |s|;
    while i > 1
      invariant 0 <= i <= |s| && |t| == |s|
      invariant ShuffleFrom(t, picks, i) == Shuffled(s, picks)
      invariant multiset(t) == multiset(s)
    {
      t := Swap(t, i - 1, picks[i - 1]);
      i := i - 1;
    }
    ShufflePermutes(s, picks, |s|);
  }

  // ---------------------------------------------------------------------
  // Dealing folds to instances
  // ---------------------------------------------------------------------

  /** The folds the instances take, in order: a negative instance takes
      the front of nmap, a positive one the front of pmap. */
  function Deal(classes: seq<int>, pmap: seq<int>, nmap: seq<int>): (dealt: seq<int>)
    requires |nmap| == NegativeCount(classes) && |pmap| + |nmap| == |classes|
    ensures |dealt| == |classes|
  {
    if classes == [] then []
    else
      var n := |classes| - 1;
      assert NegativeCount(classes) == NegativeCount(classes[..n]) + (if classes[n] == 0 then 1 else 0);
      if classes[n] == 0 then Deal(classes[..n], pmap, nmap[..|nmap| - 1]) + [nmap[|nmap| - 1]]
      else Deal(classes[..n], pmap[..|pmap| - 1], nmap) + [pmap[|pmap| - 1]]
  }

  /** The entries of `dealt` at the positions of negative (or positive)
      instances, in order. */
  function Stratum(dealt: seq<int>, classes: seq<int>, negative: bool): seq<int>
    requires |dealt| == |classes|
  {
    if classes == [] then []
    else
      var n := |classes| - 1;
      Stratum(dealt[..n], classes[..n], negative) +
      (if (classes[n] == 0) == negative then [dealt[n]] else [])
  }

  /** Dealing hands the negatives exactly nmap, in order, and the
      positives exactly pmap. */
  lemma {:induction false} DealStrata(classes: seq<int>, pmap: seq<int>, nmap: seq<int>, negative: bool)
    requires |nmap| == NegativeCount(classes) && |pmap| + |nmap| == |classes|
    ensures Stratum(Deal(classes, pmap, nmap), classes, negative) == if negative then nmap else pmap
  {
    if classes != [] {
      var n := |classes| - 1;
      var init, c := classes[..n], classes[n];
      assert init + [c] == classes;
      if c == 0 {
        DealNegativeStep(classes, pmap, nmap);
        var front, x := nmap[..|nmap| - 1], nmap[|nmap| - 1];
        assert front + [x] == nmap;
        DealStrata(init, pmap, front, negative);
        StratumSnoc(Deal(init, pmap, front), init, x, c, negative);
      } else {
        DealPositiveStep(classes, pmap, nmap);
        var front, x := pmap[..|pmap| - 1], pmap[|pmap| - 1];
        assert front + [x] == pmap;
        DealStrata(init, front, nmap, negative);
        StratumSnoc(Deal(init, front, nmap), init, x, c, negative);
      }
    }
  }

  /** Extending the instances by one extends one stratum by its fold. */
  lemma StratumSnoc(dealt: seq<int>, classes: seq<int>, x: int, c: int, negative: bool)
    requires |dealt| == |classes|
    ensures Stratum(dealt + [x], classes + [c], negative) ==
            Stratum(dealt, classes, negative) + (if (c == 0) == negative then [x] else [])
  {
    assert (dealt + [x])[..|dealt|] == dealt;
    assert (classes + [c])[..|classes|] == classes;
  }

  /** The dealing loop: instances in order, each taking and removing the
      front of its group's list. */
  method DealFolds(classes: seq<int>, pmap: seq<int>, nmap: seq<int>) returns (dealt: seq<int>)
    requires |nmap| == NegativeCount(classes) && |pmap| + |nmap| == |classes|
    ensures dealt == Deal(classes, pmap, nmap)
  {
    var p, n := pmap, nmap;
    ghost var tp, tn := 0, 0;
    dealt := [];
    for i := 0 to |classes|
      invariant tn == NegativeCount(classes[..i]) && tp + tn == i
      invariant tp <= |pmap| && tn <= |nmap|
      invariant p == pmap[tp..] && n == nmap[tn..]
      invariant dealt == Deal(classes[..i], pmap[..tp], nmap[..tn])
    {
      if classes[i] == 0 {
        DealAdvanceNegative(classes, pmap, nmap, i, tp, tn);
        dealt := dealt + [n[0]];
        n := n[1..];
        tn := tn + 1;
      } else {
        DealAdvancePositive(classes, pmap, nmap, i, tp, tn);
        dealt := dealt + [p[0]];
        p := p[1..];
        tp := tp + 1;
      }
    }
    assert classes[..|classes|] == classes;
    assert pmap[..|pmap|] == pmap && nmap[..|nmap|] == nmap;
  }

  /** One step of the dealing loop for a negative instance i: it takes the
      next unused entry of nmap, and nmap still has one. */
  lemma DealAdvanceNegative(classes: seq<int>, pmap: seq<int>, nmap: seq<int>, i: nat, tp: nat, tn: nat)
    requires |nmap| == NegativeCount(classes) && |pmap| + |nmap| == |classes|
    requires i < |classes| && tn == NegativeCount(classes[..i]) && tp + tn == i
    requires tp <= |pmap| && tn <= |nmap| && classes[i] == 0
    ensures tn < |nmap| && tn + 1 == NegativeCount(classes[..i + 1])
    ensures Deal(classes[..i + 1], pmap[..tp], nmap[..tn + 1]) == Deal(classes[..i], pmap[..tp], nmap[..tn]) + [nmap[tn]]
  {
    NegativeCountPrefix(classes, i);
    PrefixCountBounds(classes, i + 1, |classes|);
    assert classes[..|classes|] == classes;
    var c, nm := classes[..i + 1], nmap[..tn + 1];
    assert c[..i] == classes[..i];
    assert nm[..tn] == nmap[..tn];
    DealNegativeStep(c, pmap[..tp], nm);
  }

  /** One step of the dealing loop for a positive instance i: it takes the
      next unused entry of pmap, and pmap still has one. */
  lemma DealAdvancePositive(classes: seq<int>, pmap: seq<int>, nmap: seq<int>, i: nat, tp: nat, tn: nat)
    requires |nmap| == NegativeCount(classes) && |pmap| + |nmap| == |classes|
    requires i < |classes| && tn == NegativeCount(classes[..i]) && tp + tn == i
    requires tp <= |pmap| && tn <= |nmap| && classes[i] != 0
    ensures tp < |pmap| && tn == NegativeCount(classes[..i + 1])
    ensures Deal(classes[..i + 1], pmap[..tp + 1], nmap[..tn]) == Deal(classes[..i], pmap[..tp], nmap[..tn]) + [pmap[tp]]
  {
    NegativeCountPrefix(classes, i);
    PrefixCountBounds(classes, i + 1, |classes|);
    assert classes[..|classes|] == classes;
    var c, pm := classes[..i + 1], pmap[..tp + 1];
    assert c[..i] == classes[..i];
    assert pm[..tp] == pmap[..tp];
    DealPositiveStep(c, pm, nmap[..tn]);
  }

  lemma DealNegativeStep(classes: seq<int>, pmap: seq<int>, nmap: seq<int>)
    requires |classes| > 0 && classes[|classes| - 1] == 0
    requires |nmap| == NegativeCount(classes) && |pmap| + |nmap| == |classes|
    ensures |nmap| > 0
    ensures Deal(classes, pmap, nmap) == Deal(classes[..|classes| - 1], pmap, nmap[..|nmap| - 1]) + [nmap[|nmap| - 1]]
  {
  }

  lemma DealPositiveStep(classes: seq<int>, pmap: seq<int>, nmap: seq<int>)
    requires |classes| > 0 && classes[|classes| - 1] != 0
    requires |nmap| == NegativeCount(classes) && |pmap| + |nmap| == |classes|
    ensures |pmap| > 0
    ensures Deal(classes, pmap, nmap) == Deal(classes[..|classes| - 1], pmap[..|pmap| - 1], nmap) + [pmap[|pmap| - 1]]
  {
    var n := |classes| - 1;
    assert Count(classes, 0) == Count(classes[..n], 0);
    assert NegativeCount(classes[..n]) <= n;
  }

  /** Dealing to one more instance appends the fold it takes. */
  lemma DealSnoc(init: seq<int>, c: int, pmap: seq<int>, nmap: seq<int>, x: int)
    requires |nmap| == NegativeCount(init) && |pmap| + |nmap| == |init|
    ensures c == 0 ==> Deal(init + [c], pmap, nmap + [x]) == Deal(init, pmap, nmap) + [x]
    ensures c != 0 ==> Deal(init + [c], pmap + [x], nmap) == Deal(init, pmap, nmap) + [x]
  {
    var classes := init + [c];
    assert classes[..|init|] == init;
    assert (nmap + [x])[..|nmap|] == nmap;
    assert (pmap + [x])[..|pmap|] == pmap;
  }

  /** Between prefixes i and j, the negative count grows by at most j - i. */
  lemma {:induction false} PrefixCountBounds(classes: seq<int>, i: nat, j: nat)
    requires i <= j <= |classes|
    ensures NegativeCount(classes[..i]) <= NegativeCount(classes[..j]) <= NegativeCount(classes[..i]) + j - i
    decreases j - i
  {
    if i < j {
      PrefixCountBounds(classes, i, j - 1);
      NegativeCountPrefix(classes, j - 1);
    }
  }

  lemma NegativeCountPrefix(classes: seq<int>, i: nat)
    requires i < |classes|
    ensures NegativeCount(classes[..i + 1]) == NegativeCount(classes[..i]) + (if classes[i] == 0 then 1 else 0)
  {
    assert classes[..i + 1][..i] == classes[..i];
  }

  // ---------------------------------------------------------------------
  // The whole assignment
  // ---------------------------------------------------------------------

  /** The fold of each instance, given the shuffles' random choices. */
  function FoldAssignment(classes: seq<int>, folds: nat, ppicks: seq<nat>, npicks: seq<nat>): (dealt: seq<int>)
    requires folds > 0
    requires ValidPicks(ppicks, |classes| - NegativeCount(classes)) && ValidPicks(npicks, NegativeCount(classes))
    ensures |dealt| == |classes|
  {
    var negatives := NegativeCount(classes);
    QuotaListLength(|classes| - negatives, folds);
    QuotaListLength(negatives, folds);
    Deal(classes, Shuffled(QuotaList(|classes| - negatives, folds), ppicks), Shuffled(QuotaList(negatives, folds), npicks))
  }

  /** Folds are stratified: whatever the shuffles do, fold f receives
      Quota(negatives, folds, f) negative and Quota(positives, folds, f)
      positive instances. */
  lemma StratifiedFolds(classes: seq<int>, folds: nat, ppicks: seq<nat>, npicks: seq<nat>, f: int)
    requires 0 <= f < folds
    requires ValidPicks(ppicks, |classes| - NegativeCount(classes)) && ValidPicks(npicks, NegativeCount(classes))
    ensures var dealt := FoldAssignment(classes, folds, ppicks, npicks);
            Count(Stratum(dealt, classes, true), f) == Quota(NegativeCount(classes), folds, f) &&
            Count(Stratum(dealt, classes, false), f) == Quota(|classes| - NegativeCount(classes), folds, f)
  {
    StratumQuota(classes, folds, ppicks, npicks, f, true);
    StratumQuota(classes, folds, ppicks, npicks, f, false);
  }

  lemma StratumQuota(classes: seq<int>, folds: nat, ppicks: seq<nat>, npicks: seq<nat>, f: int, negative: bool)
    requires 0 <= f < folds
    requires ValidPicks(ppicks, |classes| - NegativeCount(classes)) && ValidPicks(npicks, NegativeCount(classes))
    ensures Count(Stratum(FoldAssignment(classes, folds, ppicks, npicks), classes, negative), f) ==
            Quota(if negative then NegativeCount(classes) else |classes| - NegativeCount(classes), folds, f)
  {
    var negatives := NegativeCount(classes);
    QuotaListLength(|classes| - negatives, folds);
    QuotaListLength(negatives, folds);
    var sp := Shuffled(QuotaList(|classes| - negatives, folds), ppicks);
    var sn := Shuffled(QuotaList(negatives, folds), npicks);
    DealStrata(classes, sp, sn, negative);
    var count := if negative then negatives else |classes| - negatives;
    var q, picks := QuotaList(count, folds), if negative then npicks else ppicks;
    assert Shuffled(q, picks) == if negative then sn else sp;
    ShufflePermutes(q, picks, |q|);
    CountIsMultiplicity(q, f);
    CountIsMultiplicity(Shuffled(q, picks), f);
    QuotaListCounts(count, folds, f);
  }

  /** Every instance's fold lies in 0 .. folds-1. */
  lemma FoldsInRange(classes: seq<int>, folds: nat, ppicks: seq<nat>, npicks: seq<nat>, k: nat)
    requires folds > 0
    requires ValidPicks(ppicks, |classes| - NegativeCount(classes)) && ValidPicks(npicks, NegativeCount(classes))
    requires k < |classes|
    ensures 0 <= FoldAssignment(classes, folds, ppicks, npicks)[k] < folds
  {
    var negatives := NegativeCount(classes);
    QuotaListLength(|classes| - negatives, folds);
    QuotaListLength(negatives, folds);
    var sp := Shuffled(QuotaList(|classes| - negatives, folds), ppicks);
    var sn := Shuffled(QuotaList(negatives, folds), npicks);
    ShuffledQuotaInRange(|classes| - negatives, folds, ppicks);
    ShuffledQuotaInRange(negatives, folds, npicks);
    DealFromLists(classes, sp, sn, k);
    var v := Deal(classes, sp, sn)[k];
    if v in multiset(sp) {
      assert v in sp;
    } else {
      assert v in sn;
    }
  }

  /** Each dealt fold comes from one of the two lists. */
  lemma {:induction false} DealFromLists(classes: seq<int>, pmap: seq<int>, nmap: seq<int>, k: nat)
    requires |nmap| == NegativeCount(classes) && |pmap| + |nmap| == |classes| && k < |classes|
    ensures Deal(classes, pmap, nmap)[k] in multiset(pmap) + multiset(nmap)
  {
    var n := |classes| - 1;
    if classes[n] == 0 {
      DealNegativeStep(classes, pmap, nmap);
      var front := nmap[..|nmap| - 1];
      if k < n {
        DealFromLists(classes[..n], pmap, front, k);
        assert multiset(nmap) == multiset(front) + multiset{nmap[|nmap| - 1]} by {
          assert nmap == front + [nmap[|nmap| - 1]];
        }
      }
    } else {
      DealPositiveStep(classes, pmap, nmap);
      var front := pmap[..|pmap| - 1];
      if k < n {
        DealFromLists(classes[..n], front, nmap, k);
        assert multiset(pmap) == multiset(front) + multiset{pmap[|pmap| - 1]} by {
          assert pmap == front + [pmap[|pmap| - 1]];
        }
      }
    }
  }
}
