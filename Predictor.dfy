/** Prediction by weighted majority: every attribute that is not discarded
    looks up the test instance's value in its trained rule and, unless the
    rule's class there is negative, casts a vote of the rule's weight for
    that class; the class with the largest total wins. */
module Predictor {
  import opened Basics
  import opened Tuples
  import opened Attributes
  import opened Dataset

  /** A class and the weight an attribute adds to it. */
  datatype Vote = Vote(cls: int, weight: real)

  // ---------------------------------------------------------------------
  // Numeric rule lookup
  // ---------------------------------------------------------------------

  /** The vote of a numeric rule for value x, scanning its entries from j on:
      the first entry whose bound exceeds x and whose class is not negative
      votes; an entry whose bound exceeds x but whose class is negative is
      passed over and the scan goes on. When no entry votes, the last entry
      of the rule is used, unless its class is negative. */
  function NumericVoteFrom(rule: seq<DoubleTuple>, x: real, j: nat): Option<Vote>
    requires 0 < |rule| && j <= |rule|
    decreases |rule| - j
  {
    if j == |rule| then
      var last := rule[|rule| - 1];
      if last.classVal < 0 then None else Some(Vote(last.classVal, last.weight))
    else if rule[j].splitVal > x && rule[j].classVal >= 0 then
      Some(Vote(rule[j].classVal, rule[j].weight))
    else
      NumericVoteFrom(rule, x, j + 1)
  }

  function NumericVote(rule: seq<DoubleTuple>, x: real): Option<Vote>
    requires 0 < |rule|
  {
    NumericVoteFrom(rule, x, 0)
  }

  /** Bounds strictly ascending: the form the numeric trainer produces. */
  predicate AscendingBounds(rule: seq<DoubleTuple>)
  {
    forall k, l :: 0 <= k < l < |rule| ==> rule[k].splitVal < rule[l].splitVal
  }

  predicate NonNegativeClasses(rule: seq<DoubleTuple>)
  {
    forall k :: 0 <= k < |rule| ==> rule[k].classVal >= 0
  }

  /** The scan passes over entries whose bound does not exceed x. */
  lemma {:induction false} SkipBelow(rule: seq<DoubleTuple>, x: real, j: nat, k: nat)
    requires 0 < |rule| && j <= k <= |rule|
    requires forall m :: j <= m < k ==> rule[m].splitVal <= x
    ensures NumericVoteFrom(rule, x, j) == NumericVoteFrom(rule, x, k)
    decreases k - j
  {
    if j < k {
      SkipBelow(rule, x, j + 1, k);
    }
  }

  /** With ascending bounds and no negative classes a numeric rule is a step
      function: x falls in the interval [bound k-1, bound k) and entry k
      votes. */
  lemma StepLookup(rule: seq<DoubleTuple>, x: real, k: nat)
    requires AscendingBounds(rule) && NonNegativeClasses(rule)
    requires k < |rule| && x < rule[k].splitVal && (k == 0 || rule[k - 1].splitVal <= x)
    ensures NumericVote(rule, x) == Some(Vote(rule[k].classVal, rule[k].weight))
  {
    forall m | 0 <= m < k ensures rule[m].splitVal <= x {
      if m < k - 1 {
        assert rule[m].splitVal < rule[k - 1].splitVal;
      }
    }
    SkipBelow(rule, x, 0, k);
  }

  /** A value at or beyond the last bound is voted by the last entry. */
  lemma BeyondLastBound(rule: seq<DoubleTuple>, x: real)
    requires AscendingBounds(rule) && NonNegativeClasses(rule)
    requires 0 < |rule| && rule[|rule| - 1].splitVal <= x
    ensures NumericVote(rule, x) == Some(Vote(rule[|rule| - 1].classVal, rule[|rule| - 1].weight))
  {
    var n := |rule|;
    forall m | 0 <= m < n ensures rule[m].splitVal <= x {
      if m < n - 1 {
        assert rule[m].splitVal < rule[n - 1].splitVal;
      }
    }
    SkipBelow(rule, x, 0, n);
  }

  /** An entry with a negative class does not vote: the value is handed on
      to the entries after it. */
  lemma NegativeEntryDefers(rule: seq<DoubleTuple>, x: real, k: nat)
    requires k < |rule| && rule[k].classVal < 0
    requires forall m :: 0 <= m < k ==> rule[m].splitVal <= x
    ensures NumericVote(rule, x) == NumericVoteFrom(rule, x, k + 1)
  {
    SkipBelow(rule, x, 0, k);
  }

  /** Whatever numeric rule votes, it votes for a non-negative class held by
      one of its entries with that entry's weight. */
  lemma {:induction false} NumericVoteFromEntry(rule: seq<DoubleTuple>, x: real, j: nat) returns (k: nat)
    requires 0 < |rule| && j <= |rule| && NumericVoteFrom(rule, x, j).Some?
    ensures k < |rule| && rule[k].classVal >= 0
    ensures NumericVoteFrom(rule, x, j) == Some(Vote(rule[k].classVal, rule[k].weight))
    decreases |rule| - j
  {
    if j == |rule| {
      k := |rule| - 1;
    } else if rule[j].splitVal > x && rule[j].classVal >= 0 {
      k := j;
    } else {
      k := NumericVoteFromEntry(rule, x, j + 1);
    }
  }

  /** The scan of getClass over a numeric rule, with its early exit and its
      fall-back to the last entry. */
  method ScanNumericRule(rule: seq<DoubleTuple>, x: real) returns (vote: Option<Vote>)
    requires 0 < |rule|
    ensures vote == NumericVote(rule, x)
  {
    var j := 0;
    var rangeFound := false;
    vote := None;
    while j < |rule|
      invariant 0 <= j <= |rule|
      invariant !rangeFound && NumericVoteFrom(rule, x, j) == NumericVote(rule, x)
    {
      if rule[j].splitVal > x {
        var index := rule[j].classVal;
        if index >= 0 {
          vote := Some(Vote(index, rule[j].weight));
          rangeFound := true;
          break;
        }
      }
      j := j + 1;
    }
    if !rangeFound {
      var index := rule[j - 1].classVal;
      if index >= 0 {
        vote := Some(Vote(index, rule[j - 1].weight));
      }
    }
  }

  // ---------------------------------------------------------------------
  // Nominal rule lookup
  // ---------------------------------------------------------------------

  /** The vote of a nominal rule over its first n domain values for label v,
      scanning from j on: the first value equal to v whose class is not
      negative votes; a match with a negative class is passed over. */
  function NominalVoteFrom(domain: seq<string>, attValClass: seq<int>, weight: seq<real>, n: nat, v: string, j: nat): Option<Vote>
    requires j <= n <= |domain| && n <= |attValClass| && n <= |weight|
    decreases n - j
  {
    if j == n then None
    else if domain[j] == v && attValClass[j] >= 0 then Some(Vote(attValClass[j], weight[j]))
    else NominalVoteFrom(domain, attValClass, weight, n, v, j + 1)
  }

  function NominalVote(domain: seq<string>, attValClass: seq<int>, weight: seq<real>, n: nat, v: string): Option<Vote>
    requires n <= |domain| && n <= |attValClass| && n <= |weight|
  {
    NominalVoteFrom(domain, attValClass, weight, n, v, 0)
  }

  predicate Distinct(domain: seq<string>)
  {
    forall k, l :: 0 <= k < l < |domain| ==> domain[k] != domain[l]
  }

  /** Only a domain value equal to v can vote. */
  lemma {:induction false} NominalVoteFromMatch(domain: seq<string>, attValClass: seq<int>, weight: seq<real>, n: nat, v: string, j: nat, k: nat)
    requires j <= k <= n <= |domain| && n <= |attValClass| && n <= |weight|
    requires forall m :: j <= m < k ==> domain[m] != v
    ensures NominalVoteFrom(domain, attValClass, weight, n, v, j) == NominalVoteFrom(domain, attValClass, weight, n, v, k)
    decreases k - j
  {
    if j < k {
      NominalVoteFromMatch(domain, attValClass, weight, n, v, j + 1, k);
    }
  }

  /** In a domain of distinct labels, label domain[k] is voted by entry k,
      which abstains when its class is negative. */
  lemma NominalLookup(domain: seq<string>, attValClass: seq<int>, weight: seq<real>, n: nat, k: nat)
    requires n <= |domain| && n <= |attValClass| && n <= |weight| && Distinct(domain)
    requires k < n
    ensures NominalVote(domain, attValClass, weight, n, domain[k]) ==
            if attValClass[k] < 0 then None else Some(Vote(attValClass[k], weight[k]))
  {
    NominalVoteFromMatch(domain, attValClass, weight, n, domain[k], 0, k);
    NominalVoteFromMatch(domain, attValClass, weight, n, domain[k], k + 1, n);
  }

  /** A label outside the first n domain values casts no vote. */
  lemma NominalUnseen(domain: seq<string>, attValClass: seq<int>, weight: seq<real>, n: nat, v: string)
    requires n <= |domain| && n <= |attValClass| && n <= |weight|
    requires forall m :: 0 <= m < n ==> domain[m] != v
    ensures NominalVote(domain, attValClass, weight, n, v) == None
  {
    NominalVoteFromMatch(domain, attValClass, weight, n, v, 0, n);
  }

  /** The scan of getClass over a nominal rule. */
  method ScanNominalRule(domain: seq<string>, attValClass: array<int>, weight: array<real>, n: nat, v: string)
    returns (vote: Option<Vote>)
    requires n <= |domain| && n <= attValClass.Length && n <= weight.Length
    ensures vote == NominalVote(domain, attValClass[..], weight[..], n, v)
  {
    vote := None;
    var j := 0;
    while j < n
      invariant j <= n
      invariant NominalVoteFrom(domain, attValClass[..], weight[..], n, v, j) == NominalVote(domain, attValClass[..], weight[..], n, v)
    {
      if domain[j] == v {
        var index := attValClass[j];
        if index >= 0 {
          vote := Some(Vote(index, weight[j]));
          break;
        }
      }
      j := j + 1;
    }
  }

  // ---------------------------------------------------------------------
  // One attribute's vote, and the tally over all attributes
  // ---------------------------------------------------------------------

  /** What getClass needs to consult an attribute's trained model for value
      v without failing: a non-empty numeric rule and a numeric value, or
      nominal arrays covering the domain values it scans and a label; and
      every class the model can vote for lies below numClasses. */
  predicate Consultable(m: AttributeModel, domain: seq<string>, v: Value, numClasses: nat)
  {
    m.discard ||
    (if m.numeric then
       0 < |m.listSplitClassWt| && v.Num? &&
       forall k :: 0 <= k < |m.listSplitClassWt| ==> m.listSplitClassWt[k].classVal < numClasses
     else
       v.Nom? && 0 <= m.noOfNomValues <= |domain| &&
       |m.attValClass| == m.noOfNomValues && |m.weight| == m.noOfNomValues &&
       forall k :: 0 <= k < |m.attValClass| ==> m.attValClass[k] < numClasses)
  }

  lemma {:induction false} NumericVoteBounded(rule: seq<DoubleTuple>, x: real, j: nat, numClasses: nat)
    requires 0 < |rule| && j <= |rule|
    requires forall k :: 0 <= k < |rule| ==> rule[k].classVal < numClasses
    ensures NumericVoteFrom(rule, x, j).Some? ==> 0 <= NumericVoteFrom(rule, x, j).value.cls < numClasses
    decreases |rule| - j
  {
    if j < |rule| {
      NumericVoteBounded(rule, x, j + 1, numClasses);
    }
  }

  lemma {:induction false} NominalVoteBounded(domain: seq<string>, attValClass: seq<int>, weight: seq<real>, n: nat, v: string, j: nat, numClasses: nat)
    requires j <= n <= |domain| && n <= |attValClass| && n <= |weight|
    requires forall k :: 0 <= k < n ==> attValClass[k] < numClasses
    ensures NominalVoteFrom(domain, attValClass, weight, n, v, j).Some? ==>
            0 <= NominalVoteFrom(domain, attValClass, weight, n, v, j).value.cls < numClasses
    decreases n - j
  {
    if j < n {
      NominalVoteBounded(domain, attValClass, weight, n, v, j + 1, numClasses);
    }
  }

  /** The vote an attribute casts for value v; a discarded attribute casts
      none. */
  function AttributeVote(m: AttributeModel, domain: seq<string>, v: Value, numClasses: nat): (vote: Option<Vote>)
    requires Consultable(m, domain, v, numClasses)
    ensures vote.Some? ==> 0 <= vote.value.cls < numClasses
  {
    if m.discard then None
    else if m.numeric then
      NumericVoteBounded(m.listSplitClassWt, v.x, 0, numClasses);
      NumericVote(m.listSplitClassWt, v.x)
    else
      NominalVoteBounded(domain, m.attValClass, m.weight, m.noOfNomValues, v.text, 0, numClasses);
      NominalVote(domain, m.attValClass, m.weight, m.noOfNomValues, v.text)
  }

  /** Adds a vote to the class weights. */
  function AddVote(classWt: seq<real>, vote: Option<Vote>): seq<real>
    requires vote.Some? ==> 0 <= vote.value.cls < |classWt|
  {
    match vote
    case None => classWt
    case Some(Vote(c, w)) => classWt[c := classWt[c] + w]
  }

  /** Every attribute can be consulted for its value of the instance. */
  predicate AllConsultable(models: seq<AttributeModel>, domains: seq<seq<string>>, values: seq<Value>, numClasses: nat)
  {
    |models| == |domains| == |values| &&
    forall i :: 0 <= i < |models| ==> Consultable(models[i], domains[i], values[i], numClasses)
  }

  /** The class weights after the votes of the first n attributes. */
  function Tally(models: seq<AttributeModel>, domains: seq<seq<string>>, values: seq<Value>, numClasses: nat, n: nat): (classWt: seq<real>)
    requires AllConsultable(models, domains, values, numClasses) && n <= |models|
    ensures |classWt| == numClasses
  {
    if n == 0 then seq(numClasses, _ => 0.0)
    else
      AddVote(Tally(models, domains, values, numClasses, n - 1),
              AttributeVote(models[n - 1], domains[n - 1], values[n - 1], numClasses))
  }

  // ---------------------------------------------------------------------
  // The decision
  // ---------------------------------------------------------------------

  /** p is the class getClass picks from the class weights: the lowest class
      of largest weight when some weight is positive, and class 0 when none
      is (the scan starts from weight 0 and class 0 and moves only on a
      strictly larger weight). */
  predicate IsDecision(classWt: seq<real>, p: int)
  {
    0 <= p < |classWt| &&
    if forall i :: 0 <= i < |classWt| ==> classWt[i] <= 0.0 then p == 0
    else
      (forall i :: 0 <= i < |classWt| ==> classWt[i] <= classWt[p]) &&
      (forall i :: 0 <= i < p ==> classWt[i] < classWt[p])
  }

  lemma DecisionUnique(classWt: seq<real>, p: int, q: int)
    requires IsDecision(classWt, p) && IsDecision(classWt, q)
    ensures p == q
  {
    if !(forall i :: 0 <= i < |classWt| ==> classWt[i] <= 0.0) {
      assert classWt[p] <= classWt[q] <= classWt[p];
    }
  }

  /** The decision over non-empty class weights, as a value. */
  function Decision(classWt: seq<real>): (p: nat)
    requires |classWt| > 0
    ensures IsDecision(classWt, p)
  {
    if |classWt| == 1 then 0
    else
      var front := classWt[..|classWt| - 1];
      var q := Decision(front);
      var last := classWt[|classWt| - 1];
      assert forall i :: 0 <= i < |front| ==> front[i] == classWt[i];
      if last > 0.0 && last > classWt[q] then |classWt| - 1 else q
  }

  /** The argmax loop at the end of getClass. */
  method ArgMax(classWt: array<real>) returns (predClass: nat)
    requires classWt.Length > 0
    ensures predClass == Decision(classWt[..])
  {
    predClass := 0;
    var maxWt := 0.0;
    for i := 0 to classWt.Length
      invariant predClass < classWt.Length
      invariant i == 0 ==> predClass == 0
      invariant i > 0 ==> IsDecision(classWt[..i], predClass)
      invariant maxWt == if i > 0 && classWt[predClass] > 0.0 then classWt[predClass] else 0.0
    {
      assert forall k :: 0 <= k < i ==> classWt[..i + 1][k] == classWt[..i][k];
      if classWt[i] > maxWt {
        predClass := i;
        maxWt := classWt[i];
      }
    }
    assert classWt[..classWt.Length] == classWt[..];
    DecisionUnique(classWt[..], predClass, Decision(classWt[..]));
  }

  /** The class getClass predicts for the instance whose attribute values
      are `values`. */
  function Predict(models: seq<AttributeModel>, domains: seq<seq<string>>, values: seq<Value>, numClasses: nat): (p: nat)
    requires AllConsultable(models, domains, values, numClasses) && numClasses > 0
    ensures p < numClasses
  {
    Decision(Tally(models, domains, values, numClasses, |models|))
  }

  // ---------------------------------------------------------------------
  // Properties of the majority
  // ---------------------------------------------------------------------

  /** Every vote the first n attributes cast is for class c. */
  predicate OnlyVotesFor(models: seq<AttributeModel>, domains: seq<seq<string>>, values: seq<Value>, numClasses: nat, c: int, n: nat)
    requires AllConsultable(models, domains, values, numClasses) && n <= |models|
  {
    forall i :: 0 <= i < n ==>
      var vote := AttributeVote(models[i], domains[i], values[i], numClasses);
      vote.Some? ==> vote.value.cls == c && vote.value.weight > 0.0
  }

  /** When all votes go to class c with positive weights, every other class
      keeps weight 0, and class c's weight is positive once some vote was
      cast. */
  lemma {:induction false} TallyOfOneClass(models: seq<AttributeModel>, domains: seq<seq<string>>, values: seq<Value>, numClasses: nat, c: nat, n: nat)
    requires AllConsultable(models, domains, values, numClasses) && n <= |models| && c < numClasses
    requires OnlyVotesFor(models, domains, values, numClasses, c, n)
    ensures forall d :: 0 <= d < numClasses && d != c ==> Tally(models, domains, values, numClasses, n)[d] == 0.0
    ensures Tally(models, domains, values, numClasses, n)[c] >= 0.0
    ensures (exists i :: 0 <= i < n && AttributeVote(models[i], domains[i], values[i], numClasses).Some?) ==>
            Tally(models, domains, values, numClasses, n)[c] > 0.0
  {
    if n > 0 {
      assert OnlyVotesFor(models, domains, values, numClasses, c, n - 1);
      TallyOfOneClass(models, domains, values, numClasses, c, n - 1);
    }
  }

  /** Unanimity: if every attribute that votes votes for class c, and at
      least one votes, the prediction is c. */
  lemma Unanimity(models: seq<AttributeModel>, domains: seq<seq<string>>, values: seq<Value>, numClasses: nat, c: nat, i: nat)
    requires AllConsultable(models, domains, values, numClasses) && c < numClasses
    requires OnlyVotesFor(models, domains, values, numClasses, c, |models|)
    requires i < |models| && AttributeVote(models[i], domains[i], values[i], numClasses).Some?
    ensures Predict(models, domains, values, numClasses) == c
  {
    TallyOfOneClass(models, domains, values, numClasses, c, |models|);
    var w := Tally(models, domains, values, numClasses, |models|);
    var p := Predict(models, domains, values, numClasses);
    assert w[c] > 0.0;
  }

  /** Without any vote the prediction is class 0. */
  lemma NoVotesPredictsZero(models: seq<AttributeModel>, domains: seq<seq<string>>, values: seq<Value>, numClasses: nat)
    requires AllConsultable(models, domains, values, numClasses) && numClasses > 0
    requires forall i :: 0 <= i < |models| ==> AttributeVote(models[i], domains[i], values[i], numClasses).None?
    ensures Predict(models, domains, values, numClasses) == 0
  {
    NoVotesTally(models, domains, values, numClasses, |models|);
  }

  lemma {:induction false} NoVotesTally(models: seq<AttributeModel>, domains: seq<seq<string>>, values: seq<Value>, numClasses: nat, n: nat)
    requires AllConsultable(models, domains, values, numClasses) && n <= |models|
    requires forall i :: 0 <= i < n ==> AttributeVote(models[i], domains[i], values[i], numClasses).None?
    ensures Tally(models, domains, values, numClasses, n) == seq(numClasses, _ => 0.0)
  {
    if n > 0 {
      NoVotesTally(models, domains, values, numClasses, n - 1);
    }
  }
}
