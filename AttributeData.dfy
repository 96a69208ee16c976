/** The trained rule of one predictor attribute: a mutable object that the
    trainers fill in and the predictor reads. */
module Attributes {
  import opened Tuples

  /** The value an AttributeData object holds at one moment: what the
      predictor consults. */
  datatype AttributeModel = AttributeModel(
    discard: bool,
    numeric: bool,
    listSplitClassWt: seq<DoubleTuple>,
    attValClass: seq<int>,
    weight: seq<real>,
    noOfNomValues: int)

  class AttributeData {
    var discard: bool
    var numeric: bool
    /** Numeric rule: ascending (bound, class, weight) triples. */
    var listSplitClassWt: seq<DoubleTuple>
    /** Nominal rule: the class predicted for each domain value. */
    var attValClass: array<int>
    /** Nominal rule: the weight of that prediction. */
    var weight: array<real>
    var noOfNomValues: int

    /** The nominal arrays cover exactly noOfNomValues domain values. */
    ghost predicate Valid()
      reads this
    {
      attValClass.Length == noOfNomValues && weight.Length == noOfNomValues
    }

    function Model(): (m: AttributeModel)
      reads this, attValClass, weight
      ensures m.attValClass == attValClass[..] && m.weight == weight[..]
    {
      AttributeModel(discard, numeric, listSplitClassWt, attValClass[..], weight[..], noOfNomValues)
    }

    /** A fresh object: no numeric rule yet, not discarded, not numeric, and
        no nominal values. */
    constructor ()
      ensures Valid() && fresh(attValClass) && fresh(weight)
      ensures !discard && !numeric && listSplitClassWt == [] && noOfNomValues == 0
    {
      discard := false;
      numeric := false;
      listSplitClassWt := [];
      attValClass := new int[0];
      weight := new real[0];
      noOfNomValues := 0;
    }

    /** Sizes the nominal rule for n domain values: fresh zero-filled
        arrays; the other fields keep their values. */
    method SetNominalAttributeValueClassArray(n: nat)
      modifies this
      ensures Valid() && noOfNomValues == n
      ensures fresh(attValClass) && attValClass[..] == seq(n, _ => 0)
      ensures fresh(weight) && weight[..] == seq(n, _ => 0.0)
      ensures discard == old(discard) && numeric == old(numeric)
      ensures listSplitClassWt == old(listSplitClassWt)
    {
      noOfNomValues := n;
      attValClass := new int[n](_ => 0);
      weight := new real[n](_ => 0.0);
    }
  }
}
