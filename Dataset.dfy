/** The data the classifier reads: instances of attribute values with a
    class index. The last attribute of a data set is its class; the
    others are nominal (a label from the attribute's domain) or numeric. */
module Dataset {

  datatype Value = Nom(text: string) | Num(x: real)

  /** One instance: the values of the non-class attributes, and the index
      of its class in the class attribute's domain. */
  datatype Instance = Instance(values: seq<Value>, classValue: int)

  /** The header shared by the training and the test set: per non-class
      attribute whether it is nominal and, if so, its domain; and the
      number of classes. */
  datatype Schema = Schema(nominal: seq<bool>, domains: seq<seq<string>>, numClasses: nat)
  {
    predicate Valid()
    {
      |nominal| == |domains| && numClasses > 0
    }

    function NumAttributes(): nat
    {
      |nominal|
    }
  }

  /** Every instance has a value of the right kind for every attribute and
      a class inside the class domain. */
  predicate Conforms(schema: Schema, data: seq<Instance>)
    requires schema.Valid()
  {
    forall k :: 0 <= k < |data| ==> InstanceConforms(schema, data[k])
  }

  predicate InstanceConforms(schema: Schema, inst: Instance)
    requires schema.Valid()
  {
    |inst.values| == schema.NumAttributes() &&
    0 <= inst.classValue < schema.numClasses &&
    forall i :: 0 <= i < |inst.values| ==> (inst.values[i].Nom? <==> schema.nominal[i])
  }

  /** The classes of the instances, in order. */
  function ClassColumn(data: seq<Instance>): (classes: seq<int>)
    ensures |classes| == |data|
  {
    seq(|data|, k requires 0 <= k < |data| => data[k].classValue)
  }

  /** The labels of nominal attribute i, in instance order. */
  function NominalColumn(data: seq<Instance>, i: nat): (column: seq<string>)
    requires forall k :: 0 <= k < |data| ==> i < |data[k].values| && data[k].values[i].Nom?
    ensures |column| == |data|
  {
    seq(|data|, k requires 0 <= k < |data| => data[k].values[i].text)
  }

  /** The instances reordered by `order`, a permutation of their indices. */
  function Reorder(data: seq<Instance>, order: seq<nat>): (r: seq<Instance>)
    requires forall k :: 0 <= k < |order| ==> order[k] < |data|
    ensures |r| == |order|
  {
    seq(|order|, k requires 0 <= k < |order| => data[order[k]])
  }

  /** The values of numeric attribute i, in instance order. */
  function NumericColumn(data: seq<Instance>, i: nat): (column: seq<real>)
    requires forall k :: 0 <= k < |data| ==> i < |data[k].values| && data[k].values[i].Num?
    ensures |column| == |data|
  {
    seq(|data|, k requires 0 <= k < |data| => data[k].values[i].x)
  }

  /** `order` lists every instance index exactly once. */
  predicate IsPermutation(order: seq<nat>, n: nat)
  {
    |order| == n &&
    (forall k :: 0 <= k < n ==> order[k] < n) &&
    (forall k, l :: 0 <= k < l < n ==> order[k] != order[l])
  }
}
