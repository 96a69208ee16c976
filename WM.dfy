/** The weighted majority classifier: one trained rule per predictor
    attribute, training over a data set whose last attribute is the class,
    prediction by the weighted vote of the rules, evaluation on a test set,
    and the assignment of the training instances to stratified folds. */
module Classifier {
  import opened Basics
  import opened Tuples
  import opened Attributes
  import opened Dataset
  import opened NominalTrainer
  import opened NumericTrainer
  import opened NumericProperties
  import opened Predictor
  import opened Evaluator
  import opened Folds

  // ---------------------------------------------------------------------
  // Training, as values
  // ---------------------------------------------------------------------

  /** A sort order for every numeric attribute: a permutation of the
      training instances. Nominal attributes are never sorted on. */
  predicate SortsFit(schema: Schema, sorts: seq<seq<nat>>, n: nat)
  {
    |sorts| == |schema.nominal| &&
    forall k :: 0 <= k < |sorts| && !schema.nominal[k] ==> IsPermutation(sorts[k], n)
  }

  /** The training set once the attributes before i have been trained:
      training a numeric attribute sorts the training set in place on that
      attribute, so every later attribute sees the sorted order. */
  function Stage(schema: Schema, data: seq<Instance>, sorts: seq<seq<nat>>, i: nat): (staged: seq<Instance>)
    requires schema.Valid() && Conforms(schema, data) && SortsFit(schema, sorts, |data|) && i <= |sorts|
    ensures |staged| == |data| && Conforms(schema, staged)
    decreases i
  {
    if i == 0 then data
    else
      var before := Stage(schema, data, sorts, i - 1);
      if schema.nominal[i - 1] then before else Reorder(before, sorts[i - 1])
  }

  /** The training set can be trained on: it fits the schema; every sort
      order does sort its attribute's column at the point where that
      attribute is trained; and it is not empty if some attribute is
      numeric (the numeric trainer starts from the first instance). */
  predicate Trainable(schema: Schema, data: seq<Instance>, sorts: seq<seq<nat>>)
  {
    schema.Valid() && Conforms(schema, data) && SortsFit(schema, sorts, |data|) &&
    (|data| > 0 || forall k :: 0 <= k < |schema.nominal| ==> schema.nominal[k]) &&
    forall k :: 0 <= k < |sorts| && !schema.nominal[k] ==>
      Sorted(NumericColumn(Stage(schema, data, sorts, k + 1), k))
  }

  /** The model of attribute i after training, from its model before. A
      nominal attribute gets, for every domain value, the class and weight
      its contingency row gives; a numeric attribute is marked numeric and
      has the rule of its sorted column appended to its list. */
  function TrainedModel(schema: Schema, data: seq<Instance>, sorts: seq<seq<nat>>, i: nat, prior: AttributeModel): AttributeModel
    requires Trainable(schema, data, sorts) && i < |sorts|
  {
    var numClasses := schema.numClasses;
    if schema.nominal[i] then
      var staged := Stage(schema, data, sorts, i);
      var column, classes, domain := NominalColumn(staged, i), ClassColumn(staged), schema.domains[i];
      AttributeModel(false, false, prior.listSplitClassWt,
        seq(|domain|, j requires 0 <= j < |domain| => NominalClass(ContingencyRow(column, classes, domain[j], numClasses))),
        seq(|domain|, j requires 0 <= j < |domain| => NominalWeight(ContingencyRow(column, classes, domain[j], numClasses))),
        |domain|)
    else
      var staged := Stage(schema, data, sorts, i + 1);
      prior.(numeric := true,
             listSplitClassWt := prior.listSplitClassWt + NumericRule(NumericColumn(staged, i), ClassColumn(staged), numClasses))
  }

  /** The models of all attributes after training. */
  function TrainedModels(schema: Schema, data: seq<Instance>, sorts: seq<seq<nat>>, priors: seq<AttributeModel>): (models: seq<AttributeModel>)
    requires Trainable(schema, data, sorts) && |priors| == |sorts|
    ensures |models| == |priors|
  {
    seq(|priors|, i requires 0 <= i < |priors| => TrainedModel(schema, data, sorts, i, priors[i]))
  }

  /** The model of an attribute no training has touched yet. */
  const Untrained := AttributeModel(false, false, [], [], [], 0)

  /** Every class a model's numeric list can vote for is below numClasses. */
  predicate ListInRange(m: AttributeModel, numClasses: nat)
  {
    forall j :: 0 <= j < |m.listSplitClassWt| ==> m.listSplitClassWt[j].classVal < numClasses
  }

  /** Trained models can be consulted for any instance of the schema:
      numeric rules are never empty and vote for classes of the schema,
      nominal rules cover the whole domain and their classes are classes of
      the schema or negative. */
  lemma TrainedModelsConsultable(schema: Schema, data: seq<Instance>, sorts: seq<seq<nat>>,
                                 priors: seq<AttributeModel>, inst: Instance)
    requires Trainable(schema, data, sorts) && |priors| == |sorts|
    requires forall k :: 0 <= k < |priors| ==> ListInRange(priors[k], schema.numClasses)
    requires InstanceConforms(schema, inst)
    ensures AllConsultable(TrainedModels(schema, data, sorts, priors), schema.domains, inst.values, schema.numClasses)
  {
    var models := TrainedModels(schema, data, sorts, priors);
    forall i | 0 <= i < |models|
      ensures Consultable(models[i], schema.domains[i], inst.values[i], schema.numClasses)
    {
      TrainedModelConsultable(schema, data, sorts, i, priors[i], inst.values[i]);
    }
  }

  lemma TrainedModelConsultable(schema: Schema, data: seq<Instance>, sorts: seq<seq<nat>>, i: nat,
                                prior: AttributeModel, v: Value)
    requires Trainable(schema, data, sorts) && i < |sorts|
    requires ListInRange(prior, schema.numClasses)
    requires v.Nom? <==> schema.nominal[i]
    ensures Consultable(TrainedModel(schema, data, sorts, i, prior), schema.domains[i], v, schema.numClasses)
  {
    var numClasses := schema.numClasses;
    var m := TrainedModel(schema, data, sorts, i, prior);
    if schema.nominal[i] {
      var staged := Stage(schema, data, sorts, i);
      var column, classes, domain := NominalColumn(staged, i), ClassColumn(staged), schema.domains[i];
      forall j | 0 <= j < |domain|
        ensures m.attValClass[j] < numClasses
      {
        var row := ContingencyRow(column, classes, domain[j], numClasses);
        assert m.attValClass[j] == NominalClass(row);
      }
    } else {
      var staged := Stage(schema, data, sorts, i + 1);
      var col, classes := NumericColumn(staged, i), ClassColumn(staged);
      assert ClassesInRange(classes, numClasses);
      var rule := NumericRule(col, classes, numClasses);
      RuleEndsAtLastPlusOne(col, classes, numClasses);
      forall k | 0 <= k < |rule| ensures rule[k].classVal < numClasses {
        RuleClassesInRange(col, classes, numClasses, k);
      }
      assert m.listSplitClassWt == prior.listSplitClassWt + rule;
    }
  }

  // ---------------------------------------------------------------------
  // Testing, as values
  // ---------------------------------------------------------------------

  /** Every instance of the test set can be classified by the models. */
  predicate Classifiable(models: seq<AttributeModel>, schema: Schema, testSet: seq<Instance>)
  {
    forall k :: 0 <= k < |testSet| ==> AllConsultable(models, schema.domains, testSet[k].values, schema.numClasses)
  }

  /** The class predicted for each test instance. */
  function Predictions(models: seq<AttributeModel>, schema: Schema, testSet: seq<Instance>): (preds: seq<int>)
    requires Classifiable(models, schema, testSet) && schema.numClasses > 0
    ensures |preds| == |testSet| && ClassesInRange(preds, schema.numClasses)
  {
    seq(|testSet|, k requires 0 <= k < |testSet| =>
      Predict(models, schema.domains, testSet[k].values, schema.numClasses) as int)
  }

  // ---------------------------------------------------------------------
  // Footprints of the rule objects
  // ---------------------------------------------------------------------

  /** The rule objects of an array of rules. */
  ghost function RuleObjects(rules: array<AttributeData>): set<object>
    reads rules
  {
    set k | 0 <= k < rules.Length :: rules[k]
  }

  /** The arrays of the nominal rules. */
  ghost function RuleArrays(rules: array<AttributeData>): set<object>
    reads rules, RuleObjects(rules)
  {
    (set k | 0 <= k < rules.Length :: rules[k].attValClass) + (set k | 0 <= k < rules.Length :: rules[k].weight)
  }

  /** What an array of rule objects holds, rule by rule. */
  function ModelsOf(rules: array<AttributeData>): (models: seq<AttributeModel>)
    reads rules, RuleObjects(rules), RuleArrays(rules)
    ensures |models| == rules.Length
    ensures forall k :: 0 <= k < rules.Length ==> models[k] == rules[k].Model()
  {
    seq(rules.Length, k requires 0 <= k < rules.Length reads rules, RuleObjects(rules), RuleArrays(rules) =>
      rules[k].Model())
  }

  // ---------------------------------------------------------------------
  // The classifier object
  // ---------------------------------------------------------------------

  class WM {
    /** The rule of every predictor attribute, in attribute order. */
    var attributesData: array<AttributeData>
    /** The training set; training a numeric attribute sorts it. */
    var dataSet: seq<Instance>
    /** The fold of every instance, appended by FoldInstances. */
    var foldMap: seq<int>
    /** The share of correct predictions of the last evaluation. */
    var accuracy: Option<real>

    /** Every attribute has its own rule object. */
    ghost predicate Valid()
      reads this`attributesData, attributesData
    {
      forall k, l :: 0 <= k < l < attributesData.Length ==> attributesData[k] != attributesData[l]
    }

    /** What the rule objects hold, attribute by attribute. */
    function Models(): (models: seq<AttributeModel>)
      reads this`attributesData, attributesData, RuleObjects(attributesData), RuleArrays(attributesData)
      ensures |models| == attributesData.Length
      ensures forall k :: 0 <= k < attributesData.Length ==> models[k] == attributesData[k].Model()
    {
      ModelsOf(attributesData)
    }

    /** A classifier for a training set with numAttributes predictor
        attributes: a fresh, untrained rule object per attribute, no folds
        and accuracy 0. */
    constructor (trainingSet: seq<Instance>, numAttributes: nat)
      ensures Valid() && fresh(attributesData) && fresh(RuleObjects(attributesData))
      ensures Models() == seq(numAttributes, _ => Untrained)
      ensures dataSet == trainingSet && foldMap == [] && accuracy == Some(0.0)
    {
      var rules := NewRules(numAttributes);
      attributesData := new AttributeData[numAttributes](k requires 0 <= k < numAttributes => rules[k]);
      dataSet := trainingSet;
      foldMap := [];
      accuracy := Some(0.0);
    }

    /** Trains every attribute in order: nominal ones on the training set as
        it stands, numeric ones after sorting it on their column (by the
        sort orders in `sorts`). */
    method TrainWeights(schema: Schema, sorts: seq<seq<nat>>)
      requires Valid() && Trainable(schema, dataSet, sorts) && attributesData.Length == |sorts|
      modifies this`dataSet, RuleObjects(attributesData)
      ensures Valid()
      ensures dataSet == Stage(schema, old(dataSet), sorts, |sorts|)
      ensures Models() == TrainedModels(schema, old(dataSet), sorts, old(Models()))
    {
      ghost var data, priors := dataSet, Models();
      ghost var trained := TrainedModels(schema, data, sorts, priors);
      var n := attributesData.Length;
      for i := 0 to n
        invariant dataSet == Stage(schema, data, sorts, i)
        invariant forall k :: 0 <= k < n ==> attributesData[k].Model() == if k < i then trained[k] else priors[k]
      {
        TrainAttributeWeight(schema, data, sorts, i, priors[i]);
        assert trained[i] == TrainedModel(schema, data, sorts, i, priors[i]);
      }
    }

    /** Trains attribute i, whose model before was `prior`, on the training
        set as the earlier attributes left it. */
    method TrainAttributeWeight(schema: Schema, ghost data: seq<Instance>, sorts: seq<seq<nat>>, i: nat, ghost prior: AttributeModel)
      requires Valid() && Trainable(schema, data, sorts) && attributesData.Length == |sorts| && i < |sorts|
      requires dataSet == Stage(schema, data, sorts, i) && attributesData[i].Model() == prior
      modifies this`dataSet, attributesData[i]
      ensures dataSet == Stage(schema, data, sorts, i + 1)
      ensures attributesData[i].Model() == TrainedModel(schema, data, sorts, i, prior)
      ensures forall k :: 0 <= k < attributesData.Length && k != i ==> attributesData[k].Model() == old(attributesData[k].Model())
    {
      var numClasses := schema.numClasses;
      var attributeData := attributesData[i];
      if schema.nominal[i] {
        var domain := schema.domains[i];
        TrainNominalAttributeWeight(attributeData, NominalColumn(dataSet, i), ClassColumn(dataSet), domain, numClasses);
        assert attributeData.Model() == TrainedModel(schema, data, sorts, i, prior);
      } else {
        dataSet := Reorder(dataSet, sorts[i]);
        TrainNumericAttributeWeight(attributeData, NumericColumn(dataSet, i), ClassColumn(dataSet), numClasses);
      }
    }

    /** The class the trained rules predict for a test instance: the votes
        of the attributes, then the class of largest total. */
    method GetClass(testSchema: Schema, inst: Instance) returns (predClass: nat)
      requires testSchema.numClasses > 0
      requires AllConsultable(Models(), testSchema.domains, inst.values, testSchema.numClasses)
      ensures predClass == Predict(Models(), testSchema.domains, inst.values, testSchema.numClasses)
    {
      ghost var models := Models();
      predClass := Classify(attributesData, models, testSchema.domains, inst.values, testSchema.numClasses);
      assert Models() == models;
    }

    /** Classifies every test instance, tallies the confusion matrix, records
        the accuracy, and returns Cohen's kappa and the recall product whose
        numClasses-th root is the G-mean. */
    method GetAccuracy(testSchema: Schema, testSet: seq<Instance>) returns (kappa: Option<real>, gMean: real)
      requires testSchema.Valid() && Conforms(testSchema, testSet)
      requires Classifiable(Models(), testSchema, testSet)
      modifies this`accuracy
      ensures var actual, preds := ClassColumn(testSet), Predictions(old(Models()), testSchema, testSet);
              accuracy == Accuracy(actual, preds) &&
              kappa == CohenKappa(actual, preds, testSchema.numClasses) &&
              gMean == RunRecallProduct(actual, preds, testSchema.numClasses)
    {
      ghost var models := Models();
      var confusionMatrix, correctPred := ClassifyAll(attributesData, models, testSchema, testSet);
      if |testSet| == 0 {
        accuracy := None;
      } else {
        accuracy := Some(correctPred as real / |testSet| as real);
      }
      ghost var actual, preds := ClassColumn(testSet), Predictions(models, testSchema, testSet);
      kappa, gMean := Summarise(confusionMatrix, actual, preds, testSchema.numClasses);
    }

    /** Assigns every training instance a fold in 0 .. folds-1, stratified
        by class 0 against the others, and appends the assignment to the
        fold map. `ppicks` and `npicks` are the swap positions the two
        shuffles draw. */
    method FoldInstances(folds: nat, ppicks: seq<nat>, npicks: seq<nat>)
      requires folds > 0
      requires ValidPicks(ppicks, |dataSet| - NegativeCount(ClassColumn(dataSet)))
      requires ValidPicks(npicks, NegativeCount(ClassColumn(dataSet)))
      modifies this`foldMap
      ensures foldMap == old(foldMap) + FoldAssignment(ClassColumn(dataSet), folds, ppicks, npicks)
    {
      var dealt := AssignFolds(ClassColumn(dataSet), folds, ppicks, npicks);
      foldMap := foldMap + dealt;
    }
  }

  /** n fresh, untrained rule objects. */
  method NewRules(n: nat) returns (rules: seq<AttributeData>)
    ensures |rules| == n
    ensures forall k :: 0 <= k < n ==> fresh(rules[k]) && rules[k].Model() == Untrained
    ensures forall k, l :: 0 <= k < l < n ==> rules[k] != rules[l]
  {
    rules := [];
    for i := 0 to n
      invariant |rules| == i
      invariant forall k :: 0 <= k < i ==> fresh(rules[k]) && fresh(rules[k].attValClass) && fresh(rules[k].weight)
      invariant forall k :: 0 <= k < i ==> rules[k].Model() == Untrained
      invariant forall k, l :: 0 <= k < l < i ==> rules[k] != rules[l]
    {
      var rule := new AttributeData();
      rules := rules + [rule];
    }
  }

  /** The folds of instances with the given classes, in instance order: the
      two groups counted, their quota lists built and shuffled, and every
      instance given the front entry of its group's list. */
  method AssignFolds(classes: seq<int>, folds: nat, ppicks: seq<nat>, npicks: seq<nat>) returns (dealt: seq<int>)
    requires folds > 0
    requires ValidPicks(ppicks, |classes| - NegativeCount(classes)) && ValidPicks(npicks, NegativeCount(classes))
    ensures dealt == FoldAssignment(classes, folds, ppicks, npicks)
  {
    var positiveCount, negativeCount := CountGroups(classes);
    var pmap, nmap := BuildQuotas(positiveCount, negativeCount, folds);
    QuotaListLength(positiveCount, folds);
    QuotaListLength(negativeCount, folds);
    pmap := Shuffle(pmap, ppicks);
    nmap := Shuffle(nmap, npicks);
    dealt := DealFolds(classes, pmap, nmap);
  }

  /** The class the rules predict for an instance with the given values:
      the votes of the attributes, then the class of largest total. */
  method Classify(attributesData: array<AttributeData>, ghost models: seq<AttributeModel>,
                  domains: seq<seq<string>>, values: seq<Value>, numClasses: nat) returns (predClass: nat)
    requires AllConsultable(models, domains, values, numClasses) && numClasses > 0
    requires attributesData.Length == |models|
    requires forall k :: 0 <= k < |models| ==> attributesData[k].Model() == models[k]
    ensures predClass == Predict(models, domains, values, numClasses)
  {
    var classWt := CastVotes(attributesData, models, domains, values, numClasses);
    predClass := ArgMax(classWt);
  }

  /** The loop of the evaluation: every test instance classified, counted
      in the confusion matrix, and counted as correct when its prediction
      is its class. */
  method ClassifyAll(attributesData: array<AttributeData>, ghost models: seq<AttributeModel>,
                     testSchema: Schema, testSet: seq<Instance>) returns (confusionMatrix: array2<int>, correctPred: nat)
    requires testSchema.Valid() && Conforms(testSchema, testSet) && Classifiable(models, testSchema, testSet)
    requires attributesData.Length == |models|
    requires forall k :: 0 <= k < |models| ==> attributesData[k].Model() == models[k]
    ensures fresh(confusionMatrix)
    ensures confusionMatrix.Length0 == confusionMatrix.Length1 == testSchema.numClasses + 1
    ensures var actual, preds := ClassColumn(testSet), Predictions(models, testSchema, testSet);
            Cells(confusionMatrix) == Tabulate(actual, preds, testSchema.numClasses) &&
            correctPred == Agreement(actual, preds)
  {
    ghost var actual, preds := ClassColumn(testSet), Predictions(models, testSchema, testSet);
    var numClasses := testSchema.numClasses;
    confusionMatrix := new int[numClasses + 1, numClasses + 1]((_, _) => 0);
    SameCells(confusionMatrix, Zeros(numClasses + 1));
    correctPred := 0;
    for i := 0 to |testSet|
      invariant Cells(confusionMatrix) == Tabulate(actual[..i], preds[..i], numClasses)
      invariant correctPred == Agreement(actual[..i], preds[..i])
    {
      correctPred := ClassifyOne(attributesData, models, testSchema, testSet, i, confusionMatrix, correctPred);
    }
    assert actual[..|testSet|] == actual && preds[..|testSet|] == preds;
  }

  /** The class weights after every attribute has voted for its value of
      the instance. */
  method CastVotes(attributesData: array<AttributeData>, ghost models: seq<AttributeModel>,
                   domains: seq<seq<string>>, values: seq<Value>, numClasses: nat) returns (classWt: array<real>)
    requires AllConsultable(models, domains, values, numClasses) && numClasses > 0
    requires attributesData.Length == |models|
    requires forall k :: 0 <= k < |models| ==> attributesData[k].Model() == models[k]
    ensures fresh(classWt) && classWt.Length == numClasses
    ensures classWt[..] == Tally(models, domains, values, numClasses, |models|)
  {
    classWt := new real[numClasses](_ => 0.0);
    for i := 0 to |values|
      invariant classWt[..] == Tally(models, domains, values, numClasses, i)
    {
      Consult(attributesData[i], domains[i], values[i], numClasses, classWt);
    }
  }

  /** Adds the vote of one attribute's rule for value v to the class
      weights. */
  method Consult(attributeData: AttributeData, domain: seq<string>, v: Value, numClasses: nat, classWt: array<real>)
    requires Consultable(attributeData.Model(), domain, v, numClasses)
    requires classWt.Length == numClasses && classWt != attributeData.weight
    modifies classWt
    ensures classWt[..] == AddVote(old(classWt[..]), AttributeVote(attributeData.Model(), domain, v, numClasses))
  {
    if !attributeData.discard {
      var vote;
      if attributeData.numeric {
        vote := ScanNumericRule(attributeData.listSplitClassWt, v.x);
      } else {
        vote := ScanNominalRule(domain, attributeData.attValClass, attributeData.weight, attributeData.noOfNomValues, v.text);
      }
      assert vote == AttributeVote(attributeData.Model(), domain, v, numClasses);
      if vote.Some? {
        classWt[vote.value.cls] := classWt[vote.value.cls] + vote.value.weight;
      }
    }
  }

  /** The end of the evaluation: the totals row and column, the corner
      halved, then Cohen's kappa and the recall product of the matrix. */
  method Summarise(confusionMatrix: array2<int>, ghost actual: seq<int>, ghost preds: seq<int>, numClasses: nat)
    returns (kappa: Option<real>, gMean: real)
    requires |actual| == |preds| && ClassesInRange(actual, numClasses) && ClassesInRange(preds, numClasses)
    requires confusionMatrix.Length0 == confusionMatrix.Length1 == numClasses + 1
    requires Cells(confusionMatrix) == Tabulate(actual, preds, numClasses)
    modifies confusionMatrix
    ensures Cells(confusionMatrix) == FinalMatrix(actual, preds, numClasses)
    ensures kappa == CohenKappa(actual, preds, numClasses)
    ensures gMean == RunRecallProduct(actual, preds, numClasses)
  {
    AddTotals(confusionMatrix);
    HalveCornerCell(confusionMatrix);
    FinalMatrixKappa(actual, preds, numClasses);
    FinalRecallProduct(actual, preds, numClasses);
    kappa := CalculateKappa(confusionMatrix);
    gMean := RecallProductOf(confusionMatrix);
  }

  /** Classifies test instance i and counts it. */
  method ClassifyOne(attributesData: array<AttributeData>, ghost models: seq<AttributeModel>,
                     testSchema: Schema, testSet: seq<Instance>, i: nat,
                     confusionMatrix: array2<int>, correctPred: nat) returns (correctPred': nat)
    requires testSchema.Valid() && Conforms(testSchema, testSet) && Classifiable(models, testSchema, testSet)
    requires attributesData.Length == |models|
    requires forall k :: 0 <= k < |models| ==> attributesData[k].Model() == models[k]
    requires i < |testSet| && confusionMatrix.Length0 == confusionMatrix.Length1 == testSchema.numClasses + 1
    requires var actual, preds := ClassColumn(testSet), Predictions(models, testSchema, testSet);
             Cells(confusionMatrix) == Tabulate(actual[..i], preds[..i], testSchema.numClasses) &&
             correctPred == Agreement(actual[..i], preds[..i])
    modifies confusionMatrix
    ensures var actual, preds := ClassColumn(testSet), Predictions(models, testSchema, testSet);
            Cells(confusionMatrix) == Tabulate(actual[..i + 1], preds[..i + 1], testSchema.numClasses) &&
            correctPred' == Agreement(actual[..i + 1], preds[..i + 1])
  {
    ghost var actual, preds := ClassColumn(testSet), Predictions(models, testSchema, testSet);
    var predClass := Classify(attributesData, models, testSchema.domains, testSet[i].values, testSchema.numClasses);
    var actualClass := testSet[i].classValue;
    assert predClass == preds[i] && actualClass == actual[i];
    correctPred' := Record(confusionMatrix, correctPred, actualClass, predClass, actual, preds, testSchema.numClasses, i);
  }

  /** Counts test instance i, of actual class actualClass predicted as
      predClass, into the confusion matrix and the number of correct
      predictions. */
  method Record(confusionMatrix: array2<int>, correctPred: nat, actualClass: int, predClass: int,
                ghost actual: seq<int>, ghost preds: seq<int>, numClasses: nat, i: nat) returns (correctPred': nat)
    requires |actual| == |preds| && i < |actual| && ClassesInRange(actual, numClasses) && ClassesInRange(preds, numClasses)
    requires actualClass == actual[i] && predClass == preds[i]
    requires confusionMatrix.Length0 == confusionMatrix.Length1 == numClasses + 1
    requires Cells(confusionMatrix) == Tabulate(actual[..i], preds[..i], numClasses)
    requires correctPred == Agreement(actual[..i], preds[..i])
    modifies confusionMatrix
    ensures Cells(confusionMatrix) == Tabulate(actual[..i + 1], preds[..i + 1], numClasses)
    ensures correctPred' == Agreement(actual[..i + 1], preds[..i + 1])
  {
    TallyStep(actual, preds, numClasses, i);
    correctPred' := correctPred;
    if predClass == actualClass {
      correctPred' := correctPred' + 1;
    }
    CountCell(confusionMatrix, actualClass, predClass);
  }

  /** Counting one more instance into the tabulation and the agreement. */
  lemma TallyStep(actual: seq<int>, preds: seq<int>, numClasses: nat, i: nat)
    requires |actual| == |preds| && i < |actual|
    requires ClassesInRange(actual, numClasses) && ClassesInRange(preds, numClasses)
    ensures ClassesInRange(actual[..i], numClasses) && ClassesInRange(preds[..i], numClasses)
    ensures Tabulate(actual[..i + 1], preds[..i + 1], numClasses) ==
            Increment(Tabulate(actual[..i], preds[..i], numClasses), actual[i], preds[i])
    ensures Agreement(actual[..i + 1], preds[..i + 1]) ==
            Agreement(actual[..i], preds[..i]) + (if actual[i] == preds[i] then 1 else 0)
  {
    assert actual[..i + 1][..i] == actual[..i] && preds[..i + 1][..i] == preds[..i];
    TabulateLast(actual[..i + 1], preds[..i + 1], numClasses);
  }

  /** One more test instance of actual class a predicted as p. */
  method CountCell(m: array2<int>, a: nat, p: nat)
    requires m.Length0 == m.Length1 && a < m.Length0 && p < m.Length0
    modifies m
    ensures Cells(m) == Increment(old(Cells(m)), a, p)
  {
    ghost var g := Cells(m);
    m[a, p] := m[a, p] + 1;
    SameCells(m, Increment(g, a, p));
  }

  /** The corner of the totalled matrix halved in place. */
  method HalveCornerCell(m: array2<int>)
    requires m.Length0 == m.Length1 > 0
    modifies m
    ensures Cells(m) == HalveCorner(old(Cells(m)))
  {
    ghost var g := Cells(m);
    var c := m.Length0 - 1;
    m[c, c] := m[c, c] / 2;
    SameCells(m, HalveCorner(g));
  }
}
