# Weighted Majority classifier, modelled in Dafny

The program trains a weighted majority classifier on a data set whose last
attribute is the class. Every other attribute is a predictor with its own
rule.

- **Nominal attribute.** For every value in its domain, the rule predicts
  the class most frequent among the training instances with that value. The
  vote weighs that class's share of those instances.
- **Numeric attribute.** Training sorts the training set on the attribute.
  It then cuts the sorted column at the midpoint between each pair of
  neighbouring distinct values. Each cut gets its most frequent class and
  that class's share as a weight. Neighbouring cuts with the same class are
  merged into one (bound, class, weight) entry.

To classify a test instance, every attribute adds its weight to the class
it predicts for the instance's value. The class with the largest total wins;
ties go to the lowest class index, and class 0 wins when no weight is
positive.

Evaluation on a test set does the following:

- It records the accuracy.
- It fills a confusion matrix with a totals row and column, and halves its
  corner.
- It computes Cohen's kappa and the G-mean of the smoothed recalls from that
  matrix.

A separate operation assigns the training instances to stratified folds.
Class 0 (the negative class) and the other classes are dealt separately,
from shuffled lists of fold numbers.

The model has one module per concern:

- `Basics`: sums, counts, the "first maximum" scan, Java's `%`, and runs of
  equal neighbours.
- `Tuples` and `Attributes`: the rule triple and the mutable rule object.
- `Dataset`: instances, schema, columns.
- `NominalTrainer` and `NumericTrainer`: the two trainers.
- `NumericProperties`: what the numeric rule guarantees.
- `Predictor`: the vote and the decision.
- `Evaluator`: the confusion matrix, accuracy, kappa and G-mean.
- `Folds`: the fold assignment.
- `Classifier`: the classifier object that ties everything together.

Each loop of the source is a Dafny method proved against a function that
specifies it. The class state is the `Classifier.WM` object: rule objects,
training set, fold map and accuracy. Its methods state their new state in
terms of those functions.

## Model

| member | source | states |
|---|---|---|
| Basics.ScanCounts | src/WM.java:91-101 | the scan over a row of class counts returns the lowest index of a largest count, that count and the row's total |
| Basics.FirstMax | src/WM.java:235-252 | the first maximum of a non-empty count list is the lowest index holding its largest value |
| Basics.FirstMaxUnique | src/WM.java:95-100 | the lowest index of a largest value is unique, so the scan's choice is determined |
| Basics.JavaRem | src/WM.java:104 | Java's `%`: the dividend minus the quotient truncated toward zero times b, so it keeps the dividend's sign: in [0, b) for a non-negative dividend, in (-b, 0] for a negative one |
| Basics.CutsAt | src/WM.java:177 | a position is a cut exactly when the value there differs from the previous one |
| Basics.RunOf | src/WM.java:171-203 | every position lies in exactly one run of equal neighbours |
| Basics.RunUniform | src/WM.java:177-200 | all elements of a run equal its first element |
| Basics.RunsDiffer | src/WM.java:278 | neighbouring runs hold different values |
| Basics.CutsPrefix | src/WM.java:171-177 | reading one more element adds a cut exactly when that element differs from the one before |
| Attributes.AttributeData.constructor | src/AttributeData.java:13-25 | a fresh rule is not discarded, not numeric, and has an empty numeric list and no nominal values |
| Attributes.AttributeData.SetNominalAttributeValueClassArray | src/AttributeData.java:27-31 | records n nominal values and installs fresh zero-filled class and weight arrays of length n, leaving the other fields unchanged |
| Attributes.AttributeData.Model | src/AttributeData.java:13-25 | the value of a rule object holds the current contents of its two nominal arrays |
| NominalTrainer.FallbackClass | src/WM.java:104 | the class of an unseen value is `Random(7).nextInt() % numClasses`, which is 0 or negative (a non-voting marker), never a positive class |
| NominalTrainer.ContingencyRow | src/WM.java:73-87 | the counts per class for a value form a non-negative row with one entry per class |
| NominalTrainer.CountPairs | src/WM.java:73-87 | after the counting loop, cell (j, k) holds the number of training instances with value domain[j] and class k |
| NominalTrainer.CountInstance | src/WM.java:82-86 | one instance adds one to column cls of every domain entry equal to its value, and changes nothing else |
| NominalTrainer.SetValueRule | src/WM.java:90-115 | domain value j gets the first most frequent class with weight max/total, or the fallback class with weight 0 when the row is empty; other entries are unchanged |
| NominalTrainer.TrainNominalAttributeWeight | src/WM.java:63-128 | the rule covers the whole domain, each value's class and weight come from its contingency row, and the rule is neither discarded nor numeric |
| NominalTrainer.RowTotalIsOccurrences | src/WM.java:93-96 | a value's contingency row adds up to the number of times the value occurs in the column |
| NominalTrainer.NominalRuleMeaning | src/WM.java:89-115 | for a seen value: the lowest class of largest count, weighted by its share of the value's occurrences, in (0, 1]. For an unseen value: the fallback class with weight 0 |
| NominalTrainer.TwoValueExample | src/WM.java:63-128 | x,x,x,y,y with classes 0,0,1,1,1 gives x class 0 at weight 2/3 and y class 1 at weight 1 |
| NumericTrainer.ClassCounts | src/WM.java:187-202 | the class counts of a stretch of instances have one non-negative entry per class |
| NumericTrainer.ClassCountsStep | src/WM.java:202 | counting one more instance adds one to its class's count only |
| NumericTrainer.RawThresholds | src/WM.java:181 | one threshold per change of value plus the final one |
| NumericTrainer.RawCounts | src/WM.java:185-212 | one count vector per run of equal values |
| NumericTrainer.RawCountsAt | src/WM.java:185-212 | count vector k holds the class counts of exactly the instances of run k, a non-empty stretch of the column |
| NumericTrainer.ScanStart | src/WM.java:152-169 | before the first instance nothing is emitted and every running count is zero |
| NumericTrainer.ScanSame | src/WM.java:202 | an instance that keeps the value counts towards the open run and emits nothing |
| NumericTrainer.ScanChange | src/WM.java:177-202 | a change of value emits the midpoint and the closed run's counts, and restarts the counts with the new instance |
| NumericTrainer.ScanEnd | src/WM.java:205-213 | after the last instance, appending the open run and last value + 1 completes the raw thresholds and counts |
| NumericTrainer.DrainCounts | src/WM.java:185-194 | the running counts are copied out and reset to zero |
| NumericTrainer.CopyCounts | src/WM.java:206-209 | the final running counts are copied out unchanged |
| NumericTrainer.ScanInstance | src/WM.java:173-202 | one loop iteration takes the scan state from i instances to i+1 and remembers the current value |
| NumericTrainer.ScanRuns | src/WM.java:168-203 | the scan loop reaches the state after every instance, with the last value in hand |
| NumericTrainer.ScanSplits | src/WM.java:168-213 | the first pass yields exactly the raw thresholds and per-run class counts of the sorted column |
| NumericTrainer.RawSplits | src/WM.java:222-267 | one (threshold, class, weight) triple per raw split |
| NumericTrainer.RawSplitMeaning | src/WM.java:235-256 | a raw split keeps its threshold, takes the lowest class of largest count, and gets a weight in (0, 1] equal to that count over its total |
| NumericTrainer.AssignSplitClasses | src/WM.java:222-267 | the second pass yields the raw triples with their chosen counts and totals |
| NumericTrainer.MergeRuns | src/WM.java:272-295 | one merged entry per run of raw splits with equal class |
| NumericTrainer.MergeStart | src/WM.java:272-274 | the merge opens a run with the first raw split's class and counts |
| NumericTrainer.MergeSame | src/WM.java:289-290 | a raw split of the open run's class pools its counts into the run |
| NumericTrainer.MergeChange | src/WM.java:278-290 | a class change closes the open run with the previous bound and pooled ratio, then opens a new run |
| NumericTrainer.MergeEnd | src/WM.java:293-295 | flushing the last run completes the merge |
| NumericTrainer.MergeRunsAt | src/WM.java:272-295 | merged entry k covers exactly run k of the raw classes |
| NumericTrainer.MergeSplit | src/WM.java:276-291 | one merge iteration takes the merge state from i raw splits to i+1, appending to the rule only when a run closes |
| NumericTrainer.MergeSplits | src/WM.java:272-295 | the third pass appends exactly the merged runs to the attribute's list |
| NumericTrainer.CountsOfSum | src/WM.java:202 | counts of in-range classes add up to the number of instances |
| NumericTrainer.RawCountsSize | src/WM.java:206-212 | every run's counts have one entry per class, are non-negative and total the run's length |
| NumericTrainer.RawCountsWellCounted | src/WM.java:256 | every raw split has a positive total, so its weight's division is defined |
| NumericTrainer.TotalsPositive | src/WM.java:282 | every raw total is positive, so the merged ratio is defined |
| NumericTrainer.TrainNumericAttributeWeight | src/WM.java:136-304 | for a sorted column: the rule is marked numeric and exactly the merged rule of the column is appended to its list |
| NumericProperties.CutIsStepUp | src/WM.java:158-177 | in the sorted column every change of value is a strict increase |
| NumericProperties.ThresholdBrackets | src/WM.java:181 | every value of run k lies strictly between threshold k-1 and threshold k |
| NumericProperties.ThresholdAbove | src/WM.java:181 | threshold k lies above every value of run k |
| NumericProperties.ThresholdBelow | src/WM.java:181 | threshold k-1 lies below every value from run k on |
| NumericProperties.RawThresholdAt | src/WM.java:181-213 | a threshold is the midpoint at its change of value, and the last one is the largest value + 1 |
| NumericProperties.AdjacentThresholds | src/WM.java:181-213 | neighbouring thresholds increase |
| NumericProperties.ThresholdsAscending | src/WM.java:181-213 | the raw thresholds are strictly ascending |
| NumericProperties.RunValuesAscending | src/WM.java:158-177 | the runs' values are strictly ascending |
| NumericProperties.OneSplitPerValue | src/WM.java:177-200 | every instance lies in exactly one run, and no other run has its value |
| NumericProperties.CountsCoverInstances | src/WM.java:202-212 | summed over the raw splits, the class counts count every training instance once |
| NumericProperties.CountsCoverPrefix | src/WM.java:185-202 | the first k raw splits count exactly the instances before the end of run k-1 |
| NumericProperties.MergedClassesDiffer | src/WM.java:278 | neighbouring merged entries never share a class |
| NumericProperties.MergedEntryParts | src/WM.java:280-282 | a merged entry has the bound of its run's last raw split, its run's class, and pooled chosen counts over pooled totals |
| NumericProperties.MergedWeightInUnitInterval | src/WM.java:282 | every merged weight lies in (0, 1] |
| NumericProperties.RuleBoundIsThreshold | src/WM.java:280-294 | every bound of the rule is one of the raw thresholds, and only the last bound is the last threshold |
| NumericProperties.RuleEndsAtLastPlusOne | src/WM.java:213-295 | the rule is not empty and its last bound is the largest training value + 1 |
| NumericProperties.RawSplitsAscending | src/WM.java:256 | the raw splits keep the strictly ascending thresholds |
| NumericProperties.MergedBoundsAscending | src/WM.java:280 | merging keeps ascending bounds ascending |
| NumericProperties.RuleBoundsAscending | src/WM.java:136-304 | the bounds of a trained numeric rule are strictly ascending |
| NumericProperties.RuleClassesAlternate | src/WM.java:278-287 | neighbouring entries of a trained numeric rule predict different classes |
| NumericProperties.RuleWeightsInUnitInterval | src/WM.java:282-295 | every weight of a trained numeric rule lies in (0, 1] |
| NumericProperties.RuleClassesInRange | src/WM.java:256 | every entry of a trained numeric rule votes for a class of the class attribute |
| NumericProperties.ThreeValueExample | src/WM.java:136-304 | values 1, 2, 3 with classes 0, 0, 1 train the rule (2.5, 0, 1), (4, 1, 1) |
| NumericProperties.ExampleScan | src/WM.java:168-213 | that column's raw thresholds are 1.5, 2.5, 4 and its run counts are [1,0], [1,0], [0,1] |
| NumericProperties.ExampleSplits | src/WM.java:222-267 | those raw splits get classes 0, 0, 1, each at weight 1 |
| NumericProperties.ExampleMerge | src/WM.java:272-295 | merging them gives (2.5, 0, 1), (4, 1, 1) |
| Predictor.SkipBelow | src/WM.java:329-331 | entries whose bound does not exceed the value do not change the vote |
| Predictor.StepLookup | src/WM.java:329-340 | with ascending bounds and classes that are not negative, the vote comes from the first entry whose bound exceeds the value |
| Predictor.BeyondLastBound | src/WM.java:344-352 | a value at or past the last bound is voted by the last entry |
| Predictor.NegativeEntryDefers | src/WM.java:333-336 | an entry with a negative class passes the value on to the next entries |
| Predictor.NumericVoteFromEntry | src/WM.java:329-352 | any numeric vote is the class and weight of one entry with a class that is not negative |
| Predictor.ScanNumericRule | src/WM.java:325-353 | the numeric lookup loop with its break, skip and fallback to the last entry returns the numeric vote |
| Predictor.NominalVoteFromMatch | src/WM.java:357-358 | only domain entries equal to the label can vote |
| Predictor.NominalLookup | src/WM.java:357-367 | in a domain of distinct labels, label k is voted by entry k (or by no entry when its class is negative) |
| Predictor.NominalUnseen | src/WM.java:357-368 | a label outside the rule's domain values casts no vote |
| Predictor.ScanNominalRule | src/WM.java:356-368 | the nominal lookup loop returns the nominal vote |
| Predictor.NumericVoteBounded | src/WM.java:337 | a numeric vote's class indexes the class-weight array |
| Predictor.NominalVoteBounded | src/WM.java:365 | a nominal vote's class indexes the class-weight array |
| Predictor.AttributeVote | src/WM.java:318-369 | a discarded attribute casts no vote, and any vote cast is for a class of the class attribute |
| Predictor.Tally | src/WM.java:315-370 | the class weights after the votes have one entry per class |
| Predictor.DecisionUnique | src/WM.java:372-378 | the argmax rule determines a single class |
| Predictor.Decision | src/WM.java:372-378 | the decision is the lowest class of largest weight when some weight is positive, and class 0 otherwise |
| Predictor.ArgMax | src/WM.java:372-378 | the final loop of getClass returns the decision over the class weights |
| Predictor.Predict | src/WM.java:312-381 | the predicted class is a class of the class attribute |
| Predictor.TallyOfOneClass | src/WM.java:318-370 | if all votes go to class c, the other classes keep weight 0, and c's weight is positive once any vote is cast |
| Predictor.Unanimity | src/WM.java:312-381 | if every voting attribute votes for c and at least one votes, the prediction is c |
| Predictor.NoVotesTally | src/WM.java:315 | without any vote every class weight stays 0 |
| Predictor.NoVotesPredictsZero | src/WM.java:313-378 | without any vote the prediction is class 0 |
| Evaluator.AgreementAtMost | src/WM.java:400-401 | the correct predictions are at most the number of test instances |
| Evaluator.AccuracyInUnitInterval | src/WM.java:404-406 | on a non-empty test set the accuracy lies in [0, 1], is 1 exactly when every prediction is right, and the printed error 1 - accuracy is the wrong predictions' share |
| Evaluator.CountsAppend | src/WM.java:402 | one more instance adds one to its class's count |
| Evaluator.CountsCoverAll | src/WM.java:411-413 | per-class counts of in-range classes add up to the number of instances |
| Evaluator.ChanceAtMostSquare | src/WM.java:447-454 | the chance term lies between 0 and N*N |
| Evaluator.KappaAtMostOne | src/WM.java:460-462 | when defined, kappa is at most 1, and equals 1 exactly when every prediction is right |
| Evaluator.ScaledRatio | src/WM.java:460-462 | (n*a - t)/(n*n - t) with t < n*n is defined, at most 1, and 1 exactly when a == n |
| Evaluator.KappaIsCohen | src/WM.java:428-465 | the computed kappa is Cohen's (po - pe)/(1 - pe), with po the observed and pe the chance agreement rate |
| Evaluator.RatesForm | src/WM.java:460-462 | the matrix form of kappa equals the rate form |
| Evaluator.Rates | src/WM.java:460-462 | with po = x/s and pe = t/s, (x - t)/(s - t) == (po - pe)/(1 - pe) |
| Evaluator.Tabulate | src/WM.java:391-403 | the tabulation of a run is a (numClasses+1)-square matrix |
| Evaluator.Increment | src/WM.java:402 | counting one instance keeps the matrix square |
| Evaluator.ColumnAfterIncrement | src/WM.java:402 | an increment in row a changes column c only at row a, and only when c is the predicted class |
| Evaluator.DiagonalAfterIncrement | src/WM.java:400-402 | an increment changes the diagonal only for a correct prediction |
| Evaluator.TabulateLast | src/WM.java:393-403 | tabulating a run is tabulating all but its last instance, then counting that one |
| Evaluator.TabulateCells | src/WM.java:402 | cell (a, p) counts the instances of class a predicted as p; the totals row and column start empty |
| Evaluator.TabulateRows | src/WM.java:411 | the class cells of row a add up to the number of instances of class a |
| Evaluator.TabulateColumns | src/WM.java:413 | the class cells of column p add up to the number of instances predicted as p |
| Evaluator.TabulateTrace | src/WM.java:400-402 | the diagonal adds up to the number of correct predictions |
| Evaluator.RowTotals | src/WM.java:410-411 | one row total per class |
| Evaluator.ColumnTotals | src/WM.java:412-413 | one column total per class |
| Evaluator.Totalled | src/WM.java:408-415 | the totals pass keeps the matrix square |
| Evaluator.HalveCorner | src/WM.java:417 | halving the corner keeps the matrix square |
| Evaluator.FinalMatrix | src/WM.java:391-417 | the matrix of a run is (numClasses+1)-square |
| Evaluator.FinalMatrixTotals | src/WM.java:391-417 | the final matrix has class counts in its last column, prediction counts in its last row, N in its corner and the correct predictions on its diagonal |
| Evaluator.TabulatedTotals | src/WM.java:408-415 | the row totals of a tabulation are the class counts, the column totals the prediction counts |
| Evaluator.TotalledParts | src/WM.java:408-417 | how to read a totalled matrix with halved corner: totals in the last row and column, and the halved grand total in the corner |
| Evaluator.FinalMatrixKappa | src/WM.java:419 | the kappa read from the final matrix is Cohen's kappa of the run |
| Evaluator.RecallProductInUnitInterval | src/WM.java:479-482 | when no class has more correct predictions than instances, the product of smoothed recalls lies in (0, 1] |
| Evaluator.MatchesAtMostCount | src/WM.java:400-402 | a class's correct predictions never exceed its instances |
| Evaluator.FinalRecallProduct | src/WM.java:420 | the final matrix has non-negative class totals, and its recall product lies in (0, 1] |
| Evaluator.RunRecallProduct | src/WM.java:472-482 | the recall product of a test run lies in (0, 1] |
| Evaluator.PartialStart | src/WM.java:408 | before the totals pass the partial totals are the cells |
| Evaluator.PartialStep | src/WM.java:409-414 | handling class row i adds its total to the last column and its cells to the last row |
| Evaluator.LastStep | src/WM.java:408-415 | after the last row the partial totals are the full totals, with the corner counted twice |
| Evaluator.AccumulateRow | src/WM.java:409-414 | the inner loop over class row i adds each cell to the row total and to its column total |
| Evaluator.AccumulateLastRow | src/WM.java:409-414 | the inner loop over the totals row adds its class cells to the corner only |
| Evaluator.TotalRow | src/WM.java:408-415 | one outer iteration takes the partial totals from i rows to i+1 |
| Evaluator.AddTotals | src/WM.java:408-415 | the totals pass turns the matrix into its totalled form in place |
| Evaluator.DiagonalSum | src/WM.java:440-445 | the first loop of calculateKappa sums the class diagonal |
| Evaluator.ChanceTerm | src/WM.java:447-454 | the second loop sums column total times row total over the classes |
| Evaluator.CalculateKappa | src/WM.java:428-465 | calculateKappa returns the kappa read from the matrix, None where the double division gives NaN or an infinity |
| Evaluator.RecallProductOf | src/WM.java:475-482 | the loop of calculateGMean returns the product of smoothed recalls (1 + correct)/(1 + instances) |
| Folds.NegativeCount | src/WM.java:506-511 | the number of class-0 instances is at most the number of instances |
| Folds.CountGroups | src/WM.java:505-511 | the counting loop returns the class-0 count, and the two counts add up to all instances |
| Folds.QuotaListLength | src/WM.java:513-538 | a group's fold list has one entry per instance of the group |
| Folds.QuotaListCounts | src/WM.java:513-538 | the fold list holds count/folds entries for each fold, plus one for each of the first count%folds folds, and nothing outside 0 .. folds-1 |
| Folds.AddCopies | src/WM.java:520-525 | the inner loop appends q copies of fold i |
| Folds.AddExtras | src/WM.java:528-538 | the remainder loop appends folds 0 .. remaining-1 once each |
| Folds.BuildQuotas | src/WM.java:513-538 | the quota loops build exactly the fold lists of the two groups |
| Folds.Swap | src/WM.java:541 | a swap keeps the list's length and contents |
| Folds.ShufflePermutes | src/WM.java:540-542 | the shuffle is a permutation of the list |
| Folds.Shuffle | src/WM.java:541-542 | shuffling from the back with the given picks yields the specified shuffle, a permutation of the list |
| Folds.ShuffledQuotaInRange | src/WM.java:540-542 | a shuffled fold list holds only folds 0 .. folds-1 |
| Folds.Deal | src/WM.java:544-556 | one fold per instance |
| Folds.DealStrata | src/WM.java:544-556 | the negatives receive exactly the negative list, in order, and the positives the positive list |
| Folds.DealFolds | src/WM.java:544-556 | the dealing loop, which takes and removes the head of the group's list, yields the dealt folds |
| Folds.DealAdvanceNegative | src/WM.java:546-550 | a negative instance takes the next entry of the negative list |
| Folds.DealAdvancePositive | src/WM.java:551-555 | a positive instance takes the next entry of the positive list |
| Folds.DealFromLists | src/WM.java:544-556 | every dealt fold comes from one of the two lists |
| Folds.FoldAssignment | src/WM.java:496-558 | the fold assignment gives every instance one fold |
| Folds.StratifiedFolds | src/WM.java:496-558 | whatever the shuffles draw, fold f receives the quota of its share of negatives and of positives |
| Folds.FoldsInRange | src/WM.java:519-537 | every assigned fold lies in 0 .. folds-1 |
| Classifier.Stage | src/WM.java:158 | training numeric attributes reorders the training set for good; every stage keeps its length and fits the schema |
| Classifier.TrainedModels | src/WM.java:31-38 | training yields one model per attribute |
| Classifier.TrainedModelConsultable | src/WM.java:46-54 | the model trained for an attribute can be consulted for any value of its kind |
| Classifier.TrainedModelsConsultable | src/WM.java:312-381 | after training, getClass can consult every rule for any instance that fits the schema without failing or indexing outside the class weights |
| Classifier.Predictions | src/WM.java:393-396 | one predicted class per test instance, each a class of the class attribute |
| Classifier.WM.constructor | src/WM.java:595-606 | one fresh, untrained, distinct rule object per predictor attribute, an empty fold map and accuracy 0 |
| Classifier.NewRules | src/WM.java:604-606 | n fresh, distinct, untrained rule objects |
| Classifier.WM.TrainWeights | src/WM.java:31-38 | every rule object holds its trained model, and the training set is left in the order the numeric sorts put it |
| Classifier.WM.TrainAttributeWeight | src/WM.java:46-54 | attribute i's rule holds its trained model, the training set advances one stage, and every other rule is unchanged |
| Classifier.WM.GetClass | src/WM.java:312-381 | the class returned is the class the rules' weighted vote predicts |
| Classifier.Classify | src/WM.java:312-381 | the votes, then the argmax, give the predicted class |
| Classifier.CastVotes | src/WM.java:315-370 | the class weights after the attribute loop are the tally of all attributes' votes |
| Classifier.Consult | src/WM.java:320-369 | one attribute adds its vote, if any, to the class weights |
| Classifier.WM.GetAccuracy | src/WM.java:387-421 | the recorded accuracy is the share of correct predictions (None for an empty test set), kappa is Cohen's kappa of the run, and the G-mean's product is the run's recall product |
| Classifier.ClassifyAll | src/WM.java:391-403 | the test loop yields the tabulation of actual against predicted classes, and the number of correct predictions |
| Classifier.ClassifyOne | src/WM.java:395-402 | one test instance is classified and counted |
| Classifier.Record | src/WM.java:400-402 | counting one instance extends the tabulation and the agreement count by that instance |
| Classifier.TallyStep | src/WM.java:400-402 | the tabulation and agreement of a prefix one longer are those of the prefix plus the new instance |
| Classifier.CountCell | src/WM.java:402 | counting an (actual, predicted) pair increments exactly that cell |
| Classifier.HalveCornerCell | src/WM.java:417 | the corner is halved in place, and nothing else changes |
| Classifier.Summarise | src/WM.java:407-421 | the matrix ends as the run's final matrix, kappa is Cohen's kappa of the run, and the G-mean product is its recall product |
| Classifier.AssignFolds | src/WM.java:496-558 | counting, quota lists, both shuffles and the deal yield the fold assignment |
| Classifier.WM.FoldInstances | src/WM.java:496-558 | the fold map is extended by the fold assignment of the training set, one fold per instance |

## Left out

- The Weka library is not part of this model. Data sets are sequences of
  `Dataset.Instance`, with a `Dataset.Schema` that gives each attribute's
  kind and domain and the number of classes. The last attribute is always
  the class.
- Classifier.WM.TrainAttributeWeight: `Instances.sort` is not part of this
  model. The sort order of each numeric attribute is a parameter (`sorts`),
  and `Trainable` requires that it sorts the column. The tie order of the
  sort is not modelled, and neither are the ties' effect on the class order
  inside a run of equal values. The counts per run do not depend on it.
- Classifier.WM.FoldInstances: `Collections.shuffle` draws from a random
  source that is not part of this model. The swap positions are parameters
  (`ppicks`, `npicks`) restricted by `ValidPicks`, so the result holds for
  every shuffle.
- NominalTrainer.FallbackClass: `new Random(7).nextInt()` is the constant
  first output of the JDK generator for seed 7. The generator is not
  modelled.
- IEEE doubles are not modelled; weights and ratios are exact reals. A
  division that gives NaN or an infinity in Java is `None`: the accuracy of
  an empty test set, and kappa when N*N equals the chance term.
- Classifier.WM.GetAccuracy: returns kappa and the product under the G-mean
  instead of printing them. The printed lines, `main`, file reading and
  argument checks are I/O and not modelled.
- Evaluator.RecallProductOf: the closing `Math.pow(gMean, 1/classCount)` is
  floating point and not modelled. Only the product of the smoothed recalls
  is returned and proved to lie in (0, 1], so its root does too.
- The confusion matrix holds integer counts instead of doubles. The
  corner's halving is integer division, which is exact because the totals
  pass counts every instance exactly twice.
- `DoubleTuple.classVal` is a double in the source. It only ever holds a
  class index or a negative marker, so it is an `int` here.
- Attributes.AttributeData.constructor: the nominal arrays of a fresh rule
  are `null` in Java and empty arrays here. The predictor never reads them
  before training.
- The `cnt` counter of getClass only feeds a commented-out print, so it is
  not modelled.
- Classifier.WM.FoldInstances requires `folds > 0`, so the model says
  nothing about other fold counts. For 0, Java throws an
  `ArithmeticException` on division by zero. For a negative count, the
  per-fold loop at src/WM.java:519 does not run and only the remainder
  loops fill the lists. When both groups are smaller than |folds|, the
  lists have full length and Java completes, assigning fold j to the
  (j+1)-th entry before the shuffle. Otherwise the lists are too short and
  the deal throws. The precondition also excludes the runs that complete.
- Classifier.WM.TrainWeights requires a non-empty training set when some
  attribute is numeric. Java throws at `trainingSet.instance(0)` in that
  case.
- Predictor.Consultable: the getClass contract requires that every rule can
  be consulted without an index error. This is what Java needs to avoid an
  exception, and Classifier.TrainedModelsConsultable proves that training
  always establishes it.
- `AttributeData.discard` is never set to true by any code of the source.
  The predictor still honours it.
