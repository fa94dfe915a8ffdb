# Detection scores and frame pass/fail of autoware_perception_evaluation, in Dafny

This project models three pieces of the perception evaluation tool.

1. **Average Precision and mean Average Precision** (`map.py`).
   - One `Ap` takes the prediction records that the matcher has already judged. It turns their
     "label correct" flags into cumulative TP/FP counts, then into a precision/recall curve.
   - It integrates the curve's backward running-maximum envelope. This is the all-point
     interpolated AP of PASCAL VOC 2010 onward.
   - A `Map` builds one `Ap` per target label and takes their arithmetic mean over all labels.
2. **The metrics orchestrator** (`metrics.py`).
   - A `MetricsScore` keeps a list of `Map`s that every evaluation extends.
   - It adds one `Map` per configured (matching mode, threshold) pair: centre distance first,
     then 3D IoU, then plane distance.
   - Its summary prints each map's object count.
3. **The per-frame pass/fail classifier** (`perception_pass_fail_result.py`).
   - A `PassFailResult` holds the critical ground truths, FNs, FPs and TPs of the last frame
     it evaluated.
   - It can narrow the FPs to those matched with a critical ground truth.
   - Its fail count is |FN| + |FP|.

The files are as follows.
- `objects.dfy`: the records that all three pieces share.
- `ap_spec.dfy`: the specification functions of one AP run and the lemmas about them.
- `map.dfy`: the imperative `Ap`/`Map` construction, proved against those functions.
- `metrics.dfy`: the `MetricsScore` class.
- `pass_fail.dfy`: the `PassFailResult` class.

Design of the model:
- **Loops stay loops.** Every loop of the source is a `while`/`for` loop in a method. Each
  method's `ensures` ties its result, or the object's new state, to a specification function.
  The properties the source promises are proved about those functions as lemmas.
- **Python exceptions become a `Result`.** An `IndexOutOfRange` failure is the
  `object_results[0]` read on an empty list. A `MissingAttribute` failure is reading
  `map_config` from a `Map` whose constructor returned early.
- **Collaborators are parameters.** `filter_tp_objects`, `filter_ground_truth_objects`,
  `filter_objects`, `divide_tp_fp_objects` and `get_fn_objects` are not part of this model. They
  are function-valued fields of `DetectionFilters` and `PassFailCollaborators`.
- **Precision, recall and AP are `real`.** Counts are `nat`.
- **The plane-distance guard is kept as written.** `_evaluation_detection` tests the
  centre-distance list before its plane-distance loop. So with no centre-distance threshold
  configured, no plane-distance map is built, whatever plane-distance thresholds are given.
  `Metrics.DetectionRuns` and `Metrics.DetectionProgress` reproduce this, and
  `Metrics.DetectionRunsLayout` states it.
- **Tracking and prediction change nothing.** `MetricsScore.EvaluationTracking` and
  `MetricsScore.EvaluationPrediction` have empty bodies and no `modifies` clause, so the
  verifier's frame rule guarantees that they change nothing. `MetricsScore.Evaluate` states the
  resulting state.

## Model

| member | source | states |
|---|---|---|
| ApSpec.Count | awml_evaluation/awml_evaluation/evaluation/metrics/detection/map.py:273-277 | the number of records carrying a given flag never exceeds the number of records |
| ApSpec.CountSplit | awml_evaluation/awml_evaluation/evaluation/metrics/detection/map.py:278 | every record is counted either as correct or as not correct |
| ApSpec.TpPlusFp | awml_evaluation/awml_evaluation/evaluation/metrics/detection/map.py:273-278 | at every rank i, tp[i] + fp[i] == i + 1 |
| ApSpec.TpStep | awml_evaluation/awml_evaluation/evaluation/metrics/detection/map.py:266-277 | tp[0] is the first record's flag; each later tp adds the record's flag to the previous count |
| ApSpec.TpMonotone | awml_evaluation/awml_evaluation/evaluation/metrics/detection/map.py:273-277 | tp never falls and rises by at most one per record: tp[i] <= tp[j] <= tp[i] + (j - i) |
| ApSpec.PrecisionInUnitInterval | awml_evaluation/awml_evaluation/evaluation/metrics/detection/map.py:224-225 | the precision list has one entry per record and every precision lies in [0, 1] |
| ApSpec.RecallNonDecreasing | awml_evaluation/awml_evaluation/evaluation/metrics/detection/map.py:226-229 | the recall list has one entry per record, never falls, is never negative, and ends at (correct records) / gt, or 0 without ground truth |
| ApSpec.RecallInUnitInterval | awml_evaluation/awml_evaluation/evaluation/metrics/detection/map.py:226-227 | when no more records are correct than there are ground-truth objects, every recall lies in [0, 1] |
| ApSpec.MaxFromBounds | awml_evaluation/awml_evaluation/evaluation/metrics/detection/map.py:315-318 | the interpolated precision at a rank is at least that rank's precision and stays in [0, 1] |
| ApSpec.TailBounds | awml_evaluation/awml_evaluation/evaluation/metrics/detection/map.py:324-331 | the area under the interpolated curve from rank i on lies between 0 and the recall gained from rank i to the end |
| ApSpec.ApBounds | awml_evaluation/awml_evaluation/evaluation/metrics/detection/map.py:309-331 | with recall non-decreasing from a non-negative start and precision in [0, 1], the AP lies between 0 and the last recall |
| ApSpec.TailZeroRecall | awml_evaluation/awml_evaluation/evaluation/metrics/detection/map.py:226-229 | when every recall is 0 (no ground truth), every tail of the area is 0 |
| ApSpec.ApValueBounds | awml_evaluation/awml_evaluation/evaluation/metrics/detection/map.py:160-173 | the AP of a run is at least 0 and at most its final recall, and at most 1 when the correct records do not outnumber the ground truth |
| ApSpec.ApValueZero | awml_evaluation/awml_evaluation/evaluation/metrics/detection/map.py:309-310 | the AP is 0 when there are no records (empty curve) or no ground truth (all recalls 0) |
| ApSpec.ExampleTpFp | awml_evaluation/awml_evaluation/evaluation/metrics/detection/map.py:251-255 | flags [T, F, T, T] give tp = [1, 1, 2, 3] and fp = [0, 1, 1, 1] |
| ApSpec.ExampleAp | awml_evaluation/awml_evaluation/evaluation/metrics/detection/map.py:297-305 | tp = [1, 1, 2, 3] with 4 ground truths gives precision [1, 0.5, 2/3, 0.75] and recall [0.25, 0.25, 0.5, 0.75], and these give AP = 0.625 |
| ApSpec.ExampleApValue | awml_evaluation/awml_evaluation/evaluation/metrics/detection/map.py:213-219 | the two documented examples chained: flags [T, F, T, T] against 4 ground truths have AP 0.625 |
| Detection.CalculateTpFp | awml_evaluation/awml_evaluation/evaluation/metrics/detection/map.py:233-280 | fails (IndexOutOfRange) exactly when there are no records and no ground truth; otherwise returns the cumulative TP and FP counts of the records; no records with ground truth gives two empty lists |
| Detection.GetPrecisionRecallList | awml_evaluation/awml_evaluation/evaluation/metrics/detection/map.py:204-231 | precision[i] = tp[i] / (i + 1) and recall[i] = tp[i] / gt (0 when gt is 0), one entry per count |
| Detection.MaxPrecisionEnvelope | awml_evaluation/awml_evaluation/evaluation/metrics/detection/map.py:312-322 | the envelope starts at the last (precision, recall), keeps strictly increasing precisions, ends with the overall maximum repeated at recall 0, has non-increasing recalls when recall is non-decreasing and starts non-negative, and its area is the interpolated AP; before the closing point it holds (p[k], r[k]) for exactly the ranks `EnvelopeRanks` lists |
| Detection.EnvelopeRanks | awml_evaluation/awml_evaluation/evaluation/metrics/detection/map.py:315-318 | the envelope ranks start at the last rank and all lie between the starting rank and the end of the curve |
| Detection.EnvelopeRanksExact | awml_evaluation/awml_evaluation/evaluation/metrics/detection/map.py:315-318 | a rank is in the envelope exactly when it is the last rank or its precision is strictly greater than every later one, and the ranks are strictly descending |
| Detection.ExampleEnvelope | awml_evaluation/awml_evaluation/evaluation/metrics/detection/map.py:297-302 | the documented curve gives the envelope precisions [0.75, 1.0, 1.0] at recalls [0.75, 0.25, 0.0] |
| Detection.EnvelopeStart | awml_evaluation/awml_evaluation/evaluation/metrics/detection/map.py:312-313 | the one-point envelope at the last rank accounts for the last step of the interpolated area |
| Detection.EnvelopeStep | awml_evaluation/awml_evaluation/evaluation/metrics/detection/map.py:315-318 | one backward step, whether the precision is kept or skipped, keeps the envelope's last precision equal to the maximum so far and its area equal to the interpolated area of the ranks seen |
| Detection.EnvelopeInit | awml_evaluation/awml_evaluation/evaluation/metrics/detection/map.py:312-313 | the one-point envelope at the last rank satisfies the envelope invariant: best precision so far, area accounted for, points at the envelope ranks |
| Detection.EnvelopeAdvance | awml_evaluation/awml_evaluation/evaluation/metrics/detection/map.py:315-318 | one backward step keeps the envelope invariant both when the precision is kept (strictly greater) and when it is skipped |
| Detection.EnvelopeRanksStep | awml_evaluation/awml_evaluation/evaluation/metrics/detection/map.py:316-318 | a kept point extends the envelope ranks by that rank and a skipped one leaves them unchanged, and the rank's recall is at most the last kept recall when recall does not fall |
| Detection.EnvelopeFinish | awml_evaluation/awml_evaluation/evaluation/metrics/detection/map.py:320-322 | closing at recall 0 after the first rank gives the envelope its promised shape, ranks and area |
| Detection.EnvelopeClose | awml_evaluation/awml_evaluation/evaluation/metrics/detection/map.py:320-322 | appending the last precision at the closing recall turns the remaining rectangle into area |
| Detection.CalculateAp | awml_evaluation/awml_evaluation/evaluation/metrics/detection/map.py:282-331 | returns 0 for an empty curve and otherwise the all-point interpolated AP: sum over ranks of recall step times the best precision at that rank or later |
| Detection.NewAp | awml_evaluation/awml_evaluation/evaluation/metrics/detection/map.py:122-173 | the `Ap` of the filtered records against the filtered ground truth, or the IndexOutOfRange raised when both are empty |
| Detection.ApOfProperties | awml_evaluation/awml_evaluation/evaluation/metrics/detection/map.py:141-173 | an `Ap` keeps its labels, mode and threshold, counts the filtered ground truth, has lists as long as the filtered records with tp + fp = rank, and an AP between 0 and the last recall that is 0 without ground truth |
| Detection.ApOfNoRecords | awml_evaluation/awml_evaluation/evaluation/metrics/detection/map.py:258-260 | no filtered records but some ground truth: no error, empty lists and AP 0 |
| Detection.NewMap | awml_evaluation/awml_evaluation/evaluation/metrics/detection/map.py:58-101 | the `Map` of the inputs: unconfigured for an empty label list, otherwise one `Ap` per label and their mean, or the first error an `Ap` raises |
| Detection.ApsOfPrefixFailure | awml_evaluation/awml_evaluation/evaluation/metrics/detection/map.py:87-95 | once the `Ap` of some label raises, the whole list of labels fails with that error |
| Detection.ApsOfShape | awml_evaluation/awml_evaluation/evaluation/metrics/detection/map.py:87-95 | building the `Ap`s succeeds exactly when every label's `Ap` does, and then holds one `Ap` per label, over that label alone, in label order |
| Detection.MapOfShape | awml_evaluation/awml_evaluation/evaluation/metrics/detection/map.py:76-101 | a `Map` fails exactly when some label's `Ap` fails; it is unconfigured exactly when the label list is empty; otherwise it keeps the config, has one `Ap` per label with the map's mode and threshold, and `map` = (sum of APs) / (number of labels) |
| Detection.SumApBounds | awml_evaluation/awml_evaluation/evaluation/metrics/detection/map.py:97-100 | the sum of n APs in [lo, hi] lies in [n lo, n hi] |
| Detection.MapWithinApRange | awml_evaluation/awml_evaluation/evaluation/metrics/detection/map.py:97-101 | the mAP lies within the range of its APs, so in [0, 1] when every AP does |
| Detection.MapOfMeanAp | awml_evaluation/awml_evaluation/evaluation/metrics/detection/map.py:76-101 | the mAP of any built `Map` is at least 0, and at most 1 when no label has more correct records than ground-truth objects |
| Detection.ExampleMeanOfTwo | awml_evaluation/awml_evaluation/evaluation/metrics/detection/map.py:87-101 | a label with records but no ground truth gets AP 0 and still counts in the divisor: with a label of AP 0.625 the mAP is 0.3125 |
| Detection.MapOfEmptyLabelFails | awml_evaluation/awml_evaluation/evaluation/metrics/detection/map.py:258-266 | a label with neither records nor ground truth makes the whole `Map` fail with IndexOutOfRange |
| Metrics.MetricsScore.constructor | awml_evaluation/awml_evaluation/evaluation/metrics/metrics.py:19-30 | keeps the configuration and starts with no maps |
| Metrics.MetricsScore.Evaluate | awml_evaluation/awml_evaluation/evaluation/metrics/metrics.py:53-67 | the maps already held are kept, and the maps of the planned runs are appended after them in order, up to the first error, which is returned |
| Metrics.MetricsScore.EvaluationDetection | awml_evaluation/awml_evaluation/evaluation/metrics/metrics.py:69-110 | appends the centre-distance block, then the IoU block, then, only when the centre-distance list is non-empty, the plane-distance block; an error stops it and keeps what was appended |
| Metrics.MetricsScore.AppendMaps | awml_evaluation/awml_evaluation/evaluation/metrics/metrics.py:82-90 | one block appends the `Map` of each threshold in order after the maps already held, stopping at the first error |
| Metrics.MetricsScore.EvaluationTracking | awml_evaluation/awml_evaluation/evaluation/metrics/metrics.py:112-122 | not implemented in the source: no `modifies` clause, so it changes nothing, and the held maps are unchanged |
| Metrics.MetricsScore.EvaluationPrediction | awml_evaluation/awml_evaluation/evaluation/metrics/metrics.py:124-134 | not implemented in the source: no `modifies` clause, so it changes nothing, and the held maps are unchanged |
| Metrics.MetricsScore.SummaryObjectNums | awml_evaluation/awml_evaluation/evaluation/metrics/metrics.py:36-44 | fails (MissingAttribute) exactly when some held map is unconfigured; otherwise gives each map's sum of ground-truth counts over its APs, in map order |
| Metrics.AppendBlockAfterFailure | awml_evaluation/awml_evaluation/evaluation/metrics/metrics.py:81-110 | after an error, the remaining blocks append nothing |
| Metrics.AppendBlockPrefixFailure | awml_evaluation/awml_evaluation/evaluation/metrics/metrics.py:82-90 | once a block fails on some threshold, its later thresholds append nothing |
| Metrics.AppendBlockCollect | awml_evaluation/awml_evaluation/evaluation/metrics/metrics.py:82-90 | a block's appending is the collection of the outcomes of its (mode, threshold) runs, after those already collected |
| Metrics.DetectionMatchesPlan | awml_evaluation/awml_evaluation/evaluation/metrics/metrics.py:81-110 | the block-by-block evaluation equals collecting the outcomes of the planned run list in order |
| Metrics.CollectShape | awml_evaluation/awml_evaluation/evaluation/metrics/metrics.py:81-110 | the collected maps are the successful outcomes in order up to the first failure, which is the error reported; without a failure every outcome contributes its map |
| Metrics.DetectionRunsLayout | awml_evaluation/awml_evaluation/evaluation/metrics/metrics.py:81-110 | |cd| + |iou| + (|pd| only if cd is non-empty) runs are planned: centre-distance thresholds first, then IoU, then plane distance; with an empty centre-distance list every run is IoU |
| Metrics.EvaluationAppendsPlannedMaps | awml_evaluation/awml_evaluation/evaluation/metrics/metrics.py:83-109 | a successful evaluation appends one map per planned run, each built from the configured target labels with that run's mode and threshold |
| Metrics.ApsGroundTruthTotal | awml_evaluation/awml_evaluation/evaluation/metrics/metrics.py:41-44 | a map's object count is the number of ground-truth objects kept for each of its labels, summed over the labels |
| PassFail.CriticalFps | perception_eval/perception_eval/evaluation/result/perception_pass_fail_result.py:133-141 | the critical FPs are never more than the FPs |
| PassFail.PassFailResult.constructor | perception_eval/perception_eval/evaluation/result/perception_pass_fail_result.py:52-67 | keeps both configurations and the transform, starts with four empty lists, and so has no fail object |
| PassFail.PassFailResult.FailObjectNum | perception_eval/perception_eval/evaluation/result/perception_pass_fail_result.py:97-103 | the fail count is 0 exactly when there are no FNs and no FPs, and is at least each of their numbers |
| PassFail.PassFailResult.Evaluate | perception_eval/perception_eval/evaluation/result/perception_pass_fail_result.py:69-103 | replaces all four lists: the filtered critical ground truths; the TPs and FPs as divided by label, mode and thresholds, which never see the critical list, with the FPs narrowed to those matched with a critical ground truth when the restriction is on; and the FNs computed from the filtered (not the raw) critical list; the fail count left behind is the FNs plus all divided FPs with the restriction off, never more with it on, and just the FNs when the filtered critical list is empty |
| PassFail.PassFailResult.GetTpFpObjectResults | perception_eval/perception_eval/evaluation/result/perception_pass_fail_result.py:105-141 | TPs as divided; FPs as divided when the restriction is off, and otherwise exactly those divided FPs whose ground truth is in the critical list, in order |
| PassFail.CriticalFpsMembership | perception_eval/perception_eval/evaluation/result/perception_pass_fail_result.py:135-140 | a result is kept exactly when it is one of the FPs and its matched ground truth is a critical one |
| PassFail.CriticalFpsAppend | perception_eval/perception_eval/evaluation/result/perception_pass_fail_result.py:135-140 | the filter keeps order: filtering a concatenation concatenates the filtered parts |
| PassFail.CriticalFpsWithoutCritical | perception_eval/perception_eval/evaluation/result/perception_pass_fail_result.py:136-137 | with no critical list, or an empty one, no FP is kept whatever the number of FPs |
| PassFail.CriticalFpsKeepsAll | perception_eval/perception_eval/evaluation/result/perception_pass_fail_result.py:135-140 | the filter returns its input exactly when every FP is critical |
| PassFail.CriticalFpsIdempotent | perception_eval/perception_eval/evaluation/result/perception_pass_fail_result.py:133-141 | filtering the critical FPs again changes nothing |
| PassFail.CriticalFpsOfFrame | perception_eval/perception_eval/evaluation/result/perception_pass_fail_result.py:123-141 | with the restriction off the FPs are the divided ones; with it on they are never more, and none with an empty critical list |
| PassFail.ExampleCriticalFps | perception_eval/perception_eval/evaluation/result/perception_pass_fail_result.py:133-141 | of FPs matched with g1, with nothing and with g2, only the one matched with the critical g2 is kept, and none without a critical list |

## Left out

- `Ap.save_precision_recall_graph` and `_get_flat_str` (map.py:175-202, 334-343): they write a plot file. This is I/O, and the graph method is broken as written (it uses an attribute and a function that do not exist).
- The internals of `filter_tp_objects`, `filter_ground_truth_objects`, `filter_objects`, `divide_tp_fp_objects`, `get_fn_objects` and `is_label_correct`: their code is not part of this model. They are uninterpreted function parameters, and the matcher's verdict is the `isLabelCorrect` field.
- Geometric matching (IoU, centre and plane distance) and the `ego2map` coordinate transform: the transform is carried as an opaque value handed to the object filter.
- IEEE floating-point rounding: precision, recall and AP are exact reals. The documented 0.67 is 2/3 rounded; 0.625 is exact either way.
- Sorting by confidence: the source has none (only a TODO), so records are taken in the order the filter returns them.
- The warnings logged for an empty record list and an empty label list: only the return value is modelled.
- The text of `MetricsScore.__str__`: only the per-map object count, and the error that an unconfigured map raises there, are modelled.
- `GeneralPassFailResult`: an empty class.
- Python object identity: `ground_truth_object in critical_ground_truth_objects` is modelled as value equality of ground-truth records.
- Metrics.MetricsScore.Evaluate: `Map` construction errors are returned as a value instead of propagating as exceptions. The state left behind is the same as in the source: the maps appended before the error are kept.
