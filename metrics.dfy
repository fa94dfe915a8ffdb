/** The metrics orchestrator (`metrics.py`).

    A `MetricsScore` keeps a list of `Map`s that every `Evaluate` call extends: one
    `Map` per configured (matching mode, threshold) pair, centre-distance thresholds
    first, then IoU thresholds, then plane-distance thresholds. The plane-distance
    block is guarded by the centre-distance list, as the source is written, so no
    plane-distance `Map` is built when no centre-distance threshold is configured. */
module Metrics {
  import opened Objects
  import opened Detection

  datatype MetricsScoreConfig = MetricsScoreConfig(
    targetLabels: seq<Label>,
    mapThresholdsCenterDistance: seq<real>,
    mapThresholdsIou: seq<real>,
    mapThresholdsPlaneDistance: seq<real>)

  /** One (matching mode, threshold) pair for which a `Map` is built. */
  datatype Run = Run(mode: MatchingMode, threshold: real)

  function RunsFor(mode: MatchingMode, thresholds: seq<real>): seq<Run>
  {
    seq(|thresholds|, k requires 0 <= k < |thresholds| => Run(mode, thresholds[k]))
  }

  /** The pairs of one detection evaluation, in the order their `Map`s are appended. */
  function DetectionRuns(c: MetricsScoreConfig): seq<Run>
  {
    RunsFor(CenterDistance, c.mapThresholdsCenterDistance)
    + RunsFor(Iou3d, c.mapThresholdsIou)
    + (if c.mapThresholdsCenterDistance != [] then RunsFor(PlaneDistance, c.mapThresholdsPlaneDistance) else [])
  }

  /** What building the `Map` of each run gives, run by run. */
  function MapOutcomes(runs: seq<Run>, results: seq<ObjectResult>, gts: seq<GroundTruthObject>,
                       labels: seq<Label>, f: DetectionFilters): seq<Result<Map>>
  {
    seq(|runs|, k requires 0 <= k < |runs| => MapOf(results, gts, labels, runs[k].mode, runs[k].threshold, f))
  }

  /** The `Map`s appended for a list of outcomes, and the error that stopped the
      appending, if any. */
  datatype Progress = Progress(maps: seq<Map>, failure: Option<Error>)

  function Collect(outcomes: seq<Result<Map>>): Progress
    decreases |outcomes|
  {
    if outcomes == [] then Progress([], None)
    else
      var done := Collect(outcomes[..|outcomes| - 1]);
      if done.failure.Some? then done
      else
        match outcomes[|outcomes| - 1]
        case Failure(e) => Progress(done.maps, Some(e))
        case Success(m) => Progress(done.maps + [m], None)
  }

  /** Appending the `Map`s of one block of thresholds after `p`: nothing once `p` has
      failed, otherwise one map per threshold in order, stopping at the first error. */
  function AppendBlock(p: Progress, mode: MatchingMode, thresholds: seq<real>, results: seq<ObjectResult>,
                       gts: seq<GroundTruthObject>, labels: seq<Label>, f: DetectionFilters): Progress
    decreases |thresholds|
  {
    if thresholds == [] then p
    else
      var q := AppendBlock(p, mode, thresholds[..|thresholds| - 1], results, gts, labels, f);
      if q.failure.Some? then q
      else
        match MapOf(results, gts, labels, mode, thresholds[|thresholds| - 1], f)
        case Failure(e) => Progress(q.maps, Some(e))
        case Success(m) => Progress(q.maps + [m], None)
  }

  /** The three blocks of one detection evaluation, as the code runs them; the
      plane-distance block runs only when the centre-distance list is non-empty. */
  function DetectionProgress(c: MetricsScoreConfig, results: seq<ObjectResult>, gts: seq<GroundTruthObject>,
                     f: DetectionFilters): Progress
  {
    var labels := c.targetLabels;
    var afterCenter := AppendBlock(Progress([], None), CenterDistance, c.mapThresholdsCenterDistance, results, gts, labels, f);
    var afterIou := AppendBlock(afterCenter, Iou3d, c.mapThresholdsIou, results, gts, labels, f);
    if c.mapThresholdsCenterDistance != [] then
      AppendBlock(afterIou, PlaneDistance, c.mapThresholdsPlaneDistance, results, gts, labels, f)
    else afterIou
  }

  /** Sum of the ground-truth counts of a map's APs: the "object num" of the summary. */
  function GroundTruthTotal(aps: seq<Ap>): nat
    decreases |aps|
  {
    if aps == [] then 0 else GroundTruthTotal(aps[..|aps| - 1]) + aps[|aps| - 1].groundTruthObjectsNum
  }

  /** Sum over the labels of the number of ground-truth objects kept for that label alone. */
  function LabelGroundTruthTotal(gts: seq<GroundTruthObject>, labels: seq<Label>, f: DetectionFilters): nat
    decreases |labels|
  {
    if labels == [] then 0
    else LabelGroundTruthTotal(gts, labels[..|labels| - 1], f)
         + |f.groundTruthObjects(gts, [labels[|labels| - 1]])|
  }

  class MetricsScore {
    const config: MetricsScoreConfig
    var maps: seq<Map>

    /** A fresh score holds no maps. */
    constructor (metricsConfig: MetricsScoreConfig)
      ensures config == metricsConfig && maps == []
    {
      config := metricsConfig;
      maps := [];
    }

    /** `MetricsScore.evaluate`: detection, then tracking and prediction (which do
        nothing). Earlier maps are kept; the new ones are appended after them. An
        error raised while building a `Map` stops the evaluation, keeping the maps
        appended before it. */
    method Evaluate(results: seq<ObjectResult>, gts: seq<GroundTruthObject>, f: DetectionFilters)
      returns (failure: Option<Error>)
      modifies this
      ensures var done := Collect(MapOutcomes(DetectionRuns(config), results, gts, config.targetLabels, f));
              maps == old(maps) + done.maps && failure == done.failure
    {
      failure := EvaluationDetection(results, gts, f);
      DetectionMatchesPlan(config, results, gts, f);
      if failure.Some? {
        return;
      }
      EvaluationTracking(results);
      EvaluationPrediction(results);
    }

    /** `MetricsScore._evaluation_detection`: three guarded blocks appending one `Map`
        per threshold. The third block tests the centre-distance list, not the
        plane-distance one. */
    method EvaluationDetection(results: seq<ObjectResult>, gts: seq<GroundTruthObject>, f: DetectionFilters)
      returns (failure: Option<Error>)
      modifies this
      ensures var done := DetectionProgress(config, results, gts, f);
              maps == old(maps) + done.maps && failure == done.failure
    {
      ghost var maps0 := maps;
      ghost var labels := config.targetLabels;
      var cd, iou, pd := config.mapThresholdsCenterDistance, config.mapThresholdsIou, config.mapThresholdsPlaneDistance;
      ghost var progress := Progress([], None);
      if cd != [] {
        failure := AppendMaps(CenterDistance, cd, results, gts, f, progress, maps0);
        progress := AppendBlock(progress, CenterDistance, cd, results, gts, labels, f);
        if failure.Some? {
          AppendBlockAfterFailure(progress, Iou3d, iou, results, gts, labels, f);
          AppendBlockAfterFailure(progress, PlaneDistance, pd, results, gts, labels, f);
          return;
        }
      }
      if iou != [] {
        failure := AppendMaps(Iou3d, iou, results, gts, f, progress, maps0);
        progress := AppendBlock(progress, Iou3d, iou, results, gts, labels, f);
        if failure.Some? {
          AppendBlockAfterFailure(progress, PlaneDistance, pd, results, gts, labels, f);
          return;
        }
      }
      if cd != [] {
        failure := AppendMaps(PlaneDistance, pd, results, gts, f, progress, maps0);
        progress := AppendBlock(progress, PlaneDistance, pd, results, gts, labels, f);
        if failure.Some? {
          return;
        }
      }
      failure := None;
    }

    /** One block of `_evaluation_detection`: for each threshold in order, build the
        `Map` for `mode` and that threshold and append it, stopping at the first error.
        The maps of `progress` have already been appended after `maps0`. */
    method AppendMaps(mode: MatchingMode, thresholds: seq<real>, results: seq<ObjectResult>,
                      gts: seq<GroundTruthObject>, f: DetectionFilters, ghost progress: Progress, ghost maps0: seq<Map>)
      returns (failure: Option<Error>)
      requires progress.failure.None? && maps == maps0 + progress.maps
      modifies this
      ensures var done := AppendBlock(progress, mode, thresholds, results, gts, config.targetLabels, f);
              maps == maps0 + done.maps && failure == done.failure
    {
      var labels := config.targetLabels;
      var k := 0;
      while k < |thresholds|
        invariant 0 <= k <= |thresholds|
        invariant AppendBlock(progress, mode, thresholds[..k], results, gts, labels, f).failure.None?
        invariant maps == maps0 + AppendBlock(progress, mode, thresholds[..k], results, gts, labels, f).maps
      {
        assert thresholds[..k + 1][..k] == thresholds[..k];
        var m := NewMap(results, gts, labels, mode, thresholds[k], f);
        if m.Failure? {
          AppendBlockPrefixFailure(progress, mode, thresholds, results, gts, labels, f, k + 1);
          return Some(m.error);
        }
        maps := maps + [m.value];
        k := k + 1;
      }
      assert thresholds[..k] == thresholds;
      failure := None;
    }

    /** `MetricsScore._evaluation_tracking`: not implemented in the source; changes nothing. */
    method EvaluationTracking(results: seq<ObjectResult>)
      ensures maps == old(maps)
    {
    }

    /** `MetricsScore._evaluation_prediction`: not implemented in the source; changes nothing. */
    method EvaluationPrediction(results: seq<ObjectResult>)
      ensures maps == old(maps)
    {
    }

    /** The "object num" that `__str__` prints for each map, in map order. Reading the
        configuration of an unconfigured map raises, as in the source. */
    method SummaryObjectNums() returns (r: Result<seq<nat>>)
      ensures r.Failure? <==> exists k :: 0 <= k < |maps| && maps[k].Unconfigured?
      ensures r.Failure? ==> r.error == MissingAttribute
      ensures r.Success? ==>
                && |r.value| == |maps|
                && forall k :: 0 <= k < |maps| ==> maps[k].Configured? && r.value[k] == GroundTruthTotal(maps[k].aps)
    {
      var nums: seq<nat> := [];
      var k := 0;
      while k < |maps|
        invariant 0 <= k <= |maps| && |nums| == k
        invariant forall t :: 0 <= t < k ==> maps[t].Configured? && nums[t] == GroundTruthTotal(maps[t].aps)
      {
        var m := maps[k];
        if m.Unconfigured? {
          return Failure(MissingAttribute);
        }
        var objectNum: nat := 0;
        var t := 0;
        while t < |m.aps|
          invariant 0 <= t <= |m.aps|
          invariant objectNum == GroundTruthTotal(m.aps[..t])
        {
          assert m.aps[..t + 1][..t] == m.aps[..t];
          objectNum := objectNum + m.aps[t].groundTruthObjectsNum;
          t := t + 1;
        }
        assert m.aps[..|m.aps|] == m.aps;
        nums := nums + [objectNum];
        k := k + 1;
      }
      r := Success(nums);
    }
  }

  /** A block appends nothing after a failure. */
  lemma {:induction false} AppendBlockAfterFailure(p: Progress, mode: MatchingMode, thresholds: seq<real>,
                                                   results: seq<ObjectResult>, gts: seq<GroundTruthObject>,
                                                   labels: seq<Label>, f: DetectionFilters)
    requires p.failure.Some?
    ensures AppendBlock(p, mode, thresholds, results, gts, labels, f) == p
    decreases |thresholds|
  {
    if thresholds != [] {
      AppendBlockAfterFailure(p, mode, thresholds[..|thresholds| - 1], results, gts, labels, f);
    }
  }

  /** Once a block fails on a prefix of its thresholds, the rest of them append nothing. */
  lemma {:induction false} AppendBlockPrefixFailure(p: Progress, mode: MatchingMode, thresholds: seq<real>,
                                                    results: seq<ObjectResult>, gts: seq<GroundTruthObject>,
                                                    labels: seq<Label>, f: DetectionFilters, k: nat)
    requires k <= |thresholds|
    requires AppendBlock(p, mode, thresholds[..k], results, gts, labels, f).failure.Some?
    ensures AppendBlock(p, mode, thresholds, results, gts, labels, f)
            == AppendBlock(p, mode, thresholds[..k], results, gts, labels, f)
    decreases |thresholds|
  {
    if k < |thresholds| {
      var init := thresholds[..|thresholds| - 1];
      assert init[..k] == thresholds[..k];
      AppendBlockPrefixFailure(p, mode, init, results, gts, labels, f, k);
    } else {
      assert thresholds[..k] == thresholds;
    }
  }

  /** Outcomes of a concatenation of runs are the concatenated outcomes. */
  lemma MapOutcomesAppend(a: seq<Run>, b: seq<Run>, results: seq<ObjectResult>, gts: seq<GroundTruthObject>,
                          labels: seq<Label>, f: DetectionFilters)
    ensures MapOutcomes(a + b, results, gts, labels, f)
            == MapOutcomes(a, results, gts, labels, f) + MapOutcomes(b, results, gts, labels, f)
  {
  }

  /** Collecting one more outcome after `ys`. */
  lemma CollectSnoc(ys: seq<Result<Map>>, last: Result<Map>)
    ensures Collect(ys + [last])
            == (var done := Collect(ys);
                if done.failure.Some? then done
                else match last
                  case Failure(e) => Progress(done.maps, Some(e))
                  case Success(m) => Progress(done.maps + [m], None))
  {
    assert (ys + [last])[..|ys|] == ys;
  }

  /** The outcomes of a block are those of its thresholds but the last, then the last one's. */
  lemma BlockOutcomesSnoc(mode: MatchingMode, thresholds: seq<real>, results: seq<ObjectResult>,
                          gts: seq<GroundTruthObject>, labels: seq<Label>, f: DetectionFilters)
    requires thresholds != []
    ensures MapOutcomes(RunsFor(mode, thresholds), results, gts, labels, f)
            == MapOutcomes(RunsFor(mode, thresholds[..|thresholds| - 1]), results, gts, labels, f)
               + [MapOf(results, gts, labels, mode, thresholds[|thresholds| - 1], f)]
  {
  }

  /** Appending a block after the collected outcomes `xs` is collecting `xs` followed by
      the outcomes of the block's runs. */
  lemma {:induction false} AppendBlockCollect(xs: seq<Result<Map>>, mode: MatchingMode, thresholds: seq<real>,
                                              results: seq<ObjectResult>, gts: seq<GroundTruthObject>,
                                              labels: seq<Label>, f: DetectionFilters)
    ensures AppendBlock(Collect(xs), mode, thresholds, results, gts, labels, f)
            == Collect(xs + MapOutcomes(RunsFor(mode, thresholds), results, gts, labels, f))
    decreases |thresholds|
  {
    if thresholds == [] {
      assert xs + MapOutcomes(RunsFor(mode, thresholds), results, gts, labels, f) == xs;
    } else {
      var init := thresholds[..|thresholds| - 1];
      var last := MapOf(results, gts, labels, mode, thresholds[|thresholds| - 1], f);
      AppendBlockCollect(xs, mode, init, results, gts, labels, f);
      var ys := xs + MapOutcomes(RunsFor(mode, init), results, gts, labels, f);
      var zs := xs + MapOutcomes(RunsFor(mode, thresholds), results, gts, labels, f);
      assert zs == ys + [last] by {
        BlockOutcomesSnoc(mode, thresholds, results, gts, labels, f);
      }
      CollectSnoc(ys, last);
    }
  }

  /** The block-by-block evaluation collects exactly the outcomes of the planned runs. */
  lemma DetectionMatchesPlan(c: MetricsScoreConfig, results: seq<ObjectResult>, gts: seq<GroundTruthObject>,
                             f: DetectionFilters)
    ensures DetectionProgress(c, results, gts, f) == Collect(MapOutcomes(DetectionRuns(c), results, gts, c.targetLabels, f))
  {
    var labels := c.targetLabels;
    var cd, iou, pd := c.mapThresholdsCenterDistance, c.mapThresholdsIou, c.mapThresholdsPlaneDistance;
    var o1 := MapOutcomes(RunsFor(CenterDistance, cd), results, gts, labels, f);
    var o2 := MapOutcomes(RunsFor(Iou3d, iou), results, gts, labels, f);
    var o3 := MapOutcomes(RunsFor(PlaneDistance, pd), results, gts, labels, f);
    assert Collect([]) == Progress([], None);
    AppendBlockCollect([], CenterDistance, cd, results, gts, labels, f);
    assert [] + o1 == o1;
    AppendBlockCollect(o1, Iou3d, iou, results, gts, labels, f);
    AppendBlockCollect(o1 + o2, PlaneDistance, pd, results, gts, labels, f);
    MapOutcomesAppend(RunsFor(CenterDistance, cd), RunsFor(Iou3d, iou), results, gts, labels, f);
    if cd != [] {
      MapOutcomesAppend(RunsFor(CenterDistance, cd) + RunsFor(Iou3d, iou), RunsFor(PlaneDistance, pd),
                        results, gts, labels, f);
    } else {
      assert DetectionRuns(c) == RunsFor(CenterDistance, cd) + RunsFor(Iou3d, iou) + [];
      assert RunsFor(CenterDistance, cd) + RunsFor(Iou3d, iou) + [] == RunsFor(CenterDistance, cd) + RunsFor(Iou3d, iou);
    }
  }

  /** The collected maps are the successful outcomes in order, up to the first failure;
      that failure is the one reported, and without one every outcome has its map. */
  lemma {:induction false} CollectShape(outcomes: seq<Result<Map>>)
    ensures var done := Collect(outcomes);
            && |done.maps| <= |outcomes|
            && (forall k :: 0 <= k < |done.maps| ==> outcomes[k] == Success(done.maps[k]))
            && (done.failure.None? ==> |done.maps| == |outcomes|)
            && (done.failure.Some? ==>
                  |done.maps| < |outcomes| && outcomes[|done.maps|] == Failure(done.failure.value))
    decreases |outcomes|
  {
    if outcomes != [] {
      var init := outcomes[..|outcomes| - 1];
      CollectShape(init);
      assert forall k :: 0 <= k < |init| ==> init[k] == outcomes[k];
    }
  }

  /** Per evaluation, |centre| + |IoU| maps are planned, plus |plane| only when the
      centre-distance list is non-empty; with an empty centre-distance list no run uses
      plane distance. */
  lemma DetectionRunsLayout(c: MetricsScoreConfig)
    ensures |DetectionRuns(c)| == |c.mapThresholdsCenterDistance| + |c.mapThresholdsIou|
              + (if c.mapThresholdsCenterDistance != [] then |c.mapThresholdsPlaneDistance| else 0)
    ensures forall k :: 0 <= k < |c.mapThresholdsCenterDistance| ==>
              DetectionRuns(c)[k] == Run(CenterDistance, c.mapThresholdsCenterDistance[k])
    ensures forall k :: 0 <= k < |c.mapThresholdsIou| ==>
              DetectionRuns(c)[|c.mapThresholdsCenterDistance| + k] == Run(Iou3d, c.mapThresholdsIou[k])
    ensures c.mapThresholdsCenterDistance != [] ==>
              forall k :: 0 <= k < |c.mapThresholdsPlaneDistance| ==>
                DetectionRuns(c)[|c.mapThresholdsCenterDistance| + |c.mapThresholdsIou| + k]
                == Run(PlaneDistance, c.mapThresholdsPlaneDistance[k])
    ensures c.mapThresholdsCenterDistance == [] ==>
              forall k :: 0 <= k < |DetectionRuns(c)| ==> DetectionRuns(c)[k].mode == Iou3d
  {
  }

  /** A successful evaluation appends one map per planned run, each built with the
      configured labels and that run's mode and threshold. */
  lemma EvaluationAppendsPlannedMaps(c: MetricsScoreConfig, results: seq<ObjectResult>,
                                     gts: seq<GroundTruthObject>, f: DetectionFilters)
    requires Collect(MapOutcomes(DetectionRuns(c), results, gts, c.targetLabels, f)).failure.None?
    ensures var done := Collect(MapOutcomes(DetectionRuns(c), results, gts, c.targetLabels, f));
            && |done.maps| == |c.mapThresholdsCenterDistance| + |c.mapThresholdsIou|
                 + (if c.mapThresholdsCenterDistance != [] then |c.mapThresholdsPlaneDistance| else 0)
            && forall k :: 0 <= k < |done.maps| ==>
                 var run := DetectionRuns(c)[k];
                 MapOf(results, gts, c.targetLabels, run.mode, run.threshold, f) == Success(done.maps[k])
                 && (c.targetLabels != [] ==>
                       done.maps[k].Configured?
                       && done.maps[k].mapConfig == MapConfig(c.targetLabels, run.mode, run.threshold))
  {
    var runs := DetectionRuns(c);
    var outcomes := MapOutcomes(runs, results, gts, c.targetLabels, f);
    var done := Collect(outcomes);
    CollectShape(outcomes);
    DetectionRunsLayout(c);
    forall k | 0 <= k < |done.maps|
      ensures MapOf(results, gts, c.targetLabels, runs[k].mode, runs[k].threshold, f) == Success(done.maps[k])
      ensures c.targetLabels != [] ==>
                done.maps[k].Configured?
                && done.maps[k].mapConfig == MapConfig(c.targetLabels, runs[k].mode, runs[k].threshold)
    {
      assert outcomes[k] == MapOf(results, gts, c.targetLabels, runs[k].mode, runs[k].threshold, f);
      MapOfShape(results, gts, c.targetLabels, runs[k].mode, runs[k].threshold, f);
    }
  }

  /** The summary's object count for a configured map is the number of ground-truth
      objects kept for each of its labels, summed over the labels. */
  lemma {:induction false} ApsGroundTruthTotal(results: seq<ObjectResult>, gts: seq<GroundTruthObject>,
                                               labels: seq<Label>, mode: MatchingMode, threshold: real,
                                               f: DetectionFilters)
    requires ApsOf(results, gts, labels, mode, threshold, f).Success?
    ensures GroundTruthTotal(ApsOf(results, gts, labels, mode, threshold, f).value)
            == LabelGroundTruthTotal(gts, labels, f)
    decreases |labels|
  {
    if labels != [] {
      var init := labels[..|labels| - 1];
      var aps := ApsOf(results, gts, labels, mode, threshold, f).value;
      ApsGroundTruthTotal(results, gts, init, mode, threshold, f);
      assert aps[..|aps| - 1] == ApsOf(results, gts, init, mode, threshold, f).value;
    }
  }
}
