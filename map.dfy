/** Average Precision and mean Average Precision (`map.py`).

    `Ap` and `Map` are computed once, when they are built, and never changed afterwards,
    so they are records here, built by the methods `NewAp` and `NewMap`. A Python
    exception raised while building one is a `Failure` result. The filtering helpers
    `filter_tp_objects` and `filter_ground_truth_objects` are not part of this model:
    they are passed in as functions. */
module Detection {
  import opened Objects
  import opened ApSpec

  /** The filtering collaborators, as opaque functions. */
  datatype DetectionFilters = DetectionFilters(
    tpObjects: (seq<ObjectResult>, seq<Label>, MatchingMode, real) -> seq<ObjectResult>,
    groundTruthObjects: (seq<GroundTruthObject>, seq<Label>) -> seq<GroundTruthObject>)

  datatype Ap = Ap(
    targetLabels: seq<Label>,
    matchingMode: MatchingMode,
    matchingThreshold: real,
    groundTruthObjectsNum: nat,
    tpList: seq<nat>,
    fpList: seq<nat>,
    ap: real)

  datatype MapConfig = MapConfig(targetLabels: seq<Label>, matchingMode: MatchingMode, matchingThreshold: real)

  /** A `Map` whose constructor returned early on an empty label list has none of its
      attributes set: that is `Unconfigured`. */
  datatype Map = Unconfigured | Configured(mapConfig: MapConfig, aps: seq<Ap>, meanAp: real)

  // ---------------------------------------------------------------------------
  // Specification
  // ---------------------------------------------------------------------------

  /** The `Ap` built from the given inputs, or the error its construction raises. */
  function ApOf(results: seq<ObjectResult>, gts: seq<GroundTruthObject>, labels: seq<Label>,
                mode: MatchingMode, threshold: real, f: DetectionFilters): Result<Ap>
  {
    var rs := f.tpObjects(results, labels, mode, threshold);
    var gtNum := |f.groundTruthObjects(gts, labels)|;
    if rs == [] && gtNum == 0 then Failure(IndexOutOfRange)
    else Success(Ap(labels, mode, threshold, gtNum, TpCounts(rs), FpCounts(rs), ApValue(rs, gtNum)))
  }

  /** One `Ap` per label, each over the one-label list, in label order; the first error stops. */
  function ApsOf(results: seq<ObjectResult>, gts: seq<GroundTruthObject>, labels: seq<Label>,
                 mode: MatchingMode, threshold: real, f: DetectionFilters): Result<seq<Ap>>
    decreases |labels|
  {
    if labels == [] then Success([])
    else
      match ApsOf(results, gts, labels[..|labels| - 1], mode, threshold, f)
      case Failure(e) => Failure(e)
      case Success(aps) =>
        match ApOf(results, gts, [labels[|labels| - 1]], mode, threshold, f)
        case Failure(e) => Failure(e)
        case Success(a) => Success(aps + [a])
  }

  function SumAp(aps: seq<Ap>): real
    decreases |aps|
  {
    if aps == [] then 0.0 else SumAp(aps[..|aps| - 1]) + aps[|aps| - 1].ap
  }

  /** The `Map` built from the given inputs, or the error its construction raises. */
  function MapOf(results: seq<ObjectResult>, gts: seq<GroundTruthObject>, labels: seq<Label>,
                 mode: MatchingMode, threshold: real, f: DetectionFilters): Result<Map>
  {
    if labels == [] then Success(Unconfigured)
    else
      match ApsOf(results, gts, labels, mode, threshold, f)
      case Failure(e) => Failure(e)
      case Success(aps) =>
        Success(Configured(MapConfig(labels, mode, threshold), aps, SumAp(aps) / |labels| as real))
  }

  // ---------------------------------------------------------------------------
  // Ap
  // ---------------------------------------------------------------------------

  /** `Ap._calculate_tp_fp`: cumulative TP and FP counts along the ranked records.
      Fails exactly when there are no records and no ground truth, where the source
      reads `object_results[0]` of an empty list. */
  method CalculateTpFp(rs: seq<ObjectResult>, gtNum: nat) returns (r: Result<(seq<nat>, seq<nat>)>)
    ensures r.Failure? <==> rs == [] && gtNum == 0
    ensures r.Failure? ==> r.error == IndexOutOfRange
    ensures r.Success? ==> r.value.0 == TpCounts(rs) && r.value.1 == FpCounts(rs)
  {
    if |rs| == 0 && gtNum != 0 {
      // the source logs a warning here
      return Success(([], []));
    }
    if |rs| == 0 {
      return Failure(IndexOutOfRange);
    }
    var n := |rs|;
    var tp: seq<nat> := seq(n, _ => 0);
    var fp: seq<nat> := seq(n, _ => 0);
    if rs[0].isLabelCorrect {
      tp := tp[0 := 1];
      fp := fp[0 := 0];
    } else {
      tp := tp[0 := 0];
      fp := fp[0 := 1];
    }
    TpStep(rs, 0);
    TpPlusFp(rs, 0);
    var i := 1;
    while i < n
      invariant 1 <= i <= n
      invariant |tp| == |fp| == n
      invariant forall k :: 0 <= k < i ==> tp[k] == TpCounts(rs)[k] && fp[k] == FpCounts(rs)[k]
    {
      if rs[i].isLabelCorrect {
        tp := tp[i := tp[i - 1] + 1];
      } else {
        tp := tp[i := tp[i - 1]];
      }
      TpStep(rs, i);
      TpPlusFp(rs, i);
      fp := fp[i := i + 1 - tp[i]];
      i := i + 1;
    }
    r := Success((tp, fp));
  }

  /** `Ap.get_precision_recall_list`: precision `tp[i] / (i + 1)` and recall
      `tp[i] / gtNum` (0 without ground truth) at every rank. */
  method GetPrecisionRecallList(tp: seq<nat>, gtNum: nat) returns (precision: seq<real>, recall: seq<real>)
    ensures precision == Precisions(tp)
    ensures recall == Recalls(tp, gtNum)
  {
    precision := seq(|tp|, _ => 0.0);
    recall := seq(|tp|, _ => 0.0);
    var i := 0;
    while i < |precision|
      invariant 0 <= i <= |tp| && |precision| == |recall| == |tp|
      invariant forall k :: 0 <= k < i ==> precision[k] == Precisions(tp)[k] && recall[k] == Recalls(tp, gtNum)[k]
    {
      precision := precision[i := tp[i] as real / (i + 1) as real];
      if gtNum > 0 {
        recall := recall[i := tp[i] as real / gtNum as real];
      } else {
        recall := recall[i := 0.0];
      }
      i := i + 1;
    }
  }

  /** The precision envelope built by `Ap._calculate_ap`, walking from the last rank to
      the first and keeping every precision that beats all later ones, then closing the
      curve at recall 0. Its area is the interpolated AP. */
  method MaxPrecisionEnvelope(p: seq<real>, r: seq<real>) returns (mp: seq<real>, mr: seq<real>)
    requires |p| == |r| > 0
    ensures |mp| == |mr| >= 2
    ensures StrictlyIncreasing(mp[..|mp| - 1])
    ensures mp[|mp| - 1] == mp[|mp| - 2] == MaxFrom(p, 0)
    ensures mp[0] == p[|p| - 1] && mr[0] == r[|r| - 1] && mr[|mr| - 1] == 0.0
    ensures NonDecreasing(r) && 0.0 <= r[0] ==> NonIncreasing(mr)
    ensures Area(mp, mr) == InterpolatedAp(p, r)
    ensures var ks := EnvelopeRanks(p, 0);
            && |mp| == |ks| + 1
            && forall k :: 0 <= k < |ks| ==> mp[k] == p[ks[k]] && mr[k] == r[ks[k]]
  {
    mp := [p[|p| - 1]];
    mr := [r[|r| - 1]];
    var i := |r| - 1;
    ghost var ks: seq<nat> := [|r| - 1];
    EnvelopeInit(p, r);
    while i > 0
      invariant 0 <= i < |r| && |mp| == |mr| >= 1
      invariant EnvelopeInv(p, r, i, mp, mr, ks)
    {
      EnvelopeAdvance(p, r, i, mp, mr, ks);
      i := i - 1;
      if p[i] > mp[|mp| - 1] {
        mp := mp + [p[i]];
        mr := mr + [r[i]];
        ks := ks + [i];
      }
    }
    // append the minimum recall
    assert i == 0;
    ghost var mp0, mr0 := mp, mr;
    mp := mp + [mp[|mp| - 1]];
    mr := mr + [0.0];
    EnvelopeFinish(p, r, mp0, mr0, ks, mp, mr);
  }

  /** What `MaxPrecisionEnvelope` keeps true after reaching rank `i`: the last point holds
      the best precision from rank `i` on, precisions strictly increase, recalls do not
      rise when the curve's recall does not fall, the area so far plus what is still owed
      is the tail of the interpolated AP, and the points sit at the envelope ranks. */
  ghost predicate EnvelopeInv(p: seq<real>, r: seq<real>, i: nat, mp: seq<real>, mr: seq<real>, ks: seq<nat>)
  {
    && |p| == |r| && i < |p| && |mp| == |mr| >= 1
    && mp[|mp| - 1] == MaxFrom(p, i)
    && StrictlyIncreasing(mp)
    && (NonDecreasing(r) ==> NonIncreasing(mr))
    && Area(mp, mr) + Owed(mp, mr, r, i) == Tail(p, r, i)
    && ks == EnvelopeRanks(p, i) && PointsAt(mp, mr, p, r, ks)
  }

  /** The envelope starts as the single point at the last rank. */
  lemma EnvelopeInit(p: seq<real>, r: seq<real>)
    requires |p| == |r| > 0
    ensures EnvelopeInv(p, r, |p| - 1, [p[|p| - 1]], [r[|r| - 1]], [|p| - 1])
  {
    EnvelopeStart(p, r);
  }

  /** One backward step to rank `i - 1`: keeping the point when its precision beats the
      last one, skipping it otherwise, both keep the envelope invariant. */
  lemma EnvelopeAdvance(p: seq<real>, r: seq<real>, i: nat, mp: seq<real>, mr: seq<real>, ks: seq<nat>)
    requires 0 < i && EnvelopeInv(p, r, i, mp, mr, ks)
    ensures p[i - 1] > mp[|mp| - 1] ==>
              EnvelopeInv(p, r, i - 1, mp + [p[i - 1]], mr + [r[i - 1]], ks + [i - 1])
    ensures p[i - 1] <= mp[|mp| - 1] ==> EnvelopeInv(p, r, i - 1, mp, mr, ks)
  {
    EnvelopeStep(p, r, i - 1, mp, mr);
    EnvelopeRanksStep(p, r, i - 1, ks, mp, mr);
    if p[i - 1] > mp[|mp| - 1] {
      StrictSnoc(mp, p[i - 1]);
      NonIncreasingSnoc(mr, r[i - 1]);
    }
  }

  /** Closing the envelope at recall 0 after rank 0 gives the envelope's promised shape
      and its area, the interpolated AP. */
  lemma EnvelopeFinish(p: seq<real>, r: seq<real>, mp: seq<real>, mr: seq<real>, ks: seq<nat>,
                       mp': seq<real>, mr': seq<real>)
    requires EnvelopeInv(p, r, 0, mp, mr, ks)
    requires mp' == mp + [mp[|mp| - 1]] && mr' == mr + [0.0]
    ensures |mp'| == |mr'| >= 2
    ensures StrictlyIncreasing(mp'[..|mp'| - 1])
    ensures mp'[|mp'| - 1] == mp'[|mp'| - 2] == MaxFrom(p, 0)
    ensures mp'[0] == p[|p| - 1] && mr'[0] == r[|r| - 1] && mr'[|mr'| - 1] == 0.0
    ensures NonDecreasing(r) && 0.0 <= r[0] ==> NonIncreasing(mr')
    ensures Area(mp', mr') == InterpolatedAp(p, r)
    ensures var ks0 := EnvelopeRanks(p, 0);
            && |mp'| == |ks0| + 1
            && forall k :: 0 <= k < |ks0| ==> mp'[k] == p[ks0[k]] && mr'[k] == r[ks0[k]]
  {
    OwedAt(mp, mr, r, 0);
    EnvelopeClose(mp, mr, Prev(r, 0), Tail(p, r, 0));
    NonIncreasingSnoc(mr, 0.0);
    assert mp'[..|mp'| - 1] == mp;
  }

  /** Whether rank `k` gives the envelope a point: it is the last rank, or its precision
      beats every later one. */
  ghost predicate Kept(p: seq<real>, k: nat)
    requires k < |p|
  {
    k == |p| - 1 || p[k] > MaxFrom(p, k + 1)
  }

  /** The ranks from `i` on whose points make up the envelope, from the last rank back. */
  ghost function EnvelopeRanks(p: seq<real>, i: nat): (ks: seq<nat>)
    requires i < |p|
    ensures |ks| > 0 && ks[0] == |p| - 1
    ensures forall k :: 0 <= k < |ks| ==> i <= ks[k] < |p|
    decreases |p| - i
  {
    if i == |p| - 1 then [i]
    else EnvelopeRanks(p, i + 1) + (if p[i] > MaxFrom(p, i + 1) then [i] else [])
  }

  /** The points `mp`, `mr` are the (precision, recall) pairs at the ranks `ks`, in order. */
  ghost predicate PointsAt(mp: seq<real>, mr: seq<real>, p: seq<real>, r: seq<real>, ks: seq<nat>)
  {
    && |mp| == |mr| == |ks|
    && forall k :: 0 <= k < |ks| ==> ks[k] < |p| && ks[k] < |r| && mp[k] == p[ks[k]] && mr[k] == r[ks[k]]
  }

  /** One backward step of `MaxPrecisionEnvelope` keeps its points at the envelope ranks. */
  lemma EnvelopeRanksStep(p: seq<real>, r: seq<real>, i: nat, ks: seq<nat>, mp: seq<real>, mr: seq<real>)
    requires |p| == |r| && i + 1 < |p|
    requires ks == EnvelopeRanks(p, i + 1) && PointsAt(mp, mr, p, r, ks)
    requires |mp| > 0 && mp[|mp| - 1] == MaxFrom(p, i + 1)
    ensures p[i] > mp[|mp| - 1] ==>
              ks + [i] == EnvelopeRanks(p, i) && PointsAt(mp + [p[i]], mr + [r[i]], p, r, ks + [i])
    ensures p[i] <= mp[|mp| - 1] ==> ks == EnvelopeRanks(p, i)
    ensures NonDecreasing(r) ==> r[i] <= mr[|mr| - 1]
  {
  }

  /** The envelope holds exactly the kept ranks, each once, in descending order. */
  lemma {:induction false} EnvelopeRanksExact(p: seq<real>, i: nat)
    requires i < |p|
    ensures forall k: nat :: k in EnvelopeRanks(p, i) <==> i <= k < |p| && Kept(p, k)
    ensures forall a, b :: 0 <= a < b < |EnvelopeRanks(p, i)| ==> EnvelopeRanks(p, i)[a] > EnvelopeRanks(p, i)[b]
    decreases |p| - i
  {
    if i < |p| - 1 {
      EnvelopeRanksExact(p, i + 1);
    }
  }

  /** The envelope of the documented curve: precisions [1, 0.5, 2/3, 0.75] at recalls
      [0.25, 0.25, 0.5, 0.75] keep ranks 3 and 0, then close at recall 0. */
  method ExampleEnvelope() returns (mp: seq<real>, mr: seq<real>)
    ensures mp == [0.75, 1.0, 1.0] && mr == [0.75, 0.25, 0.0]
  {
    var p := [1.0, 0.5, 2.0 / 3.0, 0.75];
    var r := [0.25, 0.25, 0.5, 0.75];
    assert MaxFrom(p, 3) == 0.75 && MaxFrom(p, 2) == 0.75 && MaxFrom(p, 1) == 0.75;
    assert EnvelopeRanks(p, 3) == [3];
    assert EnvelopeRanks(p, 1) == [3];
    assert EnvelopeRanks(p, 0) == [3, 0];
    mp, mr := MaxPrecisionEnvelope(p, r);
  }

  ghost predicate StrictlyIncreasing(s: seq<real>)
  {
    forall a, b :: 0 <= a < b < |s| ==> s[a] < s[b]
  }

  lemma StrictSnoc(s: seq<real>, x: real)
    requires |s| > 0 && StrictlyIncreasing(s) && s[|s| - 1] < x
    ensures StrictlyIncreasing(s + [x])
  {
  }

  lemma NonIncreasingSnoc(s: seq<real>, y: real)
    requires |s| > 0
    ensures NonIncreasing(s) && y <= s[|s| - 1] ==> NonIncreasing(s + [y])
  {
  }

  /** The area the envelope still owes for the ranks before `i`: its current best
      precision over the recall range from `Prev(r, i)` up to its last recall. */
  ghost function Owed(mp: seq<real>, mr: seq<real>, r: seq<real>, i: nat): real
    requires |mp| == |mr| >= 1 && i <= |r|
  {
    mp[|mp| - 1] * (mr[|mr| - 1] - Prev(r, i))
  }

  lemma OwedAt(mp: seq<real>, mr: seq<real>, r: seq<real>, i: nat)
    requires |mp| == |mr| >= 1 && i <= |r|
    ensures Owed(mp, mr, r, i) == mp[|mp| - 1] * (mr[|mr| - 1] - Prev(r, i))
  {
  }

  /** The one-point envelope at the last rank owes exactly the last tail term. */
  lemma EnvelopeStart(p: seq<real>, r: seq<real>)
    requires |p| == |r| > 0
    ensures Area([p[|p| - 1]], [r[|r| - 1]]) + Owed([p[|p| - 1]], [r[|r| - 1]], r, |r| - 1) == Tail(p, r, |r| - 1)
  {
    var i := |r| - 1;
    assert Tail(p, r, i) == RecallStep(r, i) * MaxFrom(p, i) + Tail(p, r, i + 1);
  }

  /** One backward step of the envelope: the running maximum and the area invariant of
      `MaxPrecisionEnvelope` extend from rank `i + 1` to rank `i`, whether or not the
      precision at rank `i` is kept. */
  lemma EnvelopeStep(p: seq<real>, r: seq<real>, i: nat, mp: seq<real>, mr: seq<real>)
    requires |p| == |r| && i + 1 < |p| && |mp| == |mr| >= 1
    requires mp[|mp| - 1] == MaxFrom(p, i + 1)
    requires Area(mp, mr) + Owed(mp, mr, r, i + 1) == Tail(p, r, i + 1)
    ensures p[i] > mp[|mp| - 1] ==>
              p[i] == MaxFrom(p, i)
              && Area(mp + [p[i]], mr + [r[i]]) + Owed(mp + [p[i]], mr + [r[i]], r, i) == Tail(p, r, i)
    ensures p[i] <= mp[|mp| - 1] ==>
              mp[|mp| - 1] == MaxFrom(p, i) && Area(mp, mr) + Owed(mp, mr, r, i) == Tail(p, r, i)
  {
    var best, bestRecall := mp[|mp| - 1], mr[|mr| - 1];
    var d := RecallStep(r, i);
    assert Prev(r, i + 1) == r[i];
    assert Tail(p, r, i) == d * MaxFrom(p, i) + Tail(p, r, i + 1);
    if p[i] > best {
      AreaSnoc(mp, mr, p[i], r[i]);
      assert Area(mp + [p[i]], mr + [r[i]]) == Area(mp, mr) + best * (bestRecall - r[i]);
      assert Owed(mp + [p[i]], mr + [r[i]], r, i) == p[i] * d;
    } else {
      assert best * (bestRecall - Prev(r, i)) == best * (bestRecall - r[i]) + best * d;
    }
  }

  /** Closing the envelope at recall `y` turns what it owes down to `y` into area. */
  lemma EnvelopeClose(mp: seq<real>, mr: seq<real>, y: real, total: real)
    requires |mp| == |mr| >= 1
    requires Area(mp, mr) + mp[|mp| - 1] * (mr[|mr| - 1] - y) == total
    ensures Area(mp + [mp[|mp| - 1]], mr + [y]) == total
  {
    AreaSnoc(mp, mr, mp[|mp| - 1], y);
  }

  /** `Ap._calculate_ap`: 0 for an empty curve, otherwise the area under the envelope,
      which is the all-point interpolated AP. */
  method CalculateAp(p: seq<real>, r: seq<real>) returns (ap: real)
    requires |p| == |r|
    ensures ap == InterpolatedAp(p, r)
  {
    if |p| == 0 {
      return 0.0;
    }
    var mp, mr := MaxPrecisionEnvelope(p, r);
    ap := 0.0;
    var i := 0;
    while i < |mp| - 1
      invariant 0 <= i <= |mp| - 1
      invariant ap == Area(mp[..i + 1], mr[..i + 1])
    {
      AreaPrefixStep(mp, mr, i);
      ap := ap + mp[i] * (mr[i] - mr[i + 1]);
      i := i + 1;
    }
    assert mp[..|mp|] == mp;
    assert mr[..|mr|] == mr;
  }

  /** `Ap.__init__`: filter the records and the ground truth for the target labels, then
      count, build the curve and integrate it. The records are taken in the order the
      filter returns them; nothing sorts them by confidence. */
  method NewAp(results: seq<ObjectResult>, gts: seq<GroundTruthObject>, labels: seq<Label>,
               mode: MatchingMode, threshold: real, f: DetectionFilters) returns (r: Result<Ap>)
    ensures r == ApOf(results, gts, labels, mode, threshold, f)
  {
    var filtered := f.tpObjects(results, labels, mode, threshold);
    var filteredGts := f.groundTruthObjects(gts, labels);
    var gtNum := |filteredGts|;
    var counts := CalculateTpFp(filtered, gtNum);
    if counts.Failure? {
      return Failure(counts.error);
    }
    var (tp, fp) := counts.value;
    var precision, recall := GetPrecisionRecallList(tp, gtNum);
    var ap := CalculateAp(precision, recall);
    r := Success(Ap(labels, mode, threshold, gtNum, tp, fp, ap));
  }

  /** What an `Ap` holds: lists as long as the filtered records, TP + FP = rank at every
      rank, an AP between 0 and the final recall, and AP 0 without ground truth. */
  lemma ApOfProperties(results: seq<ObjectResult>, gts: seq<GroundTruthObject>, labels: seq<Label>,
                       mode: MatchingMode, threshold: real, f: DetectionFilters)
    requires ApOf(results, gts, labels, mode, threshold, f).Success?
    ensures var a := ApOf(results, gts, labels, mode, threshold, f).value;
            var n := |f.tpObjects(results, labels, mode, threshold)|;
            && a.targetLabels == labels && a.matchingMode == mode && a.matchingThreshold == threshold
            && a.groundTruthObjectsNum == |f.groundTruthObjects(gts, labels)|
            && |a.tpList| == |a.fpList| == n
            && (forall i :: 0 <= i < n ==> a.tpList[i] + a.fpList[i] == i + 1)
            && 0.0 <= a.ap
            && (n > 0 ==> a.ap <= Recalls(a.tpList, a.groundTruthObjectsNum)[n - 1])
            && (a.groundTruthObjectsNum == 0 ==> a.ap == 0.0)
  {
    var rs := f.tpObjects(results, labels, mode, threshold);
    var gtNum := |f.groundTruthObjects(gts, labels)|;
    forall i | 0 <= i < |rs| ensures TpCounts(rs)[i] + FpCounts(rs)[i] == i + 1 {
      TpPlusFp(rs, i);
    }
    ApValueBounds(rs, gtNum);
    if gtNum == 0 {
      ApValueZero(rs, gtNum);
    }
  }

  /** No records but some ground truth: empty lists and AP 0, not an error. */
  lemma ApOfNoRecords(results: seq<ObjectResult>, gts: seq<GroundTruthObject>, labels: seq<Label>,
                      mode: MatchingMode, threshold: real, f: DetectionFilters)
    requires f.tpObjects(results, labels, mode, threshold) == []
    requires |f.groundTruthObjects(gts, labels)| > 0
    ensures ApOf(results, gts, labels, mode, threshold, f).Success?
    ensures var a := ApOf(results, gts, labels, mode, threshold, f).value;
            a.tpList == [] && a.fpList == [] && a.ap == 0.0
  {
    ApValueZero([], |f.groundTruthObjects(gts, labels)|);
  }

  // ---------------------------------------------------------------------------
  // Map
  // ---------------------------------------------------------------------------

  /** `Map.__init__`: one `Ap` per target label, over that label alone and in label
      order, and their arithmetic mean. An empty label list returns early (the source
      logs a warning) and leaves the `Map` unconfigured. */
  method NewMap(results: seq<ObjectResult>, gts: seq<GroundTruthObject>, labels: seq<Label>,
                mode: MatchingMode, threshold: real, f: DetectionFilters) returns (r: Result<Map>)
    ensures r == MapOf(results, gts, labels, mode, threshold, f)
  {
    if labels == [] {
      return Success(Unconfigured);
    }
    var config := MapConfig(labels, mode, threshold);
    var aps: seq<Ap> := [];
    var k := 0;
    while k < |config.targetLabels|
      invariant 0 <= k <= |labels|
      invariant ApsOf(results, gts, labels[..k], mode, threshold, f) == Success(aps)
    {
      assert labels[..k + 1][..k] == labels[..k];
      var a := NewAp(results, gts, [labels[k]], mode, threshold, f);
      if a.Failure? {
        ApsOfPrefixFailure(results, gts, labels, k + 1, mode, threshold, f);
        return Failure(a.error);
      }
      aps := aps + [a.value];
      k := k + 1;
    }
    assert labels[..|labels|] == labels;
    assert ApsOf(results, gts, labels, mode, threshold, f) == Success(aps);
    var sum := 0.0;
    k := 0;
    while k < |aps|
      invariant 0 <= k <= |aps|
      invariant sum == SumAp(aps[..k])
    {
      assert aps[..k + 1][..k] == aps[..k];
      sum := sum + aps[k].ap;
      k := k + 1;
    }
    assert aps[..|aps|] == aps;
    assert sum == SumAp(aps);
    r := Success(Configured(config, aps, sum / |labels| as real));
  }

  /** Once a prefix of the labels fails, the whole list fails with the same error. */
  lemma {:induction false} ApsOfPrefixFailure(results: seq<ObjectResult>, gts: seq<GroundTruthObject>,
                                              labels: seq<Label>, k: nat, mode: MatchingMode,
                                              threshold: real, f: DetectionFilters)
    requires k <= |labels|
    requires ApsOf(results, gts, labels[..k], mode, threshold, f).Failure?
    ensures ApsOf(results, gts, labels, mode, threshold, f) == ApsOf(results, gts, labels[..k], mode, threshold, f)
    decreases |labels|
  {
    if k < |labels| {
      var init := labels[..|labels| - 1];
      assert init[..k] == labels[..k];
      ApsOfPrefixFailure(results, gts, init, k, mode, threshold, f);
    } else {
      assert labels[..k] == labels;
    }
  }

  /** `ApsOf` succeeds exactly when every label's `Ap` does, and then holds those `Ap`s in
      label order. */
  lemma {:induction false} ApsOfShape(results: seq<ObjectResult>, gts: seq<GroundTruthObject>,
                                      labels: seq<Label>, mode: MatchingMode, threshold: real,
                                      f: DetectionFilters)
    ensures ApsOf(results, gts, labels, mode, threshold, f).Success? <==>
            forall k :: 0 <= k < |labels| ==> ApOf(results, gts, [labels[k]], mode, threshold, f).Success?
    ensures ApsOf(results, gts, labels, mode, threshold, f).Success? ==>
            var aps := ApsOf(results, gts, labels, mode, threshold, f).value;
            && |aps| == |labels|
            && forall k :: 0 <= k < |labels| ==> aps[k] == ApOf(results, gts, [labels[k]], mode, threshold, f).value
    decreases |labels|
  {
    if labels != [] {
      var init := labels[..|labels| - 1];
      ApsOfShape(results, gts, init, mode, threshold, f);
      assert forall k :: 0 <= k < |init| ==> init[k] == labels[k];
    }
  }

  /** A configured `Map` has one `Ap` per label, in label order, each over that one label
      with the map's mode and threshold, and `meanAp` (the source's `map`) is their mean over all labels. */
  lemma MapOfShape(results: seq<ObjectResult>, gts: seq<GroundTruthObject>, labels: seq<Label>,
                   mode: MatchingMode, threshold: real, f: DetectionFilters)
    ensures MapOf(results, gts, labels, mode, threshold, f).Failure? <==>
            exists k :: 0 <= k < |labels| && ApOf(results, gts, [labels[k]], mode, threshold, f).Failure?
    ensures MapOf(results, gts, labels, mode, threshold, f) == Success(Unconfigured) <==> labels == []
    ensures MapOf(results, gts, labels, mode, threshold, f).Success? && labels != [] ==>
            var m := MapOf(results, gts, labels, mode, threshold, f).value;
            && m.Configured?
            && m.mapConfig == MapConfig(labels, mode, threshold)
            && |m.aps| == |labels|
            && (forall k :: 0 <= k < |labels| ==>
                  m.aps[k].targetLabels == [labels[k]] && m.aps[k].matchingMode == mode
                  && m.aps[k].matchingThreshold == threshold)
            && m.meanAp == SumAp(m.aps) / |labels| as real
  {
    ApsOfShape(results, gts, labels, mode, threshold, f);
  }

  lemma {:induction false} SumApBounds(aps: seq<Ap>, lo: real, hi: real)
    requires forall k :: 0 <= k < |aps| ==> lo <= aps[k].ap <= hi
    ensures |aps| as real * lo <= SumAp(aps) <= |aps| as real * hi
    decreases |aps|
  {
    if aps != [] {
      SumApBounds(aps[..|aps| - 1], lo, hi);
    }
  }

  /** The mean lies within the range of the per-label APs; in particular it lies in [0, 1]
      when every AP does. */
  lemma MapWithinApRange(m: Map, lo: real, hi: real)
    requires m.Configured? && |m.aps| > 0 && m.meanAp == SumAp(m.aps) / |m.aps| as real
    requires forall k :: 0 <= k < |m.aps| ==> lo <= m.aps[k].ap <= hi
    ensures lo <= m.meanAp <= hi
  {
    var n := |m.aps| as real;
    SumApBounds(m.aps, lo, hi);
    assert m.meanAp * n == SumAp(m.aps);
    assert lo * n <= m.meanAp * n <= hi * n;
  }

  /** The mAP of any built `Map` lies in [0, 1]: at least 0 always, and at most 1 when no
      label has more correctly labelled records than ground-truth objects. */
  lemma MapOfMeanAp(results: seq<ObjectResult>, gts: seq<GroundTruthObject>, labels: seq<Label>,
                    mode: MatchingMode, threshold: real, f: DetectionFilters)
    requires MapOf(results, gts, labels, mode, threshold, f).Success? && labels != []
    ensures 0.0 <= MapOf(results, gts, labels, mode, threshold, f).value.meanAp
    ensures (forall k :: 0 <= k < |labels| ==>
               Count(f.tpObjects(results, [labels[k]], mode, threshold), true)
               <= |f.groundTruthObjects(gts, [labels[k]])|) ==>
            MapOf(results, gts, labels, mode, threshold, f).value.meanAp <= 1.0
  {
    var aps := ApsOf(results, gts, labels, mode, threshold, f).value;
    ApsOfShape(results, gts, labels, mode, threshold, f);
    forall k | 0 <= k < |aps|
      ensures 0.0 <= aps[k].ap
      ensures (Count(f.tpObjects(results, [labels[k]], mode, threshold), true)
               <= |f.groundTruthObjects(gts, [labels[k]])|) ==> aps[k].ap <= 1.0
    {
      ApValueBounds(f.tpObjects(results, [labels[k]], mode, threshold),
                    |f.groundTruthObjects(gts, [labels[k]])|);
    }
    SumApNonNegative(aps);
    QuotientMonotone(SumAp(aps), SumAp(aps), |labels| as real);
    if forall k :: 0 <= k < |labels| ==>
         Count(f.tpObjects(results, [labels[k]], mode, threshold), true)
         <= |f.groundTruthObjects(gts, [labels[k]])| {
      MapWithinApRange(MapOf(results, gts, labels, mode, threshold, f).value, 0.0, 1.0);
    }
  }

  lemma {:induction false} SumApNonNegative(aps: seq<Ap>)
    requires forall k :: 0 <= k < |aps| ==> 0.0 <= aps[k].ap
    ensures 0.0 <= SumAp(aps)
    decreases |aps|
  {
    if aps != [] {
      SumApNonNegative(aps[..|aps| - 1]);
    }
  }

  /** A label without ground truth but with records gets AP 0 and still counts in the
      divisor: a label with AP 0.625 and such a label give mAP 0.3125. */
  lemma ExampleMeanOfTwo(results: seq<ObjectResult>, gts: seq<GroundTruthObject>, l1: Label, l2: Label,
                         mode: MatchingMode, threshold: real, f: DetectionFilters)
    requires ApOf(results, gts, [l1], mode, threshold, f).Success?
    requires ApOf(results, gts, [l1], mode, threshold, f).value.ap == 0.625
    requires f.tpObjects(results, [l2], mode, threshold) != [] && f.groundTruthObjects(gts, [l2]) == []
    ensures MapOf(results, gts, [l1, l2], mode, threshold, f).Success?
    ensures var m := MapOf(results, gts, [l1, l2], mode, threshold, f).value;
            |m.aps| == 2 && m.aps[1].ap == 0.0 && m.meanAp == 0.3125
  {
    ApValueZero(f.tpObjects(results, [l2], mode, threshold), 0);
    var a := ApOf(results, gts, [l1], mode, threshold, f).value;
    var b := ApOf(results, gts, [l2], mode, threshold, f).value;
    assert b.ap == 0.0;
    ApsOfShape(results, gts, [l1, l2], mode, threshold, f);
    var aps := ApsOf(results, gts, [l1, l2], mode, threshold, f).value;
    assert aps[0] == a && aps[1] == b;
    assert |aps| == 2 && aps[..1] == [a] && [a][..0] == [];
    assert SumAp([a]) == 0.625;
    assert SumAp(aps) == SumAp([a]) + b.ap;
  }

  /** A label with neither records nor ground truth makes the whole `Map` fail, because
      building its `Ap` reads the first of no records. */
  lemma MapOfEmptyLabelFails(results: seq<ObjectResult>, gts: seq<GroundTruthObject>, l1: Label, l2: Label,
                             mode: MatchingMode, threshold: real, f: DetectionFilters)
    requires ApOf(results, gts, [l1], mode, threshold, f).Success?
    requires f.tpObjects(results, [l2], mode, threshold) == [] && f.groundTruthObjects(gts, [l2]) == []
    ensures MapOf(results, gts, [l1, l2], mode, threshold, f) == Failure(IndexOutOfRange)
  {
    assert ApOf(results, gts, [l2], mode, threshold, f) == Failure(IndexOutOfRange);
    assert [l1, l2][..1] == [l1];
    assert [l1][..0] == [];
    assert ApsOf(results, gts, [l1], mode, threshold, f).Success?;
  }
}
