/** The per-frame pass/fail classifier (`perception_pass_fail_result.py`).

    A `PassFailResult` holds four lists that every `Evaluate` overwrites: the critical
    ground-truth objects of the frame, the false negatives among them, and the true and
    false positive object results. With `leaveOnlyCriticalFp` set, only the false
    positives whose matched ground truth is critical are kept. The object filter, the
    TP/FP divider and the FN finder are collaborators whose code is not part of this
    model; they are function-valued parameters. */
module PassFail {
  import opened Objects

  /** A 4x4 ego-to-map transform, passed through to the object filter unchanged. */
  type Transform = seq<seq<real>>

  datatype PerceptionPassFailConfig = PerceptionPassFailConfig(
    targetLabels: seq<Label>,
    matchingMode: MatchingMode,
    matchingThresholdList: seq<real>,
    leaveOnlyCriticalFp: bool)

  /** Keyword arguments handed to the object filter that selects critical objects. */
  datatype CriticalObjectFilterConfig = CriticalObjectFilterConfig(filteringParams: map<string, real>)

  /** `filter_objects` (ground-truth side), `divide_tp_fp_objects` and `get_fn_objects`. */
  datatype PassFailCollaborators = PassFailCollaborators(
    filterObjects: (seq<GroundTruthObject>, Option<Transform>, CriticalObjectFilterConfig) -> seq<GroundTruthObject>,
    divideTpFpObjects: (seq<ObjectResult>, seq<Label>, MatchingMode, seq<real>) -> (seq<ObjectResult>, seq<ObjectResult>),
    getFnObjects: (seq<GroundTruthObject>, seq<ObjectResult>, seq<ObjectResult>) -> seq<GroundTruthObject>)

  /** A false positive is critical when a critical list is given and the ground truth it
      was matched with is a member of that list. */
  predicate IsCritical(r: ObjectResult, critical: Option<seq<GroundTruthObject>>)
  {
    critical.Some? && r.groundTruthObject.Some? && r.groundTruthObject.value in critical.value
  }

  /** The critical false positives, in their original order. */
  function CriticalFps(fps: seq<ObjectResult>, critical: Option<seq<GroundTruthObject>>): (r: seq<ObjectResult>)
    ensures |r| <= |fps|
    decreases |fps|
  {
    if fps == [] then []
    else
      var kept := CriticalFps(fps[..|fps| - 1], critical);
      if IsCritical(fps[|fps| - 1], critical) then kept + [fps[|fps| - 1]] else kept
  }

  /** What `get_tp_fp_object_results` returns: the divided TPs, and the divided FPs,
      narrowed to the critical ones when the configuration asks for it. */
  function TpFpObjectResults(config: PerceptionPassFailConfig, col: PassFailCollaborators,
                             objectResults: seq<ObjectResult>, critical: Option<seq<GroundTruthObject>>)
    : (seq<ObjectResult>, seq<ObjectResult>)
  {
    var divided := col.divideTpFpObjects(objectResults, config.targetLabels, config.matchingMode,
                                         config.matchingThresholdList);
    if config.leaveOnlyCriticalFp then (divided.0, CriticalFps(divided.1, critical)) else divided
  }

  class PassFailResult {
    const criticalObjectFilterConfig: CriticalObjectFilterConfig
    const frameConfig: PerceptionPassFailConfig
    const ego2map: Option<Transform>
    var criticalGroundTruthObjects: seq<GroundTruthObject>
    var fnObjects: seq<GroundTruthObject>
    var fpObjectResults: seq<ObjectResult>
    var tpObjectResults: seq<ObjectResult>

    /** A fresh result holds four empty lists, so it has no fail object. */
    constructor (filterConfig: CriticalObjectFilterConfig, passFailConfig: PerceptionPassFailConfig,
                 transform: Option<Transform>)
      ensures criticalObjectFilterConfig == filterConfig && frameConfig == passFailConfig && ego2map == transform
      ensures criticalGroundTruthObjects == [] && fnObjects == [] && fpObjectResults == [] && tpObjectResults == []
      ensures FailObjectNum() == 0
    {
      criticalObjectFilterConfig := filterConfig;
      frameConfig := passFailConfig;
      ego2map := transform;
      criticalGroundTruthObjects := [];
      fnObjects := [];
      fpObjectResults := [];
      tpObjectResults := [];
    }

    /** `get_fail_object_num`: false negatives plus false positives; zero exactly when
        both lists are empty. */
    function FailObjectNum(): (n: nat)
      reads this
      ensures n == 0 <==> fnObjects == [] && fpObjectResults == []
      ensures |fpObjectResults| <= n && |fnObjects| <= n
    {
      |fnObjects| + |fpObjectResults|
    }

    /** `evaluate`: selects the critical ground truths of the frame, divides the results
        into TPs and FPs by label, matching mode and thresholds alone, narrows the FPs to
        those matched with a critical ground truth when the restriction is on, and finds
        the FNs among the selected critical objects. All four lists are replaced; nothing
        of the previous frame is kept. */
    method Evaluate(objectResults: seq<ObjectResult>, rosCriticalGroundTruthObjects: seq<GroundTruthObject>,
                    col: PassFailCollaborators)
      modifies this
      ensures criticalGroundTruthObjects
              == col.filterObjects(rosCriticalGroundTruthObjects, ego2map, criticalObjectFilterConfig)
      ensures (tpObjectResults, fpObjectResults)
              == TpFpObjectResults(frameConfig, col, objectResults, Some(criticalGroundTruthObjects))
      ensures fnObjects == col.getFnObjects(criticalGroundTruthObjects, objectResults, tpObjectResults)
      ensures var divided := col.divideTpFpObjects(objectResults, frameConfig.targetLabels,
                                                   frameConfig.matchingMode, frameConfig.matchingThresholdList);
              && FailObjectNum() <= |fnObjects| + |divided.1|
              && (!frameConfig.leaveOnlyCriticalFp ==> FailObjectNum() == |fnObjects| + |divided.1|)
              && (frameConfig.leaveOnlyCriticalFp && criticalGroundTruthObjects == [] ==>
                    FailObjectNum() == |fnObjects|)
    {
      criticalGroundTruthObjects := col.filterObjects(rosCriticalGroundTruthObjects, ego2map, criticalObjectFilterConfig);
      tpObjectResults, fpObjectResults := GetTpFpObjectResults(objectResults, Some(criticalGroundTruthObjects), col);
      fnObjects := col.getFnObjects(criticalGroundTruthObjects, objectResults, tpObjectResults);
      CriticalFpsOfFrame(frameConfig, col, objectResults, criticalGroundTruthObjects);
    }

    /** `get_tp_fp_object_results`: the TPs as divided; the FPs as divided, or, with
        `leaveOnlyCriticalFp`, those of them whose ground truth is in the critical list,
        kept in order by a filtering loop. */
    method GetTpFpObjectResults(objectResults: seq<ObjectResult>, critical: Option<seq<GroundTruthObject>>,
                                col: PassFailCollaborators)
      returns (tp: seq<ObjectResult>, fp: seq<ObjectResult>)
      ensures var divided := col.divideTpFpObjects(objectResults, frameConfig.targetLabels,
                                                   frameConfig.matchingMode, frameConfig.matchingThresholdList);
              && tp == divided.0
              && (!frameConfig.leaveOnlyCriticalFp ==> fp == divided.1)
              && (frameConfig.leaveOnlyCriticalFp ==>
                    forall r :: r in fp <==> r in divided.1 && IsCritical(r, critical))
      ensures (tp, fp) == TpFpObjectResults(frameConfig, col, objectResults, critical)
    {
      var divided := col.divideTpFpObjects(objectResults, frameConfig.targetLabels,
                                           frameConfig.matchingMode, frameConfig.matchingThresholdList);
      tp := divided.0;
      if !frameConfig.leaveOnlyCriticalFp {
        return tp, divided.1;
      }
      var fps := divided.1;
      fp := [];
      for i := 0 to |fps|
        invariant fp == CriticalFps(fps[..i], critical)
      {
        assert fps[..i + 1][..i] == fps[..i];
        if IsCritical(fps[i], critical) {
          fp := fp + [fps[i]];
        }
      }
      assert fps[..|fps|] == fps;
      CriticalFpsMembership(fps, critical);
    }
  }

  /** An object result is kept exactly when it is one of the FPs and is critical. */
  lemma {:induction false} CriticalFpsMembership(fps: seq<ObjectResult>, critical: Option<seq<GroundTruthObject>>)
    ensures forall r :: r in CriticalFps(fps, critical) <==> r in fps && IsCritical(r, critical)
    decreases |fps|
  {
    if fps != [] {
      var init := fps[..|fps| - 1];
      CriticalFpsMembership(init, critical);
      assert fps == init + [fps[|fps| - 1]];
    }
  }

  /** The filter works element by element: filtering a concatenation filters each part
      and keeps them in order. */
  lemma {:induction false} CriticalFpsAppend(a: seq<ObjectResult>, b: seq<ObjectResult>,
                                             critical: Option<seq<GroundTruthObject>>)
    ensures CriticalFps(a + b, critical) == CriticalFps(a, critical) + CriticalFps(b, critical)
    decreases |b|
  {
    if b == [] {
      assert a + b == a;
    } else {
      var init, last := b[..|b| - 1], b[|b| - 1];
      CriticalFpsAppend(a, init, critical);
      var ab := a + b;
      assert ab[..|ab| - 1] == a + init && ab[|ab| - 1] == last;
      var kept := CriticalFps(a, critical) + CriticalFps(init, critical);
      assert CriticalFps(ab, critical) == if IsCritical(last, critical) then kept + [last] else kept;
      assert CriticalFps(b, critical)
             == if IsCritical(last, critical) then CriticalFps(init, critical) + [last] else CriticalFps(init, critical);
    }
  }

  /** Without a critical list, or with an empty one, no FP is kept however many there are. */
  lemma {:induction false} CriticalFpsWithoutCritical(fps: seq<ObjectResult>, critical: Option<seq<GroundTruthObject>>)
    requires critical.None? || critical.value == []
    ensures CriticalFps(fps, critical) == []
    decreases |fps|
  {
    if fps != [] {
      CriticalFpsWithoutCritical(fps[..|fps| - 1], critical);
    }
  }

  /** When every FP is critical the filter keeps them all, and conversely. */
  lemma {:induction false} CriticalFpsKeepsAll(fps: seq<ObjectResult>, critical: Option<seq<GroundTruthObject>>)
    ensures CriticalFps(fps, critical) == fps <==> forall k :: 0 <= k < |fps| ==> IsCritical(fps[k], critical)
    decreases |fps|
  {
    if fps != [] {
      var init := fps[..|fps| - 1];
      CriticalFpsKeepsAll(init, critical);
      if !IsCritical(fps[|fps| - 1], critical) {
        assert |CriticalFps(fps, critical)| < |fps|;
      }
    }
  }

  /** Filtering the critical FPs a second time changes nothing. */
  lemma CriticalFpsIdempotent(fps: seq<ObjectResult>, critical: Option<seq<GroundTruthObject>>)
    ensures CriticalFps(CriticalFps(fps, critical), critical) == CriticalFps(fps, critical)
  {
    var kept := CriticalFps(fps, critical);
    CriticalFpsMembership(fps, critical);
    CriticalFpsKeepsAll(kept, critical);
    assert forall k :: 0 <= k < |kept| ==> kept[k] in kept;
  }

  /** The FPs a frame keeps: with the restriction off, all divided FPs; with it on, never
      more, and none when the critical list is empty. */
  lemma CriticalFpsOfFrame(config: PerceptionPassFailConfig, col: PassFailCollaborators,
                         objectResults: seq<ObjectResult>, critical: seq<GroundTruthObject>)
    ensures var divided := col.divideTpFpObjects(objectResults, config.targetLabels, config.matchingMode,
                                                 config.matchingThresholdList);
            var fps := TpFpObjectResults(config, col, objectResults, Some(critical)).1;
            && (!config.leaveOnlyCriticalFp ==> fps == divided.1)
            && |fps| <= |divided.1|
            && (config.leaveOnlyCriticalFp && critical == [] ==> fps == [])
  {
    var divided := col.divideTpFpObjects(objectResults, config.targetLabels, config.matchingMode,
                                         config.matchingThresholdList);
    if config.leaveOnlyCriticalFp && critical == [] {
      CriticalFpsWithoutCritical(divided.1, Some(critical));
    }
  }

  /** A worked frame: of three FPs matched with g1, nothing and g2, only the one matched
      with the critical g2 is kept. */
  lemma ExampleCriticalFps()
    ensures var g1 := GroundTruthObject(1, "car");
            var g2 := GroundTruthObject(2, "pedestrian");
            var a := ObjectResult("car", false, Some(g1));
            var b := ObjectResult("bicycle", false, None);
            var c := ObjectResult("car", false, Some(g2));
            CriticalFps([a, b, c], Some([g2])) == [c]
            && CriticalFps([a, b, c], None) == []
  {
    var g1 := GroundTruthObject(1, "car");
    var g2 := GroundTruthObject(2, "pedestrian");
    var a := ObjectResult("car", false, Some(g1));
    var b := ObjectResult("bicycle", false, None);
    var c := ObjectResult("car", false, Some(g2));
    assert [a, b, c][..2] == [a, b];
    assert [a, b][..1] == [a];
    assert [a][..0] == [];
    assert !IsCritical(a, Some([g2])) && !IsCritical(b, Some([g2])) && IsCritical(c, Some([g2]));
    assert CriticalFps([a], Some([g2])) == [];
    assert CriticalFps([a, b], Some([g2])) == [];
    assert CriticalFps([a], None) == [];
    assert CriticalFps([a, b], None) == [];
  }
}
