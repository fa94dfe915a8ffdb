/** Specification functions for one Average Precision run, and what is proved about them.

    The imperative steps of `map.py` are proved against these definitions in module
    `Detection`: cumulative TP/FP counts, the precision/recall curve, and the
    all-point interpolated Average Precision of PASCAL VOC (2010 onward). */
module ApSpec {
  import opened Objects

  // ---------------------------------------------------------------------------
  // Cumulative TP / FP counts
  // ---------------------------------------------------------------------------

  /** Number of records in `s` whose label-correctness flag is `b`. */
  function Count(s: seq<ObjectResult>, b: bool): (n: nat)
    ensures n <= |s|
  {
    if s == [] then 0
    else Count(s[..|s| - 1], b) + (if s[|s| - 1].isLabelCorrect == b then 1 else 0)
  }

  /** `tp[i]`: records among the first `i + 1` whose label is correct. */
  function TpCounts(rs: seq<ObjectResult>): seq<nat>
  {
    seq(|rs|, i requires 0 <= i < |rs| => Count(rs[..i + 1], true))
  }

  /** `fp[i]`: records among the first `i + 1` whose label is not correct. */
  function FpCounts(rs: seq<ObjectResult>): seq<nat>
  {
    seq(|rs|, i requires 0 <= i < |rs| => Count(rs[..i + 1], false))
  }

  lemma {:induction false} CountSplit(s: seq<ObjectResult>)
    ensures Count(s, true) + Count(s, false) == |s|
  {
    if s != [] {
      CountSplit(s[..|s| - 1]);
    }
  }

  /** Every prefix of length `i + 1` is split between TP and FP. */
  lemma TpPlusFp(rs: seq<ObjectResult>, i: nat)
    requires i < |rs|
    ensures TpCounts(rs)[i] + FpCounts(rs)[i] == i + 1
  {
    CountSplit(rs[..i + 1]);
  }

  /** The first count and each later one, as `_calculate_tp_fp` computes them. */
  lemma TpStep(rs: seq<ObjectResult>, i: nat)
    requires i < |rs|
    ensures TpCounts(rs)[i] ==
      (if i == 0 then 0 else TpCounts(rs)[i - 1]) + (if rs[i].isLabelCorrect then 1 else 0)
  {
    assert rs[..i + 1][..i] == rs[..i];
    if i == 0 {
      assert rs[..0] == [];
    }
  }

  /** TP counts never fall and rise by at most one per record. */
  lemma {:induction false} TpMonotone(rs: seq<ObjectResult>, i: nat, j: nat)
    requires i <= j < |rs|
    ensures TpCounts(rs)[i] <= TpCounts(rs)[j] <= TpCounts(rs)[i] + (j - i)
    decreases j - i
  {
    if i < j {
      TpMonotone(rs, i, j - 1);
      TpStep(rs, j);
    }
  }

  // ---------------------------------------------------------------------------
  // Precision and recall
  // ---------------------------------------------------------------------------

  function Precisions(tp: seq<nat>): seq<real>
  {
    seq(|tp|, i requires 0 <= i < |tp| => tp[i] as real / (i + 1) as real)
  }

  function Recalls(tp: seq<nat>, gtNum: nat): seq<real>
  {
    seq(|tp|, i requires 0 <= i < |tp| => if gtNum > 0 then tp[i] as real / gtNum as real else 0.0)
  }

  ghost predicate NonDecreasing(s: seq<real>)
  {
    forall i, j :: 0 <= i <= j < |s| ==> s[i] <= s[j]
  }

  ghost predicate NonIncreasing(s: seq<real>)
  {
    forall i, j :: 0 <= i <= j < |s| ==> s[i] >= s[j]
  }

  ghost predicate InUnitInterval(s: seq<real>)
  {
    forall i :: 0 <= i < |s| ==> 0.0 <= s[i] <= 1.0
  }

  lemma QuotientAtMostOne(a: real, b: real)
    requires 0.0 <= a <= b && 0.0 < b
    ensures 0.0 <= a / b <= 1.0
  {
    assert a / b * b == a;
  }

  lemma QuotientMonotone(a: real, b: real, c: real)
    requires 0.0 <= a <= b && 0.0 < c
    ensures 0.0 <= a / c <= b / c
  {
    assert a / c * c == a && b / c * c == b;
  }

  /** The precision of the first `i + 1` records is the fraction of them labelled correctly. */
  lemma PrecisionInUnitInterval(rs: seq<ObjectResult>)
    ensures |Precisions(TpCounts(rs))| == |rs|
    ensures InUnitInterval(Precisions(TpCounts(rs)))
  {
    var p := Precisions(TpCounts(rs));
    forall i | 0 <= i < |p| ensures 0.0 <= p[i] <= 1.0 {
      QuotientAtMostOne(TpCounts(rs)[i] as real, (i + 1) as real);
    }
  }

  /** Recall never falls along the ranking, never goes below zero, and its last value
      is the share of the ground truth found by the whole list. */
  lemma RecallNonDecreasing(rs: seq<ObjectResult>, gtNum: nat)
    ensures |Recalls(TpCounts(rs), gtNum)| == |rs|
    ensures NonDecreasing(Recalls(TpCounts(rs), gtNum))
    ensures forall i :: 0 <= i < |rs| ==> 0.0 <= Recalls(TpCounts(rs), gtNum)[i]
    ensures |rs| > 0 ==>
              Recalls(TpCounts(rs), gtNum)[|rs| - 1] ==
              (if gtNum > 0 then Count(rs, true) as real / gtNum as real else 0.0)
  {
    var tp := TpCounts(rs);
    var r := Recalls(tp, gtNum);
    forall i, j | 0 <= i <= j < |r| ensures 0.0 <= r[i] <= r[j] {
      TpMonotone(rs, i, j);
      if gtNum > 0 {
        QuotientMonotone(tp[i] as real, tp[j] as real, gtNum as real);
      }
    }
    if |rs| > 0 {
      assert rs[..|rs|] == rs;
    }
  }

  /** When no more records are labelled correctly than there are ground-truth objects,
      every recall lies in [0, 1]. */
  lemma RecallInUnitInterval(rs: seq<ObjectResult>, gtNum: nat)
    requires Count(rs, true) <= gtNum
    ensures InUnitInterval(Recalls(TpCounts(rs), gtNum))
  {
    var tp := TpCounts(rs);
    var r := Recalls(tp, gtNum);
    RecallNonDecreasing(rs, gtNum);
    forall i | 0 <= i < |r| ensures 0.0 <= r[i] <= 1.0 {
      if gtNum > 0 {
        TpMonotone(rs, i, |rs| - 1);
        assert rs[..|rs|] == rs;
        QuotientAtMostOne(tp[i] as real, gtNum as real);
      }
    }
  }

  // ---------------------------------------------------------------------------
  // Interpolated Average Precision
  // ---------------------------------------------------------------------------

  function Max(a: real, b: real): real
  {
    if a >= b then a else b
  }

  /** Interpolated precision at rank `i`: the best precision at rank `i` or below. */
  function MaxFrom(p: seq<real>, i: nat): real
    requires i < |p|
    decreases |p| - i
  {
    if i == |p| - 1 then p[i] else Max(p[i], MaxFrom(p, i + 1))
  }

  /** Recall before rank `i`, taking 0 before the first rank. */
  function Prev(r: seq<real>, i: nat): real
    requires i <= |r|
  {
    if i == 0 then 0.0 else r[i - 1]
  }

  /** How much recall rises at rank `i`. */
  function RecallStep(r: seq<real>, i: nat): real
    requires i < |r|
  {
    r[i] - Prev(r, i)
  }

  /** Sum over ranks `i..` of the recall step at each rank times its interpolated precision. */
  function Tail(p: seq<real>, r: seq<real>, i: nat): real
    requires |p| == |r| && i <= |p|
    decreases |p| - i
  {
    if i == |p| then 0.0 else RecallStep(r, i) * MaxFrom(p, i) + Tail(p, r, i + 1)
  }

  /** All-point interpolated AP: the area under the interpolated precision/recall curve. */
  function InterpolatedAp(p: seq<real>, r: seq<real>): real
    requires |p| == |r|
  {
    Tail(p, r, 0)
  }

  /** Area of a step curve given as parallel lists of precisions and recalls:
      the sum of `q[k] * (s[k] - s[k + 1])` over consecutive points. */
  function Area(q: seq<real>, s: seq<real>): real
    requires |q| == |s|
    decreases |q|
  {
    if |q| < 2 then 0.0
    else Area(q[..|q| - 1], s[..|s| - 1]) + q[|q| - 2] * (s[|q| - 2] - s[|q| - 1])
  }

  lemma {:induction false} AreaSnoc(q: seq<real>, s: seq<real>, x: real, y: real)
    requires |q| == |s| >= 1
    ensures Area(q + [x], s + [y]) == Area(q, s) + q[|q| - 1] * (s[|s| - 1] - y)
  {
    var q', s' := q + [x], s + [y];
    assert q'[..|q'| - 1] == q;
    assert s'[..|s'| - 1] == s;
    assert q'[|q'| - 2] == q[|q| - 1];
    assert s'[|q'| - 2] == s[|s| - 1] && s'[|q'| - 1] == y;
  }

  /** Summing the area front to back: one more point adds one more step. */
  lemma AreaPrefixStep(q: seq<real>, s: seq<real>, i: nat)
    requires |q| == |s| && i + 1 < |q|
    ensures Area(q[..i + 2], s[..i + 2]) == Area(q[..i + 1], s[..i + 1]) + q[i] * (s[i] - s[i + 1])
  {
    assert q[..i + 2][..i + 1] == q[..i + 1];
    assert s[..i + 2][..i + 1] == s[..i + 1];
  }

  lemma {:induction false} MaxFromBounds(p: seq<real>, i: nat)
    requires i < |p|
    requires InUnitInterval(p)
    ensures 0.0 <= MaxFrom(p, i) <= 1.0
    ensures p[i] <= MaxFrom(p, i)
    decreases |p| - i
  {
    if i < |p| - 1 {
      MaxFromBounds(p, i + 1);
    }
  }

  lemma TailUnfold(p: seq<real>, r: seq<real>, i: nat)
    requires |p| == |r| && i < |p|
    ensures Tail(p, r, i) == RecallStep(r, i) * MaxFrom(p, i) + Tail(p, r, i + 1)
  {
  }

  /** One term of the tail sum lies between 0 and its recall step. */
  lemma TailTermBounds(p: seq<real>, r: seq<real>, i: nat)
    requires |p| == |r| && i < |p|
    requires NonDecreasing(r) && 0.0 <= r[0] && InUnitInterval(p)
    ensures 0.0 <= RecallStep(r, i) * MaxFrom(p, i) <= RecallStep(r, i)
  {
    MaxFromBounds(p, i);
    assert 0.0 <= RecallStep(r, i);
    StepTimesUnit(RecallStep(r, i), MaxFrom(p, i));
  }

  lemma StepTimesUnit(d: real, m: real)
    requires 0.0 <= d && 0.0 <= m <= 1.0
    ensures 0.0 <= d * m <= d
  {
    assert d * m <= d * 1.0;
  }

  /** Adding a term bounded by one recall step to a rest bounded by the recall after it. */
  lemma AddStepBounds(total: real, term: real, rest: real, lo: real, mid: real, hi: real)
    requires total == term + rest && 0.0 <= term <= mid - lo && 0.0 <= rest <= hi - mid
    ensures 0.0 <= total <= hi - lo
  {
  }

  lemma {:induction false} TailBounds(p: seq<real>, r: seq<real>, i: nat)
    requires |p| == |r| && i < |p|
    requires NonDecreasing(r) && 0.0 <= r[0] && InUnitInterval(p)
    ensures 0.0 <= Tail(p, r, i) <= r[|r| - 1] - Prev(r, i)
    decreases |p| - i
  {
    TailTermBounds(p, r, i);
    TailUnfold(p, r, i);
    if i < |p| - 1 {
      TailBounds(p, r, i + 1);
      assert Prev(r, i + 1) == r[i];
    } else {
      assert Tail(p, r, i + 1) == 0.0;
    }
    AddStepBounds(Tail(p, r, i), RecallStep(r, i) * MaxFrom(p, i), Tail(p, r, i + 1),
                  Prev(r, i), r[i], r[|r| - 1]);
  }

  /** With recall non-decreasing from a non-negative start and precision in [0, 1],
      AP lies between 0 and the final recall. */
  lemma ApBounds(p: seq<real>, r: seq<real>)
    requires |p| == |r|
    requires NonDecreasing(r) && InUnitInterval(p)
    requires |r| > 0 ==> 0.0 <= r[0]
    ensures 0.0 <= InterpolatedAp(p, r)
    ensures |r| > 0 ==> InterpolatedAp(p, r) <= r[|r| - 1]
  {
    if |p| > 0 {
      TailBounds(p, r, 0);
    }
  }

  lemma {:induction false} TailZeroRecall(p: seq<real>, r: seq<real>, i: nat)
    requires |p| == |r| && i <= |p|
    requires forall k :: 0 <= k < |r| ==> r[k] == 0.0
    ensures Tail(p, r, i) == 0.0
    decreases |p| - i
  {
    if i < |p| {
      TailZeroRecall(p, r, i + 1);
    }
  }

  // ---------------------------------------------------------------------------
  // One AP run over already-filtered records
  // ---------------------------------------------------------------------------

  /** The AP of records in ranked order against `gtNum` ground-truth objects. */
  function ApValue(rs: seq<ObjectResult>, gtNum: nat): real
  {
    InterpolatedAp(Precisions(TpCounts(rs)), Recalls(TpCounts(rs), gtNum))
  }

  /** AP is never negative and never exceeds the final recall; it is at most 1 whenever
      no more records are correct than there are ground-truth objects. */
  lemma ApValueBounds(rs: seq<ObjectResult>, gtNum: nat)
    ensures 0.0 <= ApValue(rs, gtNum)
    ensures |rs| > 0 ==> ApValue(rs, gtNum) <= Recalls(TpCounts(rs), gtNum)[|rs| - 1]
    ensures Count(rs, true) <= gtNum ==> ApValue(rs, gtNum) <= 1.0
  {
    PrecisionInUnitInterval(rs);
    RecallNonDecreasing(rs, gtNum);
    ApBounds(Precisions(TpCounts(rs)), Recalls(TpCounts(rs), gtNum));
    if Count(rs, true) <= gtNum && |rs| > 0 {
      RecallInUnitInterval(rs, gtNum);
    }
  }

  /** AP is zero without ground truth and without records. */
  lemma ApValueZero(rs: seq<ObjectResult>, gtNum: nat)
    requires gtNum == 0 || rs == []
    ensures ApValue(rs, gtNum) == 0.0
  {
    TailZeroRecall(Precisions(TpCounts(rs)), Recalls(TpCounts(rs), gtNum), 0);
  }

  // ---------------------------------------------------------------------------
  // The worked examples of the doc-comments
  // ---------------------------------------------------------------------------

  /** A record as the matcher leaves it: a correct one is matched with the ground-truth
      object `id`, an incorrect one with nothing. */
  function Flagged(b: bool, id: nat): ObjectResult
  {
    if b then ObjectResult("car", true, Some(GroundTruthObject(id, "car")))
    else ObjectResult("car", false, None)
  }

  /** Flags [T, F, T, T] give tp = [1, 1, 2, 3] and fp = [0, 1, 1, 1]. */
  lemma ExampleTpFp()
    ensures TpCounts([Flagged(true, 1), Flagged(false, 0), Flagged(true, 2), Flagged(true, 3)]) == [1, 1, 2, 3]
    ensures FpCounts([Flagged(true, 1), Flagged(false, 0), Flagged(true, 2), Flagged(true, 3)]) == [0, 1, 1, 1]
  {
    var rs := [Flagged(true, 1), Flagged(false, 0), Flagged(true, 2), Flagged(true, 3)];
    assert rs[..1][..0] == [];
    assert rs[..2][..1] == rs[..1];
    assert rs[..3][..2] == rs[..2];
    assert rs[..4][..3] == rs[..3];
    assert Count(rs[..1], true) == 1 && Count(rs[..1], false) == 0;
    assert Count(rs[..2], true) == 1 && Count(rs[..2], false) == 1;
    assert Count(rs[..3], true) == 2 && Count(rs[..3], false) == 1;
    assert Count(rs[..4], true) == 3 && Count(rs[..4], false) == 1;
  }

  /** tp = [1, 1, 2, 3] with four ground-truth objects gives the listed precision and
      recall, and these give AP = 0.625. */
  lemma ExampleAp()
    ensures Precisions([1, 1, 2, 3]) == [1.0, 0.5, 2.0 / 3.0, 0.75]
    ensures Recalls([1, 1, 2, 3], 4) == [0.25, 0.25, 0.5, 0.75]
    ensures InterpolatedAp([1.0, 0.5, 2.0 / 3.0, 0.75], [0.25, 0.25, 0.5, 0.75]) == 0.625
  {
    var p := [1.0, 0.5, 2.0 / 3.0, 0.75];
    var r := [0.25, 0.25, 0.5, 0.75];
    assert MaxFrom(p, 3) == 0.75;
    assert MaxFrom(p, 2) == 0.75;
    assert MaxFrom(p, 1) == 0.75;
    assert MaxFrom(p, 0) == 1.0;
    assert Tail(p, r, 4) == 0.0;
    assert Tail(p, r, 3) == 0.1875;
    assert Tail(p, r, 2) == 0.375;
    assert Tail(p, r, 1) == 0.375;
  }

  /** The two examples chained: flags [T, F, T, T] against four ground-truth objects. */
  lemma ExampleApValue()
    ensures ApValue([Flagged(true, 1), Flagged(false, 0), Flagged(true, 2), Flagged(true, 3)], 4) == 0.625
  {
    ExampleTpFp();
    ExampleAp();
  }
}
