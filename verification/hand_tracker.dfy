/** The hand-tension estimator: from the 21 landmarks of each detected hand
    to one "closed-ness" value in [0, 1], averaged over the hands of a frame.
    The camera, the hand-landmark detector and the callback plumbing around
    it are outside the model; a frame's detector output arrives as a
    parameter. */
module HandTracker {
  import opened Numeric
  import opened Wrappers

  /** A landmark in the detector's normalised image coordinates. */
  datatype Point = Point(x: real, y: real, z: real)

  /** One hand: the detector reports 21 landmarks per hand. */
  type Landmarks = seq<Point>

  /** A distance function between landmarks. The estimator's `distance` is
      the Euclidean one, characterised by `IsEuclidean` below, so no square
      root has to be computed in the model. */
  type Metric = (Point, Point) -> real

  const LandmarkCount: nat := 21
  const Wrist: nat := 0
  const MiddleMcp: nat := 9
  /** Thumb, index, middle, ring and pinky tips, in the order they are summed. */
  const Tips: seq<nat> := [4, 8, 12, 16, 20]

  /** Ratio of mean tip distance to hand size for a fully open hand (tension 0). */
  const OpenRatio: real := 2.2
  /** Ratio of mean tip distance to hand size for a closed fist (tension 1). */
  const ClosedRatio: real := 0.9

  /** The sum of squared coordinate differences under the square root of
      `distance`. */
  function SquaredDistance(p: Point, q: Point): (d: real)
    ensures d >= 0.0
  {
    (p.x - q.x) * (p.x - q.x) + (p.y - q.y) * (p.y - q.y) + (p.z - q.z) * (p.z - q.z)
  }

  /** `dist` is the Euclidean distance: non-negative, and its square is the
      sum of squared coordinate differences. */
  ghost predicate IsEuclidean(dist: Metric)
  {
    forall p, q :: dist(p, q) >= 0.0 && dist(p, q) * dist(p, q) == SquaredDistance(p, q)
  }

  lemma SquaredDistanceSymmetric(p: Point, q: Point)
    ensures SquaredDistance(p, q) == SquaredDistance(q, p)
  {
    assert (p.x - q.x) * (p.x - q.x) == (q.x - p.x) * (q.x - p.x);
    assert (p.y - q.y) * (p.y - q.y) == (q.y - p.y) * (q.y - p.y);
    assert (p.z - q.z) * (p.z - q.z) == (q.z - p.z) * (q.z - p.z);
  }

  /** Two non-negative reals with equal squares are equal. */
  lemma SquareRootUnique(a: real, b: real)
    requires a >= 0.0 && b >= 0.0
    requires a * a == b * b
    ensures a == b
  {
    var u, v := a - b, a + b;
    assert u * v == a * a - b * b;
    ZeroProduct(u, v);
  }

  lemma ZeroProduct(u: real, v: real)
    requires u * v == 0.0
    ensures u == 0.0 || v == 0.0
  {
  }

  /** `distance(p, q) == distance(q, p)`. */
  lemma DistanceSymmetric(dist: Metric, p: Point, q: Point)
    requires IsEuclidean(dist)
    ensures dist(p, q) == dist(q, p)
  {
    SquaredDistanceSymmetric(p, q);
    SquareRootUnique(dist(p, q), dist(q, p));
  }

  /** `distance(p, p) == 0`. */
  lemma DistanceToSelf(dist: Metric, p: Point)
    requires IsEuclidean(dist)
    ensures dist(p, p) == 0.0
  {
    assert SquaredDistance(p, p) == 0.0;
    SquareRootUnique(dist(p, p), 0.0);
  }

  /** Distance from the wrist to the middle-finger knuckle: the hand's scale. */
  function HandSize(lm: Landmarks, dist: Metric): real
    requires LandmarkCount <= |lm|
  {
    dist(lm[Wrist], lm[MiddleMcp])
  }

  /** The landmark sets the estimator can evaluate: enough landmarks to read
      index 20, and a non-zero hand size to divide by. */
  predicate ValidHand(lm: Landmarks, dist: Metric)
  {
    LandmarkCount <= |lm| && HandSize(lm, dist) != 0.0
  }

  /** Sum of the distances from the first `k` fingertips to the wrist,
      accumulated in the order of `Tips`. */
  function TipDistanceTotal(lm: Landmarks, dist: Metric, k: nat): real
    requires LandmarkCount <= |lm|
    requires k <= |Tips|
  {
    if k == 0 then 0.0
    else TipDistanceTotal(lm, dist, k - 1) + dist(lm[Tips[k - 1]], lm[Wrist])
  }

  function AvgTipDist(lm: Landmarks, dist: Metric): real
    requires LandmarkCount <= |lm|
  {
    TipDistanceTotal(lm, dist, |Tips|) / 5.0
  }

  /** The mean tip distance is the arithmetic mean of the distances from
      landmarks 4, 8, 12, 16 and 20 to the wrist. */
  lemma AvgTipDistIsMean(lm: Landmarks, dist: Metric)
    requires LandmarkCount <= |lm|
    ensures AvgTipDist(lm, dist)
         == (dist(lm[4], lm[0]) + dist(lm[8], lm[0]) + dist(lm[12], lm[0])
             + dist(lm[16], lm[0]) + dist(lm[20], lm[0])) / 5.0
  {
    assert TipDistanceTotal(lm, dist, 1) == dist(lm[4], lm[0]);
    assert TipDistanceTotal(lm, dist, 2) == TipDistanceTotal(lm, dist, 1) + dist(lm[8], lm[0]);
    assert TipDistanceTotal(lm, dist, 3) == TipDistanceTotal(lm, dist, 2) + dist(lm[12], lm[0]);
    assert TipDistanceTotal(lm, dist, 4) == TipDistanceTotal(lm, dist, 3) + dist(lm[16], lm[0]);
    assert TipDistanceTotal(lm, dist, 5) == TipDistanceTotal(lm, dist, 4) + dist(lm[20], lm[0]);
  }

  /** The openness ratio: mean tip distance over hand size. */
  function Ratio(lm: Landmarks, dist: Metric): real
    requires ValidHand(lm, dist)
  {
    AvgTipDist(lm, dist) / HandSize(lm, dist)
  }

  /** The calibrated map from openness ratio to tension: linear between the
      closed and open ratios, clamped to [0, 1] outside them. */
  function TensionOfRatio(ratio: real): (t: real)
    ensures 0.0 <= t <= 1.0
    ensures ratio >= OpenRatio ==> t == 0.0
    ensures ratio <= ClosedRatio ==> t == 1.0
    ensures ClosedRatio < ratio < OpenRatio ==> t == (OpenRatio - ratio) / (OpenRatio - ClosedRatio)
  {
    Clamp01((OpenRatio - ratio) / (OpenRatio - ClosedRatio))
  }

  /** A more open hand never reads as more tense. */
  lemma TensionNonIncreasing(r1: real, r2: real)
    requires r1 <= r2
    ensures TensionOfRatio(r2) <= TensionOfRatio(r1)
  {
    var a := (OpenRatio - r2) / (OpenRatio - ClosedRatio);
    var b := (OpenRatio - r1) / (OpenRatio - ClosedRatio);
    assert a <= b;
    Clamp01Monotone(a, b);
  }

  /** Halfway between the calibration ratios the tension is one half. */
  lemma TensionMidpoint()
    ensures TensionOfRatio(1.55) == 0.5
  {
  }

  /** `calculateHandTension`: the tension of one hand. */
  function CalculateHandTension(lm: Landmarks, dist: Metric): (t: real)
    requires ValidHand(lm, dist)
    ensures 0.0 <= t <= 1.0
    ensures Ratio(lm, dist) >= OpenRatio ==> t == 0.0
    ensures Ratio(lm, dist) <= ClosedRatio ==> t == 1.0
    ensures ClosedRatio < Ratio(lm, dist) < OpenRatio ==>
              t == (OpenRatio - Ratio(lm, dist)) / (OpenRatio - ClosedRatio)
  {
    TensionOfRatio(Ratio(lm, dist))
  }

  /** A hand whose knuckle is at distance 1 from the wrist and whose five
      tips are all at distance `d` from it has openness ratio `d`; at 2.2 it
      reads fully open, at 0.9 fully closed. */
  lemma CalibrationExamples(lm: Landmarks, dist: Metric, d: real)
    requires LandmarkCount <= |lm|
    requires dist(lm[0], lm[9]) == 1.0
    requires forall i :: 0 <= i < |Tips| ==> dist(lm[Tips[i]], lm[0]) == d
    ensures ValidHand(lm, dist) && Ratio(lm, dist) == d
    ensures d == 2.2 ==> CalculateHandTension(lm, dist) == 0.0
    ensures d == 0.9 ==> CalculateHandTension(lm, dist) == 1.0
  {
    assert dist(lm[Tips[0]], lm[0]) == d;
    assert dist(lm[Tips[1]], lm[0]) == d;
    assert dist(lm[Tips[2]], lm[0]) == d;
    assert dist(lm[Tips[3]], lm[0]) == d;
    assert dist(lm[Tips[4]], lm[0]) == d;
    AvgTipDistIsMean(lm, dist);
  }

  predicate AllValid(hands: seq<Landmarks>, dist: Metric)
  {
    forall i :: 0 <= i < |hands| ==> ValidHand(hands[i], dist)
  }

  /** Sum of the per-hand tensions, accumulated in detection order. */
  function TotalTension(hands: seq<Landmarks>, dist: Metric): (total: real)
    requires AllValid(hands, dist)
    ensures 0.0 <= total <= |hands| as real
  {
    if |hands| == 0 then 0.0
    else TotalTension(hands[..|hands| - 1], dist) + CalculateHandTension(hands[|hands| - 1], dist)
  }

  /** The estimator object: its latest value and whether a result callback
      was registered. */
  datatype Tracker = Tracker(interactionValue: real, hasCallback: bool)

  /** A freshly constructed tracker reads 0. */
  function NewTracker(hasCallback: bool): (tr: Tracker)
    ensures tr.interactionValue == 0.0 && tr.hasCallback == hasCallback
  {
    Tracker(0.0, hasCallback)
  }

  /** The state after a detector result, and the value passed to the
      callback (None when no callback is registered). */
  datatype Notified = Notified(tracker: Tracker, emitted: Option<real>)

  function HandsOf(multiHandLandmarks: Option<seq<Landmarks>>): seq<Landmarks>
  {
    multiHandLandmarks.GetOr([])
  }

  /** `onResults`: average the tensions of the detected hands (0 when there
      are none, or when the hand list is missing) and pass that value on. */
  function OnResults(tr: Tracker, multiHandLandmarks: Option<seq<Landmarks>>, dist: Metric): (n: Notified)
    requires AllValid(HandsOf(multiHandLandmarks), dist)
    ensures 0.0 <= n.tracker.interactionValue <= 1.0
    ensures |HandsOf(multiHandLandmarks)| == 0 ==> n.tracker.interactionValue == 0.0
    ensures |HandsOf(multiHandLandmarks)| > 0 ==>
              n.tracker.interactionValue * (|HandsOf(multiHandLandmarks)| as real)
              == TotalTension(HandsOf(multiHandLandmarks), dist)
    ensures n.tracker.hasCallback == tr.hasCallback
    ensures n.emitted == (if tr.hasCallback then Some(n.tracker.interactionValue) else None)
  {
    var hands := HandsOf(multiHandLandmarks);
    var value := Average(TotalTension(hands, dist), |hands|);
    Notified(tr.(interactionValue := value), if tr.hasCallback then Some(value) else None)
  }

  /** `handCount > 0 ? totalTension / handCount : 0`. */
  function Average(total: real, handCount: nat): (m: real)
    requires 0.0 <= total <= handCount as real
    ensures 0.0 <= m <= 1.0
    ensures handCount == 0 ==> m == 0.0
    ensures handCount > 0 ==> m * (handCount as real) == total
  {
    if handCount > 0 then
      DivideBounded(total, handCount as real);
      total / (handCount as real)
    else 0.0
  }

  lemma DivideBounded(total: real, count: real)
    requires count > 0.0
    requires 0.0 <= total <= count
    ensures 0.0 <= total / count <= 1.0
    ensures (total / count) * count == total
  {
  }

  /** With one hand the reported value is that hand's tension. */
  lemma OneHandIsItsTension(tr: Tracker, lm: Landmarks, dist: Metric)
    requires ValidHand(lm, dist)
    ensures AllValid([lm], dist)
    ensures OnResults(tr, Some([lm]), dist).tracker.interactionValue == CalculateHandTension(lm, dist)
  {
    assert [lm][..0] == [];
  }

  /** When every detected hand has the same tension `t`, the average is `t`. */
  lemma {:induction false} UniformHandsAverage(hands: seq<Landmarks>, dist: Metric, t: real)
    requires AllValid(hands, dist)
    requires forall i :: 0 <= i < |hands| ==> CalculateHandTension(hands[i], dist) == t
    ensures TotalTension(hands, dist) == (|hands| as real) * t
  {
    UniformHandsSum(hands, dist, t);
    CopiesIsProduct(|hands|, t);
  }

  /** `k` copies of `t` added up one at a time. */
  function Copies(k: nat, t: real): real
  {
    if k == 0 then 0.0 else Copies(k - 1, t) + t
  }

  /** Adding `t` up `k` times gives `k * t`. */
  lemma {:induction false} CopiesIsProduct(k: nat, t: real)
    ensures Copies(k, t) == (k as real) * t
  {
    if k > 0 {
      CopiesIsProduct(k - 1, t);
      AddOneMore(Copies(k, t), Copies(k - 1, t), t, k - 1, k, t);
    }
  }

  /** The sum of `k` hands that all have tension `t` is `t` added `k`
      times. */
  lemma {:induction false} UniformHandsSum(hands: seq<Landmarks>, dist: Metric, t: real)
    requires AllValid(hands, dist)
    requires forall i :: 0 <= i < |hands| ==> CalculateHandTension(hands[i], dist) == t
    ensures TotalTension(hands, dist) == Copies(|hands|, t)
  {
    if |hands| > 0 {
      var init := hands[..|hands| - 1];
      assert forall i :: 0 <= i < |init| ==> init[i] == hands[i];
      UniformHandsSum(init, dist, t);
      TotalTensionLast(hands, dist);
    }
  }

  /** One unfolding of the sum: the last hand's tension added to the sum of
      the others. */
  lemma {:induction false} TotalTensionLast(hands: seq<Landmarks>, dist: Metric)
    requires AllValid(hands, dist) && |hands| > 0
    ensures AllValid(hands[..|hands| - 1], dist)
    ensures TotalTension(hands, dist)
            == TotalTension(hands[..|hands| - 1], dist) + CalculateHandTension(hands[|hands| - 1], dist)
  {
  }

  /** A sum of `k` copies of `t` plus one more `t` is `k + 1` copies. */
  lemma {:induction false} AddOneMore(total: real, prev: real, last: real, k: nat, n: nat, t: real)
    requires prev == (k as real) * t && last == t && total == prev + last && n == k + 1
    ensures total == (n as real) * t
  {
  }
}
