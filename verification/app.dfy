/** The application loop that wires the estimator, the engine and the
    display together: the tracker callback latches the newest tension as the
    engine's target interaction, and every animation frame smooths the
    current interaction toward it and ticks the engine with the smoothed
    value. Scene, camera, renderer and the frame scheduler are outside the
    model; a frame is one call of `Animate`. */
module App {
  import opened Numeric
  import opened Wrappers
  import HandTracker
  import ParticleSystem
  import UI

  /** Fraction of the gap to the target interaction closed per frame. */
  const SmoothingFactor: real := 0.1

  const TrackingActive: string := "Tracking Active"
  const NoHandDetected: string := "No Hand Detected"

  datatype App = App(system: ParticleSystem.System, view: UI.View)

  /** JavaScript's `value || 0` for an engine property that may never have
      been assigned. */
  function OrZero(v: Option<real>): (r: real)
    ensures v == None ==> r == 0.0
    ensures v != None ==> r == v.value
  {
    v.GetOr(0.0)
  }

  /** The per-frame smoothing step `current + (target - current) * 0.1`:
      the result lies between the current value and the target, keeps [0, 1]
      when both are in it, and is 0.9 times as far from the target. */
  function Smooth(current: real, target: real): (s: real)
    ensures s - target == (1.0 - SmoothingFactor) * (current - target)
    ensures Between(s, current, target)
    ensures 0.0 <= current <= 1.0 && 0.0 <= target <= 1.0 ==> 0.0 <= s <= 1.0
  {
    LerpBetween(current, target, SmoothingFactor);
    Lerp(current, target, SmoothingFactor)
  }

  /** With a fixed target, each frame shrinks the distance to it by 0.9. */
  lemma SmoothContracts(current: real, target: real)
    ensures Abs(Smooth(current, target) - target) == 0.9 * Abs(current - target)
  {
    LerpDistance(current, target, SmoothingFactor);
  }

  /** The status line chosen by the tracker callback. */
  function StatusText(value: real): (status: string)
    ensures status == TrackingActive <==> value > 0.0
    ensures status == NoHandDetected <==> value <= 0.0
  {
    if value > 0.0 then TrackingActive else NoHandDetected
  }

  /** The tracker callback: show the raw value on the bar, choose the status
      line, and latch the value as the engine's target interaction. The
      smoothed current interaction and everything else in the engine stay as
      they were. */
  function OnTrackerValue(app: App, value: real): (r: App)
    ensures r.system == app.system.(targetInteraction := Some(value))
    ensures r.view.barWidth == 100.0 * Clamp01(value)
    ensures r.view.barBackground == UI.Background(UI.BandOf(value))
    ensures r.view.status == TrackingActive <==> value > 0.0
    ensures r.view.status == NoHandDetected <==> value <= 0.0
  {
    var view := UI.SetTrackingStatus(UI.UpdateTension(app.view, value), StatusText(value));
    App(app.system.(targetInteraction := Some(value)), view)
  }

  /** One detector result travelling through the estimator and into the
      callback, which the application always registers. */
  function OnHandResults(app: App, tr: HandTracker.Tracker,
                         multiHandLandmarks: Option<seq<HandTracker.Landmarks>>,
                         dist: HandTracker.Metric): (r: (App, HandTracker.Tracker))
    requires tr.hasCallback
    requires HandTracker.AllValid(HandTracker.HandsOf(multiHandLandmarks), dist)
    ensures r.1.hasCallback
    ensures 0.0 <= r.1.interactionValue <= 1.0
    ensures r.0.system == app.system.(targetInteraction := Some(r.1.interactionValue))
    ensures |HandTracker.HandsOf(multiHandLandmarks)| == 0 ==>
              r.0.system.targetInteraction == Some(0.0) && r.0.view.status == NoHandDetected
  {
    var n := HandTracker.OnResults(tr, multiHandLandmarks, dist);
    (OnTrackerValue(app, n.emitted.value), n.tracker)
  }

  /** A fully open hand (openness ratio at or above the open calibration
      ratio) leaves exactly the same trace as no hand at all: the same
      tracker value, the same target interaction and the same display. */
  lemma OpenHandLooksLikeNoHand(app: App, tr: HandTracker.Tracker,
                                lm: HandTracker.Landmarks, dist: HandTracker.Metric)
    requires tr.hasCallback
    requires HandTracker.ValidHand(lm, dist)
    requires HandTracker.Ratio(lm, dist) >= HandTracker.OpenRatio
    ensures HandTracker.AllValid([lm], dist)
    ensures OnHandResults(app, tr, Some([lm]), dist) == OnHandResults(app, tr, None, dist)
    ensures OnHandResults(app, tr, Some([lm]), dist).0.view.status == NoHandDetected
  {
    HandTracker.OneHandIsItsTension(tr, lm, dist);
  }

  /** One animation frame: smooth the current interaction toward the target
      (an unset value reads as 0), store it, and tick the engine with that
      same value. The display and the engine's targets, colours, shape and
      target interaction are untouched. */
  method Animate(app: App, draws: seq<real>) returns (r: App)
    requires ParticleSystem.Valid(app.system)
    requires |draws| == 3 * app.system.count && ParticleSystem.DrawsInRange(draws)
    ensures ParticleSystem.Valid(r.system)
    ensures r.view == app.view
    ensures r.system.currentInteraction.Some?
    ensures r.system == app.system.(positions := r.system.positions,
                                    currentInteraction := r.system.currentInteraction)
    ensures var current := OrZero(app.system.currentInteraction);
            var target := OrZero(app.system.targetInteraction);
            var smoothed := r.system.currentInteraction.value;
            && smoothed - target == (1.0 - SmoothingFactor) * (current - target)
            && Between(smoothed, current, target)
            && smoothed == Smooth(current, target)
    ensures forall j :: 0 <= j < |r.system.positions| ==>
              var t := ParticleSystem.TickTarget(app.system.targetPositions[j],
                                                 r.system.currentInteraction.value, draws[j]);
              r.system.positions[j] - t == (1.0 - ParticleSystem.Speed) * (app.system.positions[j] - t)
  {
    var target := OrZero(app.system.targetInteraction);
    var current := OrZero(app.system.currentInteraction);
    var smoothed := Smooth(current, target);
    var system := app.system.(currentInteraction := Some(smoothed));
    system := ParticleSystem.Update(system, smoothed, draws);
    r := app.(system := system);
  }

  /** The current interaction after `m` frames toward a fixed target: each
      `Animate` call stores `Smooth(current, target)` as the next current
      value, so `m` calls in a row leave this value behind. */
  function SmoothFrames(current: real, target: real, m: nat): real
  {
    if m == 0 then current else Smooth(SmoothFrames(current, target, m - 1), target)
  }

  /** The frame smoothing is the shared low-pass step at rate 0.1: `m` frames
      are `m` steps of it. */
  lemma {:induction false} SmoothFramesIsLerpIter(current: real, target: real, m: nat)
    ensures SmoothFrames(current, target, m) == LerpIter(current, target, SmoothingFactor, m)
  {
    if m > 0 {
      SmoothFramesIsLerpIter(current, target, m - 1);
    }
  }

  /** Once the hands are gone the target is 0, and the smoothed interaction
      decays geometrically: after `m` frames it is `0.9^m` times its start. */
  lemma {:induction false} NoHandClosedForm(current: real, m: nat)
    ensures SmoothFrames(current, 0.0, m) == Pow(0.9, m) * current
  {
    SmoothFramesIsLerpIter(current, 0.0, m);
    LerpIterClosedForm(current, 0.0, SmoothingFactor, m);
  }

  /** Enough frames without a hand bring the smoothed interaction within any
      positive `eps` of 0, and the expansion factor then lies within `2 eps`
      of 1 (the unexpanded shape). */
  lemma NoHandDecay(current: real, eps: real) returns (n: nat)
    requires eps > 0.0
    ensures Abs(SmoothFrames(current, 0.0, n)) < eps
    ensures Abs(ParticleSystem.ExpansionFactor(SmoothFrames(current, 0.0, n)) - 1.0) < 2.0 * eps
  {
    n := LerpIterConverges(current, 0.0, SmoothingFactor, eps);
    SmoothFramesIsLerpIter(current, 0.0, n);
  }
}
