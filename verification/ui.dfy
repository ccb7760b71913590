/** The tension display: a bar whose width is the tension as a clamped
    percentage and whose colour is one of three bands, plus the tracking
    status line. The DOM elements are modelled by the values written to
    them; event listeners are outside the model. */
module UI {
  import opened Numeric

  /** Tension below this is shown green. */
  const OrangeFrom: real := 0.3
  /** Tension from this on is shown red. */
  const RedFrom: real := 0.7

  datatype Band = Green | Orange | Red

  /** What the display currently shows. */
  datatype View = View(barWidth: real, barBackground: string, status: string)

  /** `Math.min(100, Math.max(0, value * 100))`, the bar width in percent. */
  function Percent(value: real): (p: real)
    ensures 0.0 <= p <= 100.0
    ensures p == 100.0 * Clamp01(value)
  {
    Min(100.0, Max(0.0, value * 100.0))
  }

  /** A larger tension never gives a narrower bar. */
  lemma PercentMonotone(v1: real, v2: real)
    requires v1 <= v2
    ensures Percent(v1) <= Percent(v2)
  {
    Clamp01Monotone(v1, v2);
  }

  /** The colour band of a tension value. */
  function BandOf(value: real): (b: Band)
    ensures b == Green <==> value < OrangeFrom
    ensures b == Orange <==> OrangeFrom <= value < RedFrom
    ensures b == Red <==> RedFrom <= value
  {
    if value < 0.3 then Green
    else if value < 0.7 then Orange
    else Red
  }

  /** Position of a band in the order green < orange < red. */
  function Rank(b: Band): nat
  {
    match b
    case Green => 0
    case Orange => 1
    case Red => 2
  }

  /** A larger tension never selects an earlier band. */
  lemma BandMonotone(v1: real, v2: real)
    requires v1 <= v2
    ensures Rank(BandOf(v1)) <= Rank(BandOf(v2))
  {
  }

  /** The CSS background of each band. */
  function Background(b: Band): (css: string)
    ensures |css| == 7 && css[0] == '#'
    ensures forall i :: 1 <= i < |css| ==> css[i] in "0123456789abcdef"
  {
    match b
    case Green => "#00ff88"
    case Orange => "#ffaa00"
    case Red => "#ff0055"
  }

  /** The three bands are told apart on screen. */
  lemma BackgroundsDistinct(b1: Band, b2: Band)
    requires b1 != b2
    ensures Background(b1) != Background(b2)
  {
    assert Background(b1)[1] != Background(b2)[1] || Background(b1)[3] != Background(b2)[3];
  }

  /** `updateTension`: set the bar's width and background; the status line
      is left alone. */
  function UpdateTension(view: View, value: real): (r: View)
    ensures 0.0 <= r.barWidth <= 100.0
    ensures r.barWidth == 100.0 * Clamp01(value)
    ensures r.barBackground == Background(BandOf(value))
    ensures r.status == view.status
  {
    view.(barWidth := Percent(value), barBackground := Background(BandOf(value)))
  }

  /** `setTrackingStatus`: replace the status line, nothing else. */
  function SetTrackingStatus(view: View, status: string): (r: View)
    ensures r.status == status
    ensures r.barWidth == view.barWidth && r.barBackground == view.barBackground
  {
    view.(status := status)
  }
}
