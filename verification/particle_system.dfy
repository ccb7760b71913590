/** The particle morph engine: a buffer of particle positions, a parallel
    buffer of per-shape target positions and a colour buffer, all flat with
    three entries (x y z, or r g b) per particle. Shape selection replaces
    the targets, colour selection recolours every particle, and each tick
    moves every particle a tenth of the way toward its scaled, possibly
    jittered target.

    Every `Math.random()` draw is a parameter in [0, 1). The shape
    generators' trigonometry is outside the model: a generator is the
    parameter `generate`, and only the index partition of the Saturn
    generator is modelled. */
module ParticleSystem {
  import opened Numeric
  import opened Wrappers

  /** Particle count the engine is constructed with. */
  const DefaultCount: nat := 20000
  /** Fraction of the remaining distance covered per tick. */
  const Speed: real := 0.1
  /** Extra scale of the targets per unit of interaction. */
  const ExpansionGain: real := 2.0
  /** Jitter is added only above this interaction value. */
  const JitterThreshold: real := 0.1
  /** Half-width of the per-particle colour variation. */
  const ColorSpread: real := 0.1

  datatype Shape = Heart | Flower | Saturn | Buddha | Fireworks

  datatype Color = Color(r: real, g: real, b: real)

  /** The engine state. `targetInteraction` and `currentInteraction` are the
      two properties the application loop stores on the engine object; None
      stands for a property that was never assigned. The slow rotation of the
      rendered object is not part of the state. */
  datatype System = System(
    count: nat,
    currentShape: string,
    positions: seq<real>,
    targetPositions: seq<real>,
    colors: seq<real>,
    baseColor: Color,
    targetInteraction: Option<real>,
    currentInteraction: Option<real>)

  predicate InUnitRange(c: seq<real>)
  {
    forall j :: 0 <= j < |c| ==> 0.0 <= c[j] <= 1.0
  }

  predicate DrawsInRange(draws: seq<real>)
  {
    forall j :: 0 <= j < |draws| ==> 0.0 <= draws[j] < 1.0
  }

  /** The engine invariant: the three buffers hold three entries per
      particle, and every colour channel lies in [0, 1]. */
  predicate Valid(s: System)
  {
    && |s.positions| == 3 * s.count
    && |s.targetPositions| == 3 * s.count
    && |s.colors| == 3 * s.count
    && InUnitRange(s.colors)
  }

  // ---------------------------------------------------------------------
  // Construction

  /** The engine after construction: particles scattered uniformly in the
      cube [-5, 5)^3, every particle in the base colour, heart targets. */
  method Create(count: nat, base: Color, draws: seq<real>, generate: Shape -> seq<real>)
    returns (s: System)
    requires 0.0 <= base.r <= 1.0 && 0.0 <= base.g <= 1.0 && 0.0 <= base.b <= 1.0
    requires |draws| == 3 * count && DrawsInRange(draws)
    requires |generate(Heart)| == 3 * count
    ensures Valid(s)
    ensures s.currentShape == "heart" && s.targetPositions == generate(Heart)
    ensures s.baseColor == base
    ensures s.targetInteraction == None && s.currentInteraction == None
    ensures forall j :: 0 <= j < |s.positions| ==> s.positions[j] == Scatter(draws[j])
    ensures forall j :: 0 <= j < |s.positions| ==> -5.0 <= s.positions[j] < 5.0
    ensures forall i :: 0 <= i < count ==>
              s.colors[3 * i] == base.r && s.colors[3 * i + 1] == base.g && s.colors[3 * i + 2] == base.b
  {
    var positions := seq(3 * count, j => 0.0);
    var colors := seq(3 * count, j => 0.0);
    for i := 0 to count
      invariant |positions| == 3 * count && |colors| == 3 * count
      invariant forall j :: 0 <= j < 3 * i ==> positions[j] == Scatter(draws[j])
      invariant forall j :: 3 * i <= j < 3 * count ==> positions[j] == 0.0
      invariant forall k :: 0 <= k < i ==>
                  colors[3 * k] == base.r && colors[3 * k + 1] == base.g && colors[3 * k + 2] == base.b
      invariant forall j :: 3 * i <= j < 3 * count ==> colors[j] == 0.0
    {
      positions := positions[3 * i := Scatter(draws[3 * i])];
      positions := positions[3 * i + 1 := Scatter(draws[3 * i + 1])];
      positions := positions[3 * i + 2 := Scatter(draws[3 * i + 2])];
      colors := colors[3 * i := base.r][3 * i + 1 := base.g][3 * i + 2 := base.b];
    }
    assert InUnitRange(colors) by {
      forall j | 0 <= j < |colors|
        ensures 0.0 <= colors[j] <= 1.0
      {
        var k := j / 3;
        assert j == 3 * k || j == 3 * k + 1 || j == 3 * k + 2;
      }
    }
    s := System(count, "heart", positions, seq(3 * count, j => 0.0), colors, base, None, None);
    s := SetShape(s, "heart", generate);
  }

  /** One initial coordinate, `(Math.random() - 0.5) * 10`. */
  function Scatter(draw: real): (c: real)
    requires 0.0 <= draw < 1.0
    ensures -5.0 <= c < 5.0
  {
    (draw - 0.5) * 10.0
  }

  // ---------------------------------------------------------------------
  // Shape selection

  /** The shape names the selection buttons send. */
  const ShapeNames: set<string> := {"heart", "flower", "saturn", "buddha", "fireworks"}

  /** The generator `setShape` dispatches to; any unknown name falls back to
      the heart. */
  function ShapeOf(shapeType: string): (k: Shape)
    ensures k == Flower <==> shapeType == "flower"
    ensures k == Saturn <==> shapeType == "saturn"
    ensures k == Buddha <==> shapeType == "buddha"
    ensures k == Fireworks <==> shapeType == "fireworks"
    ensures k == Heart <==> (shapeType == "heart" || shapeType !in ShapeNames)
  {
    if shapeType == "heart" then Heart
    else if shapeType == "flower" then Flower
    else if shapeType == "saturn" then Saturn
    else if shapeType == "buddha" then Buddha
    else if shapeType == "fireworks" then Fireworks
    else Heart
  }

  /** The name under which each shape is selected. */
  function NameOf(k: Shape): (name: string)
    ensures name in ShapeNames
  {
    match k
    case Heart => "heart"
    case Flower => "flower"
    case Saturn => "saturn"
    case Buddha => "buddha"
    case Fireworks => "fireworks"
  }

  /** Every shape is reachable by its name, and the names are distinct. */
  lemma ShapeNamesRoundTrip(k: Shape)
    ensures ShapeOf(NameOf(k)) == k
  {
  }

  /** `setShape`: record the given name, run the selected generator and copy
      its whole buffer into the targets. The particles themselves do not
      move; they reach the new shape through later ticks. */
  method SetShape(s: System, shapeType: string, generate: Shape -> seq<real>) returns (r: System)
    requires Valid(s)
    requires |generate(ShapeOf(shapeType))| == 3 * s.count
    ensures Valid(r)
    ensures r.currentShape == shapeType
    ensures r.targetPositions == generate(ShapeOf(shapeType))
    ensures shapeType !in ShapeNames ==> r.targetPositions == generate(Heart)
    ensures r == s.(currentShape := shapeType, targetPositions := r.targetPositions)
  {
    var generated := generate(ShapeOf(shapeType));
    var targets := s.targetPositions;
    for i := 0 to 3 * s.count
      invariant |targets| == 3 * s.count
      invariant forall j :: 0 <= j < i ==> targets[j] == generated[j]
    {
      targets := targets[i := generated[i]];
    }
    r := s.(currentShape := shapeType, targetPositions := targets);
  }

  // ---------------------------------------------------------------------
  // Colour selection

  /** The colour variation of one particle, `Math.random() * 0.2 - 0.1`. */
  function Variation(draw: real): (w: real)
    requires 0.0 <= draw < 1.0
    ensures -ColorSpread <= w < ColorSpread
  {
    draw * 0.2 - 0.1
  }

  /** `setColor`: store the base colour and give particle `i` the colour
      `base + w`, clamped per channel to [0, 1], where the one variation `w`
      drawn for the particle is shared by its three channels. */
  method SetColor(s: System, base: Color, draws: seq<real>) returns (r: System)
    requires Valid(s)
    requires |draws| == s.count && DrawsInRange(draws)
    ensures Valid(r)
    ensures r == s.(baseColor := base, colors := r.colors)
    ensures forall i :: 0 <= i < s.count ==>
              var w := Variation(draws[i]);
              && r.colors[3 * i] == Clamp01(base.r + w)
              && r.colors[3 * i + 1] == Clamp01(base.g + w)
              && r.colors[3 * i + 2] == Clamp01(base.b + w)
  {
    var colors := s.colors;
    for i := 0 to s.count
      invariant |colors| == 3 * s.count
      invariant InUnitRange(colors)
      invariant forall k :: 0 <= k < i ==>
                  var w := Variation(draws[k]);
                  && colors[3 * k] == Clamp01(base.r + w)
                  && colors[3 * k + 1] == Clamp01(base.g + w)
                  && colors[3 * k + 2] == Clamp01(base.b + w)
    {
      var variation := draws[i] * 0.2 - 0.1;
      colors := colors[3 * i := Max(0.0, Min(1.0, base.r + variation))];
      colors := colors[3 * i + 1 := Max(0.0, Min(1.0, base.g + variation))];
      colors := colors[3 * i + 2 := Max(0.0, Min(1.0, base.b + variation))];
    }
    r := s.(baseColor := base, colors := colors);
  }

  // ---------------------------------------------------------------------
  // Per-tick update

  /** `1 + interactionValue * 2`, the uniform scale applied to the targets. */
  function ExpansionFactor(v: real): (f: real)
    ensures 0.0 <= v <= 1.0 ==> 1.0 <= f <= 3.0
    ensures v == 0.0 ==> f == 1.0
  {
    1.0 + v * ExpansionGain
  }

  /** A larger interaction value never shrinks the expansion. */
  lemma ExpansionMonotone(v1: real, v2: real)
    requires v1 <= v2
    ensures ExpansionFactor(v1) <= ExpansionFactor(v2)
  {
  }

  /** One axis of jitter, `(Math.random() - 0.5) * interactionValue`. */
  function Jitter(draw: real, v: real): (o: real)
    requires 0.0 <= draw < 1.0
    ensures v > 0.0 ==> -v / 2.0 <= o < v / 2.0
  {
    JitterBounds(draw, v);
    (draw - 0.5) * v
  }

  lemma JitterBounds(draw: real, v: real)
    requires 0.0 <= draw < 1.0
    ensures v > 0.0 ==> -v / 2.0 <= (draw - 0.5) * v < v / 2.0
  {
    if v > 0.0 {
      var c := draw - 0.5;
      MulMonotone(v, -0.5, c);
      MulStrict(v, c, 0.5);
    }
  }

  lemma MulStrict(a: real, b: real, c: real)
    requires a > 0.0
    requires b < c
    ensures a * b < a * c
  {
    var d := c - b;
    MulPositive(a, d);
    assert a * d == a * c - a * b;
  }

  /** The point a coordinate with target `target` is pulled toward in one
      tick: the target scaled by the expansion factor, plus jitter when the
      interaction value exceeds the threshold. */
  function TickTarget(target: real, v: real, draw: real): (t: real)
    requires 0.0 <= draw < 1.0
    ensures v <= JitterThreshold ==> t == target * ExpansionFactor(v)
    ensures v > JitterThreshold ==>
              target * ExpansionFactor(v) - v / 2.0 <= t < target * ExpansionFactor(v) + v / 2.0
  {
    var scaled := target * ExpansionFactor(v);
    if v > JitterThreshold then scaled + Jitter(draw, v) else scaled
  }

  /** The loop body of `update` for one coordinate `p` with stored target
      `target`: scale, jitter above the threshold, then lerp. The new offset
      from the tick target is 0.9 of the old one, and the coordinate lands
      between where it was and the tick target. */
  function MoveCoordinate(p: real, target: real, v: real, draw: real): (q: real)
    requires 0.0 <= draw < 1.0
    ensures q - TickTarget(target, v, draw) == (1.0 - Speed) * (p - TickTarget(target, v, draw))
    ensures Between(q, p, TickTarget(target, v, draw))
  {
    LerpBetween(p, TickTarget(target, v, draw), Speed);
    var expansionFactor := 1.0 + v * 2.0;
    var t := target * expansionFactor;
    var t' := if v > 0.1 then t + (draw - 0.5) * v else t;
    p + (t' - p) * Speed
  }

  /** `update`: move every coordinate a tenth of the way toward its tick
      target. The coordinate's offset from that target shrinks to exactly
      0.9 of what it was, so it never overshoots; the targets, the colours
      and everything else are left as they were. */
  method Update(s: System, interactionValue: real, draws: seq<real>) returns (r: System)
    requires Valid(s)
    requires |draws| == 3 * s.count && DrawsInRange(draws)
    ensures Valid(r)
    ensures r == s.(positions := r.positions)
    ensures forall j :: 0 <= j < |r.positions| ==>
              var t := TickTarget(s.targetPositions[j], interactionValue, draws[j]);
              r.positions[j] - t == (1.0 - Speed) * (s.positions[j] - t)
    ensures forall j :: 0 <= j < |r.positions| ==>
              Between(r.positions[j], s.positions[j],
                      TickTarget(s.targetPositions[j], interactionValue, draws[j]))
  {
    var positions := s.positions;
    for i := 0 to s.count
      invariant |positions| == 3 * s.count
      invariant forall j :: 0 <= j < 3 * i ==>
                  positions[j] == MoveCoordinate(s.positions[j], s.targetPositions[j], interactionValue, draws[j])
      invariant forall j :: 3 * i <= j < 3 * s.count ==> positions[j] == s.positions[j]
    {
      var ix, iy, iz := i * 3, i * 3 + 1, i * 3 + 2;
      positions := positions[ix := MoveCoordinate(positions[ix], s.targetPositions[ix], interactionValue, draws[ix])];
      positions := positions[iy := MoveCoordinate(positions[iy], s.targetPositions[iy], interactionValue, draws[iy])];
      positions := positions[iz := MoveCoordinate(positions[iz], s.targetPositions[iz], interactionValue, draws[iz])];
    }
    r := s.(positions := positions);
  }

  /** One coordinate after successive `update` calls with the same stored
      target and interaction value, one draw per tick: what `Update` leaves
      at a fixed index when it is called `|draws|` times in a row. */
  function MoveTicks(p: real, target: real, v: real, draws: seq<real>): real
    requires DrawsInRange(draws)
  {
    if |draws| == 0 then p
    else MoveCoordinate(MoveTicks(p, target, v, draws[..|draws| - 1]), target, v, draws[|draws| - 1])
  }

  /** At or below the jitter threshold the draws do not matter: `m` ticks of
      a coordinate are `m` plain `Lerp` steps toward the scaled target. */
  lemma {:induction false} MoveTicksIsLerpIter(p: real, target: real, v: real, draws: seq<real>)
    requires v <= JitterThreshold
    requires DrawsInRange(draws)
    ensures MoveTicks(p, target, v, draws) == LerpIter(p, TickTarget(target, v, 0.0), Speed, |draws|)
  {
    if |draws| > 0 {
      var init := draws[..|draws| - 1];
      MoveTicksIsLerpIter(p, target, v, init);
      assert TickTarget(target, v, draws[|draws| - 1]) == TickTarget(target, v, 0.0);
      var x := LerpIter(p, TickTarget(target, v, 0.0), Speed, |init|);
      assert Lerp(x, TickTarget(target, v, 0.0), Speed) - TickTarget(target, v, 0.0)
             == (1.0 - Speed) * (x - TickTarget(target, v, 0.0));
    }
  }

  /** With fixed targets and an interaction value at or below the jitter
      threshold, a coordinate after `m` ticks is `(0.9)^m` of its initial
      offset from the scaled target. */
  lemma {:induction false} SteadyTicksClosedForm(p: real, target: real, v: real, draws: seq<real>)
    requires v <= JitterThreshold
    requires DrawsInRange(draws)
    ensures MoveTicks(p, target, v, draws) - TickTarget(target, v, 0.0)
            == Pow(0.9, |draws|) * (p - TickTarget(target, v, 0.0))
  {
    MoveTicksIsLerpIter(p, target, v, draws);
    LerpIterClosedForm(p, TickTarget(target, v, 0.0), Speed, |draws|);
  }

  /** Under the same conditions, enough ticks bring the coordinate within
      any positive distance of the scaled target, whatever the draws. */
  lemma SteadyTicksConverge(p: real, target: real, v: real, eps: real) returns (n: nat)
    requires v <= JitterThreshold
    requires eps > 0.0
    ensures forall draws :: |draws| == n && DrawsInRange(draws) ==>
              Abs(MoveTicks(p, target, v, draws) - TickTarget(target, v, 0.0)) < eps
  {
    n := LerpIterConverges(p, TickTarget(target, v, 0.0), Speed, eps);
    forall draws | |draws| == n && DrawsInRange(draws)
      ensures Abs(MoveTicks(p, target, v, draws) - TickTarget(target, v, 0.0)) < eps
    {
      MoveTicksIsLerpIter(p, target, v, draws);
    }
  }

  // ---------------------------------------------------------------------
  // Saturn generator: index partition

  /** `Math.floor(particleCount * 0.7)`, the number of ring particles, with
      the product taken exactly rather than as a double. */
  function RingCount(n: nat): (k: nat)
    ensures 10 * k <= 7 * n < 10 * k + 10
  {
    (7 * n) / 10
  }

  /** The number of planet particles, about 30% of all of them. */
  function SphereCount(n: nat): (k: nat)
    ensures k + RingCount(n) == n
    ensures 3 * n <= 10 * k < 3 * n + 10
  {
    n - RingCount(n)
  }

  /** At the engine's particle count the split is 14000 ring and 6000 planet
      particles. */
  lemma DefaultSaturnSplit()
    ensures RingCount(DefaultCount) == 14000 && SphereCount(DefaultCount) == 6000
  {
  }

  datatype Region = Planet | Ring

  /** The two loops of the Saturn generator, with the trigonometry left out:
      `region[i]` records which loop wrote particle `i` (None if neither did)
      and `writes[i]` how many times it was written. */
  method SaturnLayout(n: nat) returns (region: seq<Option<Region>>, writes: seq<nat>)
    ensures |region| == n && |writes| == n
    ensures forall i :: 0 <= i < n ==> writes[i] == 1
    ensures forall i :: 0 <= i < SphereCount(n) ==> region[i] == Some(Planet)
    ensures forall i :: SphereCount(n) <= i < n ==> region[i] == Some(Ring)
  {
    var ringCount := RingCount(n);
    var sphereCount := n - ringCount;
    region := seq(n, i => None);
    writes := seq(n, i => 0);
    for i := 0 to sphereCount
      invariant |region| == n && |writes| == n
      invariant forall k :: 0 <= k < i ==> region[k] == Some(Planet) && writes[k] == 1
      invariant forall k :: i <= k < n ==> region[k] == None && writes[k] == 0
    {
      region := region[i := Some(Planet)];
      writes := writes[i := writes[i] + 1];
    }
    for i := sphereCount to n
      invariant |region| == n && |writes| == n
      invariant forall k :: 0 <= k < sphereCount ==> region[k] == Some(Planet) && writes[k] == 1
      invariant forall k :: sphereCount <= k < i ==> region[k] == Some(Ring) && writes[k] == 1
      invariant forall k :: i <= k < n ==> region[k] == None && writes[k] == 0
    {
      region := region[i := Some(Ring)];
      writes := writes[i := writes[i] + 1];
    }
  }
}
