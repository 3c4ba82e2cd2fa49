/**
 * The per-particle update of one animation frame: a particle near the pointer is pushed
 * away from it, any other particle eases back towards its waving anchor.
 */
module Motion {
  import opened Wrappers
  import opened Particles
  import opened RealMath

  /** How strongly particles are pushed (at full force) before easing. */
  const REPULSION_STRENGTH: real := 65.0
  /** The fraction of the repulsion applied per frame. */
  const REPEL_EASING: real := 0.18
  /** The fraction of the way back to the wave target covered per frame. */
  const RETURN_EASING: real := 0.07
  /** The longest step a repelled particle takes in one frame: 65 x 0.18. */
  const MAX_STEP: real := 11.7

  /** The pointer reaches particles closer than this: 110 px on mobile, 160 px otherwise. */
  function InteractionRadius(mobile: bool): (r: real)
    ensures r > 0.0
  {
    if mobile then 110.0 else 160.0
  }

  /**
   * The distance from a particle to the pointer. A pointer at (-Infinity, -Infinity) is
   * infinitely far from every particle.
   */
  datatype Reach = Finite(d: real) | Infinite

  function PointerDistance(m: MathLib, pointer: Option<Point>, p: Particle): Reach
  {
    match pointer
    case None => Infinite
    case Some(q) => Finite(Hypot(m, q.x - p.x, q.y - p.y))
  }

  /** distance < bound, where an infinite distance is below no bound. */
  predicate Below(r: Reach, bound: real)
  {
    r.Finite? && r.d < bound
  }

  /**
   * distance < maxDistance && (isTouching || mouseX > -Infinity). The touch flag never
   * decides the outcome: a pointer within the radius is always a finite one.
   */
  function IsInteracting(m: MathLib, pointer: Option<Point>, touching: bool, p: Particle, mobile: bool): (b: bool)
    ensures b <==> pointer.Some? && Hypot(m, pointer.value.x - p.x, pointer.value.y - p.y) < InteractionRadius(mobile)
  {
    Below(PointerDistance(m, pointer, p), InteractionRadius(mobile)) && (touching || pointer.Some?)
  }

  /**
   * (maxDistance - distance) / maxDistance, with maxDistance the interaction radius: 1 at the
   * pointer, falling to 0 at the radius.
   */
  function Force(distance: real, mobile: bool): real
  {
    (InteractionRadius(mobile) - distance) / InteractionRadius(mobile)
  }

  lemma ForceInRange(distance: real, mobile: bool)
    requires 0.0 <= distance < InteractionRadius(mobile)
    ensures 0.0 < Force(distance, mobile) <= 1.0
    ensures distance == 0.0 ==> Force(distance, mobile) == 1.0
  {
  }

  /** The wave phase of a particle at a time in seconds. */
  function Phase(p: Particle, time: real): real
  {
    time * p.speed + p.angle
  }

  /** The wave target: the anchor displaced by (sin, cos) of the particle's phase, times its amplitude. */
  function WaveTarget(m: MathLib, p: Particle, time: real): Point
  {
    Point(p.baseX + m.sin(Phase(p, time)) * p.amplitude, p.baseY + m.cos(Phase(p, time)) * p.amplitude)
  }

  /** The position one frame later, through the repulsion branch of animate. */
  function Repel(m: MathLib, p: Particle, q: Point, mobile: bool): Particle
  {
    var dx := q.x - p.x;
    var dy := q.y - p.y;
    var force := Force(Hypot(m, dx, dy), mobile);
    var angle := m.atan2(dy, dx);
    var moveX := m.cos(angle) * force * REPULSION_STRENGTH;
    var moveY := m.sin(angle) * force * REPULSION_STRENGTH;
    p.(x := p.x + ((p.x - moveX) - p.x) * REPEL_EASING,
       y := p.y + ((p.y - moveY) - p.y) * REPEL_EASING)
  }

  /** The position one frame later, through the return branch of animate. */
  function Return(m: MathLib, p: Particle, time: real): Particle
  {
    var t := WaveTarget(m, p, time);
    p.(x := p.x + (t.x - p.x) * RETURN_EASING, y := p.y + (t.y - p.y) * RETURN_EASING)
  }

  /** The update of one particle in one frame of animate; only its position changes. */
  function Step(m: MathLib, p: Particle, pointer: Option<Point>, touching: bool, time: real, mobile: bool): (r: Particle)
    ensures SameButPosition(p, r)
  {
    if IsInteracting(m, pointer, touching, p, mobile) then Repel(m, p, pointer.value, mobile)
    else Return(m, p, time)
  }

  /** The fill colour of the particle in the frame: its accent while interacting, white otherwise. */
  function FrameColor(m: MathLib, p: Particle, pointer: Option<Point>, touching: bool, mobile: bool): (c: string)
    ensures c == (if pointer.Some? && Hypot(m, pointer.value.x - p.x, pointer.value.y - p.y) < InteractionRadius(mobile)
                  then p.scatteredColor else p.color)
  {
    if IsInteracting(m, pointer, touching, p, mobile) then p.scatteredColor else p.color
  }

  /** One frame applied to every particle, in order. */
  function StepAll(m: MathLib, ps: seq<Particle>, pointer: Option<Point>, touching: bool, time: real, mobile: bool): (r: seq<Particle>)
    ensures |r| == |ps|
  {
    seq(|ps|, i requires 0 <= i < |ps| => Step(m, ps[i], pointer, touching, time, mobile))
  }

  /** A frame moves particles and never changes their anchors, sizes, colours or wave parameters. */
  lemma StepAllKeepsIdentity(m: MathLib, ps: seq<Particle>, pointer: Option<Point>, touching: bool, time: real, mobile: bool)
    ensures var r := StepAll(m, ps, pointer, touching, time, mobile);
      |r| == |ps| && forall i :: 0 <= i < |ps| ==> SameButPosition(ps[i], r[i])
  {
    var r := StepAll(m, ps, pointer, touching, time, mobile);
    forall i | 0 <= i < |ps|
      ensures SameButPosition(ps[i], r[i])
    {
      assert r[i] == Step(m, ps[i], pointer, touching, time, mobile);
    }
  }

  /**
   * Away from the pointer a particle covers 7% of the way to its wave target: it stays between
   * its old position and the target, and its offset from the target shrinks to 93%.
   */
  lemma ReturnEases(m: MathLib, p: Particle, pointer: Option<Point>, touching: bool, time: real, mobile: bool)
    requires !IsInteracting(m, pointer, touching, p, mobile)
    ensures var r := Step(m, p, pointer, touching, time, mobile);
      var t := WaveTarget(m, p, time);
      && r.x - t.x == (p.x - t.x) * 0.93 && r.y - t.y == (p.y - t.y) * 0.93
      && (p.x <= r.x <= t.x || t.x <= r.x <= p.x)
      && (p.y <= r.y <= t.y || t.y <= r.y <= p.y)
  {
  }

  /** A particle already on its wave target stays there. */
  lemma ReturnFixesTarget(m: MathLib, p: Particle, pointer: Option<Point>, touching: bool, time: real, mobile: bool)
    requires !IsInteracting(m, pointer, touching, p, mobile)
    requires WaveTarget(m, p, time) == Point(p.x, p.y)
    ensures Step(m, p, pointer, touching, time, mobile) == p
  {
  }

  /** The wave target lies on the circle of radius amplitude around the anchor. */
  lemma {:induction false} WaveTargetOnCircle(m: MathLib, p: Particle, time: real)
    requires Sound(m)
    ensures var t := WaveTarget(m, p, time);
      Sq(t.x - p.baseX) + Sq(t.y - p.baseY) == Sq(p.amplitude)
  {
    var phase := Phase(p, time);
    var t := WaveTarget(m, p, time);
    WaveOffset(m, p, time);
    assert UnitCircle(m, phase);
    CircleScale(t.x - p.baseX, t.y - p.baseY, m.sin(phase), m.cos(phase), p.amplitude);
  }

  /** The wave target is the anchor displaced by (sin, cos) of the phase times the amplitude. */
  lemma WaveOffset(m: MathLib, p: Particle, time: real)
    ensures var phase := Phase(p, time);
      var t := WaveTarget(m, p, time);
      t.x - p.baseX == m.sin(phase) * p.amplitude && t.y - p.baseY == m.cos(phase) * p.amplitude
  {
  }

  /** A particle without wave amplitude (amplitude 0) returns to its anchor. */
  lemma WaveAtRest(m: MathLib, p: Particle, time: real)
    requires p.amplitude == 0.0
    ensures WaveTarget(m, p, time) == Point(p.baseX, p.baseY)
  {
  }

  /** The displacement of a repelled particle: 11.7 x force along the direction from it to the pointer, negated. */
  lemma RepelDisplacement(m: MathLib, p: Particle, q: Point, mobile: bool)
    ensures var a := m.atan2(q.y - p.y, q.x - p.x);
      var k := MAX_STEP * Force(Hypot(m, q.x - p.x, q.y - p.y), mobile);
      && Repel(m, p, q, mobile).x - p.x == m.cos(a) * -k
      && Repel(m, p, q, mobile).y - p.y == m.sin(a) * -k
  {
  }

  /** A vector (c, s) x k with c^2 + s^2 = 1 has squared length k^2. */
  lemma CircleScale(ux: real, uy: real, c: real, s: real, k: real)
    requires ux == c * k && uy == s * k
    requires Sq(c) + Sq(s) == 1.0
    ensures Sq(ux) + Sq(uy) == Sq(k)
  {
    assert Sq(ux) == Sq(c) * Sq(k);
    assert Sq(uy) == Sq(s) * Sq(k);
  }

  /** Moving from p by -c x k, where c x d = q - p, scales the offset p - q by (d + k) / d. */
  lemma AwayScale(r: real, p: real, q: real, c: real, d: real, k: real)
    requires c * d == q - p && r - p == c * -k
    ensures (r - q) * d == (p - q) * (d + k)
  {
    assert (r - q) * d == (r - p) * d + (p - q) * d;
    assert (r - p) * d == -(c * d) * k;
  }

  /**
   * r lies on the ray from the pointer q through p, (d + k) / d times as far from q as p is,
   * where d is p's distance to q.
   */
  predicate PushedAway(p: Particle, r: Particle, q: Point, d: real, k: real)
  {
    && (r.x - q.x) * d == (p.x - q.x) * (d + k)
    && (r.y - q.y) * d == (p.y - q.y) * (d + k)
  }

  /** Repel off the pointer q at distance d pushes p away from q by 11.7 x force. */
  lemma RepelScalesOffset(m: MathLib, p: Particle, q: Point, mobile: bool)
    requires var d := Hypot(m, q.x - p.x, q.y - p.y);
      var a := m.atan2(q.y - p.y, q.x - p.x);
      m.cos(a) * d == q.x - p.x && m.sin(a) * d == q.y - p.y
    ensures var d := Hypot(m, q.x - p.x, q.y - p.y);
      PushedAway(p, Repel(m, p, q, mobile), q, d, MAX_STEP * Force(d, mobile))
  {
    var d := Hypot(m, q.x - p.x, q.y - p.y);
    var a := m.atan2(q.y - p.y, q.x - p.x);
    var k := MAX_STEP * Force(d, mobile);
    var r := Repel(m, p, q, mobile);
    RepelDisplacement(m, p, q, mobile);
    AwayScale(r.x, p.x, q.x, m.cos(a), d, k);
    AwayScale(r.y, p.y, q.y, m.sin(a), d, k);
  }

  /** The repulsion branch, for a pointer q within the radius and off the particle. */
  lemma RepelAway(m: MathLib, p: Particle, q: Point, mobile: bool)
    requires Sound(m)
    requires Hypot(m, q.x - p.x, q.y - p.y) < InteractionRadius(mobile)
    requires q.x != p.x || q.y != p.y
    ensures var d := Hypot(m, q.x - p.x, q.y - p.y);
      var f := Force(d, mobile);
      && d > 0.0 && 0.0 < f <= 1.0
      && PushedAway(p, Repel(m, p, q, mobile), q, d, MAX_STEP * f)
  {
    Direction(m, q.x - p.x, q.y - p.y);
    ForceInRange(Hypot(m, q.x - p.x, q.y - p.y), mobile);
    RepelScalesOffset(m, p, q, mobile);
  }

  /** Repel moves a particle by 11.7 x force when (cos, sin) of the angle lie on the unit circle. */
  lemma RepelLength(m: MathLib, p: Particle, q: Point, mobile: bool)
    requires var a := m.atan2(q.y - p.y, q.x - p.x);
      Sq(m.cos(a)) + Sq(m.sin(a)) == 1.0
    ensures var r := Repel(m, p, q, mobile);
      var k := MAX_STEP * Force(Hypot(m, q.x - p.x, q.y - p.y), mobile);
      Sq(r.x - p.x) + Sq(r.y - p.y) == Sq(k)
  {
    var a := m.atan2(q.y - p.y, q.x - p.x);
    var k := MAX_STEP * Force(Hypot(m, q.x - p.x, q.y - p.y), mobile);
    var r := Repel(m, p, q, mobile);
    RepelDisplacement(m, p, q, mobile);
    CircleScale(r.x - p.x, r.y - p.y, m.cos(a), m.sin(a), -k);
    assert Sq(-k) == Sq(k);
  }

  /**
   * Near the pointer a particle moves straight away from it: its offset from the pointer is
   * scaled by (distance + 11.7 x force) / distance, where the force lies in (0, 1].
   */
  lemma {:induction false} RepelPushesAway(m: MathLib, p: Particle, pointer: Option<Point>, touching: bool, time: real, mobile: bool)
    requires Sound(m)
    requires IsInteracting(m, pointer, touching, p, mobile)
    requires pointer.value.x != p.x || pointer.value.y != p.y
    ensures var q := pointer.value;
      var d := Hypot(m, q.x - p.x, q.y - p.y);
      var f := Force(d, mobile);
      && d > 0.0 && 0.0 < f <= 1.0
      && PushedAway(p, Step(m, p, pointer, touching, time, mobile), q, d, MAX_STEP * f)
  {
    RepelAway(m, p, pointer.value, mobile);
  }

  /** Off the origin, (dx, dy) has positive length and is its length times (cos, sin) of atan2(dy, dx). */
  lemma Direction(m: MathLib, dx: real, dy: real)
    requires Sound(m)
    requires dx != 0.0 || dy != 0.0
    ensures var d := Hypot(m, dx, dy);
      var a := m.atan2(dy, dx);
      d > 0.0 && m.cos(a) * d == dx && m.sin(a) * d == dy
  {
    assert LengthLaw(m, dx, dy) && PolarLaw(m, dx, dy);
  }

  /**
   * Near the pointer a particle moves exactly 11.7 x force in one frame, and the force lies in
   * (0, 1], so no frame moves it further than 11.7 px.
   */
  lemma {:induction false} RepelStepLength(m: MathLib, p: Particle, pointer: Option<Point>, touching: bool, time: real, mobile: bool)
    requires Sound(m)
    requires IsInteracting(m, pointer, touching, p, mobile)
    ensures var r := Step(m, p, pointer, touching, time, mobile);
      var q := pointer.value;
      var f := Force(Hypot(m, q.x - p.x, q.y - p.y), mobile);
      && 0.0 < f <= 1.0
      && Sq(r.x - p.x) + Sq(r.y - p.y) == Sq(MAX_STEP * f)
      && 0.0 < MAX_STEP * f <= MAX_STEP
  {
    var q := pointer.value;
    var d := Hypot(m, q.x - p.x, q.y - p.y);
    assert LengthLaw(m, q.x - p.x, q.y - p.y);
    ForceInRange(d, mobile);
    assert UnitCircle(m, m.atan2(q.y - p.y, q.x - p.x));
    assert Step(m, p, pointer, touching, time, mobile) == Repel(m, p, q, mobile);
    RepelLength(m, p, q, mobile);
  }

  /** A pointer exactly on a particle pushes it 11.7 px to the left, since atan2(0, 0) is 0. */
  lemma AtPointerFullForce(m: MathLib, p: Particle, touching: bool, time: real, mobile: bool)
    requires Sound(m)
    ensures var r := Step(m, p, Some(Point(p.x, p.y)), touching, time, mobile);
      r.x == p.x - MAX_STEP && r.y == p.y
  {
    assert LengthLaw(m, 0.0, 0.0);
    assert IsInteracting(m, Some(Point(p.x, p.y)), touching, p, mobile);
    assert m.atan2(0.0, 0.0) == 0.0;
  }

  /** Without a pointer no particle interacts, whatever the touch flag says. */
  lemma NoPointerNoInteraction(m: MathLib, p: Particle, touching: bool, time: real, mobile: bool)
    ensures Step(m, p, None, touching, time, mobile) == Return(m, p, time)
    ensures FrameColor(m, p, None, touching, mobile) == p.color
  {
  }
}
