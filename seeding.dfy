/**
 * Seeding the particle field from the glyph mask: the target particle count, the pixel
 * search of createParticle, and the capped attempt loop of createInitialParticles, as
 * functions of the Math.random() stream.
 */
module Seeding {
  import opened Wrappers
  import opened Particles
  import opened Glyph
  import opened Random
  import RealMath

  /** createParticle samples at most this many pixels. */
  const MAX_PIXEL_ATTEMPTS: nat := 150
  /** The particle density is calibrated on a 1920 x 1080 screen. */
  const REFERENCE_AREA: nat := 1920 * 1080
  const MIN_PARTICLES: nat := 900
  const MAX_PARTICLES: nat := 10000

  /** canvas.width * canvas.height, the area the particle count scales with. */
  function CanvasArea(width: nat, height: nat): nat
  {
    width * height
  }

  function BaseParticleCount(mobile: bool): nat
  {
    if mobile then 7000 else 6500
  }

  /**
   * Math.max(900, Math.min(10000, Math.floor(targetDensity * currentArea))), with the
   * density base / (1920 * 1080) applied in exact arithmetic.
   */
  function ParticleCount(mobile: bool, area: nat): (n: nat)
    ensures MIN_PARTICLES <= n <= MAX_PARTICLES
  {
    var scaled := BaseParticleCount(mobile) * area / REFERENCE_AREA;
    var capped := if scaled < MAX_PARTICLES then scaled else MAX_PARTICLES;
    if capped < MIN_PARTICLES then MIN_PARTICLES else capped
  }

  lemma {:induction false} DivMonotone(a: nat, b: nat, d: nat)
    requires a <= b && 0 < d
    ensures a / d <= b / d
  {
    var q1, q2 := a / d, b / d;
    assert a == q1 * d + a % d && b == q2 * d + b % d;
    if q1 > q2 {
      MulAtLeast(q1 - q2, d);
      assert false;
    }
  }

  lemma MulAtLeast(k: int, d: int)
    requires k >= 1 && d > 0
    ensures k * d >= d
  {
  }

  /** A larger canvas never gets fewer particles. */
  lemma {:induction false} ParticleCountMonotone(mobile: bool, area1: nat, area2: nat)
    requires area1 <= area2
    ensures ParticleCount(mobile, area1) <= ParticleCount(mobile, area2)
  {
    var b := BaseParticleCount(mobile);
    assert b * area1 <= b * area2;
    DivMonotone(b * area1, b * area2, REFERENCE_AREA);
  }

  /** A mobile canvas never gets fewer particles than a desktop one of the same area. */
  lemma {:induction false} MobileAtLeastDesktop(area: nat)
    ensures ParticleCount(false, area) <= ParticleCount(true, area)
  {
    DivMonotone(6500 * area, 7000 * area, REFERENCE_AREA);
  }

  /** The outcome of the pixel search: the accepted pixel, and the index of the next unused draw. */
  datatype Search = Found(x: int, y: int, next: nat) | Missed(next: nat)

  /**
   * The attempt loop of createParticle from attempt `attempt` on: two draws pick a pixel,
   * which is accepted when its alpha exceeds 128.
   */
  function FindPixel(data: seq<int>, width: nat, height: nat, draw: nat -> real, next: nat, attempt: nat): Search
    decreases MAX_PIXEL_ATTEMPTS - attempt
  {
    if attempt >= MAX_PIXEL_ATTEMPTS then Missed(next)
    else
      var x := Pick(Draw(draw, next), width);
      var y := Pick(Draw(draw, next + 1), height);
      if Accepts(data, width, x, y) then Found(x, y, next + 2)
      else FindPixel(data, width, height, draw, next + 2, attempt + 1)
  }

  /** One attempt of the loop: the next two draws name the pixel, and a miss moves on to the next attempt. */
  lemma FindPixelStep(data: seq<int>, width: nat, height: nat, draw: nat -> real, next: nat, attempt: nat, x: int, y: int)
    requires attempt < MAX_PIXEL_ATTEMPTS
    requires x == Pick(Draw(draw, next), width) && y == Pick(Draw(draw, next + 1), height)
    ensures Accepts(data, width, x, y) ==> FindPixel(data, width, height, draw, next, attempt) == Found(x, y, next + 2)
    ensures !Accepts(data, width, x, y) ==>
      FindPixel(data, width, height, draw, next, attempt) == FindPixel(data, width, height, draw, next + 2, attempt + 1)
  {
  }

  lemma {:induction false} FindPixelSound(data: seq<int>, width: nat, height: nat, draw: nat -> real, next: nat, attempt: nat)
    requires ValidDraws(draw) && attempt <= MAX_PIXEL_ATTEMPTS
    ensures match FindPixel(data, width, height, draw, next, attempt)
      case Found(x, y, n) =>
        && 0 <= x && 0 <= y && (width > 0 ==> x < width) && (height > 0 ==> y < height)
        && Accepts(data, width, x, y)
        && next + 2 <= n <= next + 2 * (MAX_PIXEL_ATTEMPTS - attempt)
      case Missed(n) => n == next + 2 * (MAX_PIXEL_ATTEMPTS - attempt)
    decreases MAX_PIXEL_ATTEMPTS - attempt
  {
    if attempt < MAX_PIXEL_ATTEMPTS {
      var x := Pick(Draw(draw, next), width);
      var y := Pick(Draw(draw, next + 1), height);
      PickInRange(Draw(draw, next), width);
      PickInRange(Draw(draw, next + 1), height);
      if !Accepts(data, width, x, y) {
        FindPixelSound(data, width, height, draw, next + 2, attempt + 1);
      }
    }
  }

  /** The particle createParticle builds at pixel (x, y) from the next four draws. */
  function NewParticle(x: int, y: int, isSecond: bool, mobile: bool, rSize: real, rAmplitude: real, rSpeed: real, rAngle: real): Particle
  {
    var size := if mobile then rSize * 1.5 + 1.0 else rSize * 1.5 + 0.5;
    var amplitude := if mobile then rAmplitude * 6.0 + 2.0 else rAmplitude * 10.0 + 3.0;
    Particle(
      x as real, y as real, x as real, y as real,
      size, WHITE, if isSecond then ORANGE else CYAN, isSecond,
      rSpeed * 0.3 + 0.05, rAngle * RealMath.PI * 2.0, amplitude)
  }

  /** The result of one createParticle call and the index of the next unused draw. */
  datatype Attempt = Attempt(particle: Option<Particle>, next: nat)

  /** createParticle: null without a mask or metrics, or when 150 sampled pixels all miss the text. */
  function TryCreateParticle(data: Option<seq<int>>, metrics: Option<TextMetrics>, width: nat, height: nat, mobile: bool, draw: nat -> real, next: nat): Attempt
  {
    if data.None? || metrics.None? then Attempt(None, next)
    else
      match FindPixel(data.value, width, height, draw, next, 0)
      case Missed(n) => Attempt(None, n)
      case Found(x, y, n) =>
        var isSecond := IsPixelInSecondWord(metrics, x as real);
        Attempt(Some(NewParticle(x, y, isSecond, mobile, Draw(draw, n), Draw(draw, n + 1), Draw(draw, n + 2), Draw(draw, n + 3))), n + 4)
  }

  /** createParticle's result once the attempt loop has found a pixel or used up its attempts. */
  lemma TryCreateParticleOutcome(data: seq<int>, metrics: TextMetrics, width: nat, height: nat, mobile: bool, draw: nat -> real, next: nat, s: Search)
    requires FindPixel(data, width, height, draw, next, 0) == s
    ensures var a := TryCreateParticle(Some(data), Some(metrics), width, height, mobile, draw, next);
      match s
      case Missed(n) => a == Attempt(None, n)
      case Found(x, y, n) =>
        a == Attempt(Some(NewParticle(x, y, IsPixelInSecondWord(Some(metrics), x as real), mobile,
                                      Draw(draw, n), Draw(draw, n + 1), Draw(draw, n + 2), Draw(draw, n + 3))), n + 4)
  {
  }

  /** The randomised parameters lie in the ranges createParticle draws them from. */
  predicate Intrinsic(p: Particle, mobile: bool)
  {
    && (if mobile then 1.0 <= p.size < 2.5 else 0.5 <= p.size < 2.0)
    && (if mobile then 2.0 <= p.amplitude < 8.0 else 3.0 <= p.amplitude < 13.0)
    && 0.05 <= p.speed < 0.35
    && 0.0 <= p.angle < 2.0 * RealMath.PI
  }

  /**
   * p was anchored on a text pixel of the mask: it sits on its anchor, a whole pixel inside
   * the canvas whose alpha byte exceeds 128, and its accent colour is that of its word.
   */
  predicate FromMask(p: Particle, data: seq<int>, metrics: Option<TextMetrics>, width: nat, height: nat, mobile: bool)
  {
    var x := p.baseX.Floor;
    var y := p.baseY.Floor;
    && p.baseX == x as real && p.baseY == y as real
    && p.x == p.baseX && p.y == p.baseY
    && 0 <= x < width && 0 <= y < height
    && 0 <= AlphaIndex(width, x, y) < |data| && data[AlphaIndex(width, x, y)] > 128
    && p.isSecondWord == IsPixelInSecondWord(metrics, p.baseX)
    && p.scatteredColor == (if p.isSecondWord then ORANGE else CYAN)
    && p.color == WHITE
    && Intrinsic(p, mobile)
  }

  /**
   * Every particle createParticle returns comes from the mask, at most 150 pixels (300 draws)
   * are sampled, and without a mask or metrics nothing is drawn.
   */
  lemma TryCreateParticleSound(data: Option<seq<int>>, metrics: Option<TextMetrics>, width: nat, height: nat, mobile: bool, draw: nat -> real, next: nat)
    requires ValidDraws(draw)
    requires data.Some? ==> |data.value| == width * height * 4
    ensures var a := TryCreateParticle(data, metrics, width, height, mobile, draw, next);
      && next <= a.next <= next + 2 * MAX_PIXEL_ATTEMPTS + 4
      && (data.None? || metrics.None? ==> a == Attempt(None, next))
      && (a.particle.Some? ==> data.Some? && FromMask(a.particle.value, data.value, metrics, width, height, mobile))
  {
    if data.Some? && metrics.Some? {
      FindPixelSound(data.value, width, height, draw, next, 0);
      var s := FindPixel(data.value, width, height, draw, next, 0);
      if s.Found? {
        var x, y, n := s.x, s.y, s.next;
        AcceptedMeansNonEmpty(data.value, width, height, x, y);
        var isSecond := IsPixelInSecondWord(metrics, x as real);
        var p := NewParticle(x, y, isSecond, mobile, Draw(draw, n), Draw(draw, n + 1), Draw(draw, n + 2), Draw(draw, n + 3));
        NewParticleSound(x, y, isSecond, mobile, Draw(draw, n), Draw(draw, n + 1), Draw(draw, n + 2), Draw(draw, n + 3));
        assert TryCreateParticle(data, metrics, width, height, mobile, draw, next) == Attempt(Some(p), n + 4);
      }
    }
  }

  /** A particle built at (x, y) from four draws in [0, 1) sits on its anchor with in-range parameters. */
  lemma NewParticleSound(x: int, y: int, isSecond: bool, mobile: bool, r1: real, r2: real, r3: real, r4: real)
    requires 0.0 <= r1 < 1.0 && 0.0 <= r2 < 1.0 && 0.0 <= r3 < 1.0 && 0.0 <= r4 < 1.0
    ensures var p := NewParticle(x, y, isSecond, mobile, r1, r2, r3, r4);
      && p.baseX.Floor == x && p.baseY.Floor == y && p.x == p.baseX && p.y == p.baseY
      && p.baseX == x as real && p.baseY == y as real
      && p.isSecondWord == isSecond && p.color == WHITE
      && p.scatteredColor == (if isSecond then ORANGE else CYAN)
      && Intrinsic(p, mobile)
  {
  }

  /** The outcome of the seeding loop: the particles, the next unused draw, and the attempts made. */
  datatype Seeding = Seeding(particles: seq<Particle>, next: nat, attempts: nat)

  /** createParticle on a fixed mask, as a function of the index of its first draw. */
  function Creator(data: seq<int>, metrics: TextMetrics, width: nat, height: nat, mobile: bool, draw: nat -> real): nat -> Attempt
  {
    (next: nat) => TryCreateParticle(Some(data), Some(metrics), width, height, mobile, draw, next)
  }

  /**
   * The loop of createInitialParticles from attempt i on, with acc the particles created so
   * far: it calls create until 10 * target attempts are made or target particles exist.
   */
  function SeedLoop(create: nat -> Attempt, next: nat, i: nat, target: nat, acc: seq<Particle>): Seeding
    decreases 10 * target - i
  {
    if i < target * 10 && |acc| < target then
      var a := create(next);
      SeedLoop(create, a.next, i + 1, target, if a.particle.Some? then acc + [a.particle.value] else acc)
    else
      Seeding(acc, next, i)
  }

  /** One call of the loop: the attempt's particle, when there is one, joins the list. */
  lemma SeedLoopStep(create: nat -> Attempt, next: nat, i: nat, target: nat, acc: seq<Particle>, a: Attempt)
    requires i < target * 10 && |acc| < target && a == create(next)
    ensures SeedLoop(create, next, i, target, acc)
      == SeedLoop(create, a.next, i + 1, target, if a.particle.Some? then acc + [a.particle.value] else acc)
  {
  }

  /** The loop stops once the target count exists or ten times that many calls were made. */
  lemma SeedLoopDone(create: nat -> Attempt, next: nat, i: nat, target: nat, acc: seq<Particle>)
    requires !(i < target * 10 && |acc| < target)
    ensures SeedLoop(create, next, i, target, acc) == Seeding(acc, next, i)
  {
  }

  /** The creator applied to a draw index is createParticle from that index. */
  lemma CreatorCall(data: seq<int>, metrics: TextMetrics, width: nat, height: nat, mobile: bool, draw: nat -> real, next: nat)
    ensures Creator(data, metrics, width, height, mobile, draw)(next)
      == TryCreateParticle(Some(data), Some(metrics), width, height, mobile, draw, next)
  {
  }

  /** createInitialParticles once the mask exists: start from no particles and run the loop. */
  function SeedParticles(data: seq<int>, metrics: TextMetrics, width: nat, height: nat, mobile: bool, draw: nat -> real, next: nat): Seeding
  {
    SeedLoop(Creator(data, metrics, width, height, mobile, draw), next, 0, ParticleCount(mobile, CanvasArea(width, height)), [])
  }

  /** Every particle of ps is anchored on a text pixel of the mask. */
  predicate AllFromMask(ps: seq<Particle>, data: seq<int>, metrics: TextMetrics, width: nat, height: nat, mobile: bool)
  {
    forall p <- ps :: FromMask(p, data, Some(metrics), width, height, mobile)
  }

  lemma {:induction false} SeedLoopSound(create: nat -> Attempt, data: seq<int>, metrics: TextMetrics, width: nat, height: nat, mobile: bool, next: nat, i: nat, target: nat, acc: seq<Particle>)
    requires forall n :: create(n).particle.Some? ==> FromMask(create(n).particle.value, data, Some(metrics), width, height, mobile)
    requires i <= target * 10 && |acc| <= target
    requires AllFromMask(acc, data, metrics, width, height, mobile)
    ensures var s := SeedLoop(create, next, i, target, acc);
      && |s.particles| <= target && i <= s.attempts <= target * 10
      && (|s.particles| == target || s.attempts == target * 10)
      && acc <= s.particles
      && AllFromMask(s.particles, data, metrics, width, height, mobile)
    decreases 10 * target - i
  {
    if i < target * 10 && |acc| < target {
      var a := create(next);
      SeedLoopSound(create, data, metrics, width, height, mobile, a.next, i + 1, target,
                    if a.particle.Some? then acc + [a.particle.value] else acc);
    }
  }

  /**
   * Seeding ends with at most the target count of particles, all anchored on text pixels, after
   * at most 10 x target attempts; it stops early only when the target is reached.
   */
  lemma SeedParticlesSound(data: seq<int>, metrics: TextMetrics, width: nat, height: nat, mobile: bool, draw: nat -> real, next: nat)
    requires ValidDraws(draw) && |data| == width * height * 4
    ensures var s := SeedParticles(data, metrics, width, height, mobile, draw, next);
      var target := ParticleCount(mobile, CanvasArea(width, height));
      && |s.particles| <= target && s.attempts <= target * 10
      && (|s.particles| == target || s.attempts == target * 10)
      && AllFromMask(s.particles, data, metrics, width, height, mobile)
  {
    var create := Creator(data, metrics, width, height, mobile, draw);
    forall n | create(n).particle.Some?
      ensures FromMask(create(n).particle.value, data, Some(metrics), width, height, mobile)
    {
      TryCreateParticleSound(Some(data), Some(metrics), width, height, mobile, draw, n);
    }
    SeedLoopSound(create, data, metrics, width, height, mobile, next, 0, ParticleCount(mobile, CanvasArea(width, height)), []);
  }
}
