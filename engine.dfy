/**
 * The particle effect as the mount effect builds it: the canvas size, the particle list, the
 * cached mask, the pointer refs, the animation clock and the animation-frame bookkeeping, with
 * the closures of the effect as methods that update them in place.
 */
module Engine {
  import opened Wrappers
  import opened Particles
  import opened Glyph
  import opened Seeding
  import opened Random
  import opened RealMath
  import opened Reseeding
  import opened Pointer
  import Motion

  /** One fillRect call: the colour and the square's corner and side. */
  datatype Fill = Fill(color: string, left: real, top: real, size: real)

  /** The square drawn for a particle: centred on its position, size pixels on a side. */
  function FillOf(p: Particle, color: string): (f: Fill)
    ensures f.left + f.size / 2.0 == p.x && f.top + f.size / 2.0 == p.y && f.size == p.size
  {
    Fill(color, p.x - p.size / 2.0, p.y - p.size / 2.0, p.size)
  }

  /**
   * What createInitialParticles reports on the console: nothing usable when the mask could not
   * be read, otherwise the particles made, the target, and whether fewer than half were made.
   */
  datatype SeedOutcome = SamplingFailed | Seeded(created: nat, target: nat, lowDensity: bool)

  /** The engine state that pointer events leave alone. */
  datatype Rest = Rest(width: nat, height: nat, isMobile: bool, scene: Scene, time: real,
                       frameId: nat, nextFrameId: nat, pending: set<nat>, listening: bool)

  /**
   * One attempt of createParticle's loop: two calls of Math.random() from draw index at pick a
   * pixel, which is kept when its alpha byte exceeds 128.
   */
  method SamplePixel(data: seq<int>, width: nat, height: nat, random: nat -> real, at: nat, attempt: nat)
    returns (hit: Option<(int, int)>)
    requires attempt < MAX_PIXEL_ATTEMPTS
    ensures hit.Some? ==> FindPixel(data, width, height, random, at, attempt) == Found(hit.value.0, hit.value.1, at + 2)
    ensures hit.None? ==> FindPixel(data, width, height, random, at, attempt) == FindPixel(data, width, height, random, at + 2, attempt + 1)
  {
    var x := Pick(Draw(random, at), width);
    var y := Pick(Draw(random, at + 1), height);
    FindPixelStep(data, width, height, random, at, attempt, x, y);
    var index := RowStart(width, y) + x * 4;
    if Alpha(data, index + 3) > 128 {
      return Some((x, y));
    }
    return None;
  }

  /**
   * The attempt loop of createParticle: up to 150 pixels drawn with two calls of Math.random()
   * each, stopping at the first whose alpha byte exceeds 128. The calls are the draws from
   * next on.
   */
  method FindTextPixel(data: seq<int>, width: nat, height: nat, random: nat -> real, next: nat) returns (s: Search)
    ensures s == FindPixel(data, width, height, random, next, 0)
  {
    var at := next;
    var attempt := 0;
    ghost var first := attempt;
    while attempt < MAX_PIXEL_ATTEMPTS
      invariant attempt <= MAX_PIXEL_ATTEMPTS
      invariant FindPixel(data, width, height, random, at, attempt) == FindPixel(data, width, height, random, next, first)
    {
      var hit := SamplePixel(data, width, height, random, at, attempt);
      at := at + 2;
      if hit.Some? {
        return Found(hit.value.0, hit.value.1, at);
      }
      attempt := attempt + 1;
    }
    return Missed(at);
  }

  /**
   * createParticle with its calls of Math.random() being the draws from next on: nothing
   * without a mask or metrics, otherwise a particle on the first text pixel found, its size,
   * amplitude, speed and phase drawn in that order.
   */
  method CreateParticle(data: Option<seq<int>>, metrics: Option<TextMetrics>, width: nat, height: nat, mobile: bool, random: nat -> real, next: nat)
    returns (a: Attempt)
    ensures a == TryCreateParticle(data, metrics, width, height, mobile, random, next)
  {
    if data.None? || metrics.None? {
      return Attempt(None, next);
    }
    var s := FindTextPixel(data.value, width, height, random, next);
    TryCreateParticleOutcome(data.value, metrics.value, width, height, mobile, random, next, s);
    if s.Missed? {
      return Attempt(None, s.next);
    }
    var isSecond := IsPixelInSecondWord(metrics, s.x as real);
    var n := s.next;
    var p := NewParticle(s.x, s.y, isSecond, mobile, Draw(random, n), Draw(random, n + 1), Draw(random, n + 2), Draw(random, n + 3));
    return Attempt(Some(p), n + 4);
  }

  /**
   * The loop of createInitialParticles on a fixed mask: createParticle until the target count
   * exists or ten times that many calls were made.
   */
  method SeedText(data: seq<int>, metrics: TextMetrics, width: nat, height: nat, mobile: bool, random: nat -> real, next: nat, particleCount: nat)
    returns (s: Seeding)
    ensures s == SeedLoop(Creator(data, metrics, width, height, mobile, random), next, 0, particleCount, [])
  {
    ghost var create := Creator(data, metrics, width, height, mobile, random);
    var particles: seq<Particle> := [];
    var at := next;
    var i := 0;
    ghost var first := i;
    while i < particleCount * 10 && |particles| < particleCount
      invariant SeedLoop(create, at, i, particleCount, particles) == SeedLoop(create, next, first, particleCount, [])
      decreases particleCount * 10 - i
    {
      var a := CreateParticle(Some(data), Some(metrics), width, height, mobile, random, at);
      CreatorCall(data, metrics, width, height, mobile, random, at);
      SeedLoopStep(create, at, i, particleCount, particles, a);
      if a.particle.Some? {
        particles := particles + [a.particle.value];
      }
      at := a.next;
      i := i + 1;
    }
    SeedLoopDone(create, at, i, particleCount, particles);
    return Seeding(particles, at, i);
  }

  /**
   * The squares one frame of animate draws, in list order: each particle at its new position,
   * in the colour its interaction state gave it before it moved.
   */
  function Paint(m: MathLib, ps: seq<Particle>, pointer: Option<Point>, touching: bool, time: real, mobile: bool): (fills: seq<Fill>)
    ensures |fills| == |ps|
  {
    seq(|ps|, i requires 0 <= i < |ps| =>
      FillOf(Motion.Step(m, ps[i], pointer, touching, time, mobile), Motion.FrameColor(m, ps[i], pointer, touching, mobile)))
  }

  /**
   * The per-particle body of animate over the whole list: each particle is painted in the colour
   * its interaction state gives it and moved one step, in list order.
   */
  method AnimateParticles(math: MathLib, ps: seq<Particle>, pointer: Option<Point>, touching: bool, time: real, mobile: bool)
    returns (particles: seq<Particle>, fills: seq<Fill>)
    ensures particles == Motion.StepAll(math, ps, pointer, touching, time, mobile)
    ensures fills == Paint(math, ps, pointer, touching, time, mobile)
  {
    particles := ps;
    fills := [];
    var i := 0;
    while i < |particles|
      invariant 0 <= i <= |particles| == |ps| && |fills| == i
      invariant forall k :: 0 <= k < i ==> particles[k] == Motion.Step(math, ps[k], pointer, touching, time, mobile)
      invariant forall k :: i <= k < |particles| ==> particles[k] == ps[k]
      invariant forall k :: 0 <= k < i ==>
        fills[k] == FillOf(particles[k], Motion.FrameColor(math, ps[k], pointer, touching, mobile))
    {
      var p := particles[i];
      var color := Motion.FrameColor(math, p, pointer, touching, mobile);
      var moved := Motion.Step(math, p, pointer, touching, time, mobile);
      particles := particles[i := moved];
      fills := fills + [FillOf(moved, color)];
      i := i + 1;
    }
  }

  class ParticleEngine {
    /** Math.random(). */
    const rng: RandomSource
    /** Drawing the words and reading the canvas back. */
    const render: Renderer
    /** Math.sqrt, Math.sin, Math.cos and Math.atan2. */
    const math: MathLib

    /** canvas.width and canvas.height. */
    var width: nat
    var height: nat
    /** localIsMobile. */
    var isMobile: bool
    var particles: seq<Particle>
    var textImageData: Option<seq<int>>
    var textMetrics: Option<TextMetrics>
    /** mousePositionRef, None for (-Infinity, -Infinity), and isTouchingRef. */
    var mouse: Option<Point>
    var isTouching: bool
    /** timeRef, in seconds. */
    var time: real
    /** animationFrameId, the id the next requestAnimationFrame returns, and the requested frames not yet run or cancelled. */
    var frameId: nat
    var nextFrameId: nat
    var pending: set<nat>
    /** Whether the window listeners are attached. */
    var listening: bool
    /** How many times createInitialParticles has run. */
    ghost var reseeds: nat

    /**
     * At most the last requested frame is pending, and only while there are particles to
     * animate; a touch in progress has a position.
     */
    ghost predicate Valid()
      reads this, rng
    {
      && rng.Valid()
      && pending <= {frameId}
      && frameId < nextFrameId
      && (pending != {} ==> |particles| > 0)
      && Consistent(PointerOf())
    }

    /** The state createInitialParticles reads and writes. */
    ghost function SceneOf(): Scene
      reads this, rng
    {
      Scene(particles, textImageData, textMetrics, rng.count)
    }

    ghost function PointerOf(): PointerState
      reads this
    {
      PointerState(mouse, isTouching)
    }

    ghost function RestOf(): Rest
      reads this, rng
    {
      Rest(width, height, isMobile, SceneOf(), time, frameId, nextFrameId, pending, listening)
    }

    /**
     * The initial setup of the effect: the layout follows the window width, the canvas takes the
     * window size, the particles are seeded once, the loop starts when there are any, and then
     * the listeners are attached.
     */
    constructor Mount(rng: RandomSource, render: Renderer, math: MathLib, innerWidth: nat, innerHeight: nat)
      requires rng.Valid()
      modifies rng
      ensures this.rng == rng && this.render == render && this.math == math
      ensures Valid() && listening
      ensures width == innerWidth && height == innerHeight && isMobile == IsMobileWidth(innerWidth)
      ensures SceneOf() == Reseed(render, rng.draw, innerWidth, innerHeight, isMobile,
                                  Scene([], None, None, old(rng.count)))
      ensures PointerOf() == Released && time == 0.0
      ensures pending == (if |particles| > 0 then {frameId} else {})
      ensures reseeds == 1
    {
      this.rng := rng;
      this.render := render;
      this.math := math;
      width := 300;
      height := 150;
      isMobile := IsMobileWidth(innerWidth);
      particles := [];
      textImageData := None;
      textMetrics := None;
      mouse := None;
      isTouching := false;
      time := 0.0;
      frameId := 0;
      nextFrameId := 1;
      pending := {};
      listening := false;
      reseeds := 0;
      new;
      UpdateCanvasSize(innerWidth, innerHeight);
      var _ := CreateInitialParticles();
      if |particles| > 0 {
        RequestFrame();
      }
      listening := true;
    }

    /** requestAnimationFrame(animate): a fresh id becomes animationFrameId and is pending. */
    method RequestFrame()
      modifies this
      ensures frameId == old(nextFrameId) && nextFrameId == old(nextFrameId) + 1
      ensures pending == old(pending) + {frameId}
      ensures width == old(width) && height == old(height) && isMobile == old(isMobile)
      ensures particles == old(particles) && textImageData == old(textImageData) && textMetrics == old(textMetrics)
      ensures mouse == old(mouse) && isTouching == old(isTouching) && time == old(time)
      ensures listening == old(listening) && reseeds == old(reseeds)
    {
      frameId := nextFrameId;
      nextFrameId := nextFrameId + 1;
      pending := pending + {frameId};
    }

    /** cancelAnimationFrame(animationFrameId): that frame will not run. */
    method CancelFrame()
      modifies this
      ensures pending == old(pending) - {frameId}
      ensures frameId == old(frameId) && nextFrameId == old(nextFrameId)
      ensures width == old(width) && height == old(height) && isMobile == old(isMobile)
      ensures particles == old(particles) && textImageData == old(textImageData) && textMetrics == old(textMetrics)
      ensures mouse == old(mouse) && isTouching == old(isTouching) && time == old(time)
      ensures listening == old(listening) && reseeds == old(reseeds)
    {
      pending := pending - {frameId};
    }

    /**
     * createInitialParticles: read the mask back, then create particles until the target count
     * exists or ten times that many createParticle calls were made.
     */
    method CreateInitialParticles() returns (outcome: SeedOutcome)
      requires rng.Valid()
      modifies this, rng
      ensures SceneOf() == Reseed(render, rng.draw, width, height, isMobile, old(SceneOf()))
      ensures outcome.SamplingFailed? <==> render(width, height, isMobile).None?
      ensures outcome.Seeded? ==>
        && outcome.created == |particles|
        && outcome.target == ParticleCount(isMobile, CanvasArea(width, height))
        && (outcome.lowDensity <==> outcome.created * 2 < outcome.target)
      ensures width == old(width) && height == old(height) && isMobile == old(isMobile)
      ensures mouse == old(mouse) && isTouching == old(isTouching) && time == old(time)
      ensures frameId == old(frameId) && nextFrameId == old(nextFrameId) && pending == old(pending)
      ensures listening == old(listening) && reseeds == old(reseeds) + 1
    {
      reseeds := reseeds + 1;
      var image := render(width, height, isMobile);
      if image.None? {
        textImageData := None;
        return SamplingFailed;
      }
      var raster := image.value;
      var metrics := Layout(width, height, isMobile, raster.lockWidth, raster.inWidth);
      var particleCount := ParticleCount(isMobile, CanvasArea(width, height));
      var seeded := SeedText(raster.data, metrics, width, height, isMobile, rng.draw, rng.count, particleCount);
      particles, textImageData, textMetrics := seeded.particles, Some(raster.data), Some(metrics);
      rng.count := seeded.next;
      var createdCount := |seeded.particles|;
      outcome := Seeded(createdCount, particleCount, createdCount * 2 < particleCount);
    }

    /**
     * updateCanvasSize: the canvas takes the window size, and when the window crosses the mobile
     * breakpoint the layout flips and handleResize runs from inside. Before the listeners are
     * attached it runs only at setup, with the width the layout was chosen from, so the nested
     * handleResize happens only while the resize listener is attached.
     */
    method UpdateCanvasSize(innerWidth: nat, innerHeight: nat)
      requires Valid()
      requires listening || IsMobileWidth(innerWidth) == isMobile
      modifies this, rng
      decreases if IsMobileWidth(innerWidth) != isMobile then 1 else 0, 0
      ensures Valid()
      ensures width == innerWidth && height == innerHeight && isMobile == IsMobileWidth(innerWidth)
      ensures IsMobileWidth(innerWidth) == old(isMobile) ==>
        && SceneOf() == old(SceneOf()) && pending == old(pending)
        && frameId == old(frameId) && nextFrameId == old(nextFrameId) && reseeds == old(reseeds)
      ensures IsMobileWidth(innerWidth) != old(isMobile) ==>
        && SceneOf() == Reseed(render, rng.draw, innerWidth, innerHeight, isMobile, old(SceneOf()))
        && pending == (if |particles| > 0 then {frameId} else {})
        && reseeds == old(reseeds) + 1
      ensures PointerOf() == old(PointerOf()) && time == old(time) && listening == old(listening)
      ensures old(nextFrameId) <= nextFrameId
    {
      width := innerWidth;
      height := innerHeight;
      var mobileCheck := IsMobileWidth(innerWidth);
      if mobileCheck != isMobile {
        isMobile := mobileCheck;
        HandleResize(innerWidth, innerHeight);
      }
    }

    /**
     * handleResize: resize the canvas, stop the loop, reseed, and restart the loop when there
     * are particles. Crossing the breakpoint reseeds twice, once from the nested call inside
     * updateCanvasSize and once here, and the nesting is at most one level deep.
     */
    method HandleResize(innerWidth: nat, innerHeight: nat)
      requires Valid() && listening
      modifies this, rng
      decreases if IsMobileWidth(innerWidth) != isMobile then 1 else 0, 1
      ensures Valid()
      ensures width == innerWidth && height == innerHeight && isMobile == IsMobileWidth(innerWidth)
      ensures IsMobileWidth(innerWidth) == old(isMobile) ==>
        && SceneOf() == Reseed(render, rng.draw, innerWidth, innerHeight, isMobile, old(SceneOf()))
        && reseeds == old(reseeds) + 1
      ensures IsMobileWidth(innerWidth) != old(isMobile) ==>
        && SceneOf() == Reseed(render, rng.draw, innerWidth, innerHeight, isMobile,
                               Reseed(render, rng.draw, innerWidth, innerHeight, isMobile, old(SceneOf())))
        && reseeds == old(reseeds) + 2
      ensures pending == (if |particles| > 0 then {frameId} else {})
      ensures old(frameId) !in pending && old(nextFrameId) <= nextFrameId
      ensures PointerOf() == old(PointerOf()) && time == old(time) && listening == old(listening)
    {
      UpdateCanvasSize(innerWidth, innerHeight);
      CancelFrame();
      var _ := CreateInitialParticles();
      if |particles| > 0 {
        RequestFrame();
      }
    }

    /**
     * animate: advance the clock to the frame's timestamp, move every particle one step with
     * the pointer as it was at the start of the frame, draw it, and request the next frame.
     */
    method Animate(timestamp: real) returns (fills: seq<Fill>)
      requires Valid() && frameId in pending
      modifies this
      ensures Valid()
      ensures time == timestamp * 0.001
      ensures particles == Motion.StepAll(math, old(particles), mouse, isTouching, time, isMobile)
      ensures fills == Paint(math, old(particles), mouse, isTouching, time, isMobile)
      ensures frameId == old(nextFrameId) && nextFrameId == old(nextFrameId) + 1 && pending == {frameId}
      ensures width == old(width) && height == old(height) && isMobile == old(isMobile)
      ensures textImageData == old(textImageData) && textMetrics == old(textMetrics)
      ensures PointerOf() == old(PointerOf()) && listening == old(listening) && reseeds == old(reseeds)
    {
      var now := timestamp * 0.001;
      var moved, painted := AnimateParticles(math, particles, mouse, isTouching, now, isMobile);
      var id := nextFrameId;
      particles, time, frameId, nextFrameId, pending := moved, now, id, id + 1, {id};
      fills := painted;
    }

    /** handleMove: the pointer position becomes (x, y). */
    method Move(at: Point)
      modifies this
      ensures mouse == Some(at) && isTouching == old(isTouching)
      ensures RestOf() == old(RestOf()) && reseeds == old(reseeds)
    {
      mouse := Some(at);
    }

    /** The mousemove listener. */
    method HandleMouseMove(at: Point)
      requires Valid() && listening
      modifies this
      ensures Valid()
      ensures PointerOf() == Handle(old(PointerOf()), MouseMove(at))
      ensures RestOf() == old(RestOf()) && reseeds == old(reseeds)
    {
      Move(at);
    }

    /**
     * The touchstart listener. onContent says whether the element under the first touch lies
     * inside the content card; such a touch passes through without raising the touch flag.
     */
    method HandleTouchStart(touches: seq<Point>, onContent: bool)
      requires Valid() && listening
      modifies this
      ensures Valid()
      ensures PointerOf() == Handle(old(PointerOf()), TouchStart(touches, onContent))
      ensures RestOf() == old(RestOf()) && reseeds == old(reseeds)
    {
      var passThrough := false;
      if |touches| > 0 && onContent {
        passThrough := true;
      }
      if !passThrough && |touches| > 0 {
        isTouching := true;
        Move(touches[0]);
      } else {
        isTouching := false;
        if |touches| > 0 {
          Move(touches[0]);
        }
      }
    }

    /** The touchmove listener: the first touch moves the pointer, whether or not a touch is in progress. */
    method HandleTouchMove(touches: seq<Point>)
      requires Valid() && listening
      modifies this
      ensures Valid()
      ensures PointerOf() == Handle(old(PointerOf()), TouchMove(touches))
      ensures RestOf() == old(RestOf()) && reseeds == old(reseeds)
    {
      if isTouching && |touches| > 0 {
        Move(touches[0]);
      } else if |touches| > 0 {
        Move(touches[0]);
      }
    }

    /** The touchend and touchcancel listener: the touch ends and the pointer leaves the canvas. */
    method HandleTouchEnd()
      requires Valid() && listening
      modifies this
      ensures Valid()
      ensures PointerOf() == Handle(old(PointerOf()), TouchEnd) == Handle(old(PointerOf()), TouchCancel)
      ensures RestOf() == old(RestOf()) && reseeds == old(reseeds)
    {
      isTouching := false;
      mouse := None;
    }

    /** The cleanup of the effect: the listeners are detached and no frame stays pending. */
    method Unmount()
      requires Valid()
      modifies this
      ensures Valid() && !listening && pending == {}
      ensures SceneOf() == old(SceneOf()) && PointerOf() == old(PointerOf())
      ensures width == old(width) && height == old(height) && isMobile == old(isMobile) && time == old(time)
    {
      listening := false;
      CancelFrame();
    }
  }
}
