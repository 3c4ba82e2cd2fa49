/**
 * createInitialParticles as a function of the state it reads and writes: the particle list,
 * the cached text mask and metrics, and the position in the Math.random() stream.
 */
module Reseeding {
  import opened Wrappers
  import opened Particles
  import opened Glyph
  import opened Seeding
  import opened Random

  /** The screen width below which the layout is the mobile one. */
  const MOBILE_BREAKPOINT: nat := 768

  function IsMobileWidth(innerWidth: nat): bool
  {
    innerWidth < MOBILE_BREAKPOINT
  }

  /**
   * Drawing the two words and reading the canvas back, for a canvas size and layout: the
   * pixels and the word widths, or None when getImageData throws.
   */
  type Renderer = (nat, nat, bool) -> Option<Raster>

  /** Whenever the canvas can be read back, it yields one RGBA quadruple per pixel. */
  ghost predicate RenderSound(render: Renderer)
  {
    forall w: nat, h: nat, mobile: bool :: render(w, h, mobile).Some? ==> |render(w, h, mobile).value.data| == w * h * 4
  }

  /** The particles, textImageData, textMetrics, and the index of the next Math.random() draw. */
  datatype Scene = Scene(particles: seq<Particle>, data: Option<seq<int>>, metrics: Option<TextMetrics>, next: nat)

  /**
   * createInitialParticles from scene s. When the canvas cannot be read back only the mask is
   * dropped: the particles and the metrics of the previous layout stay as they were.
   */
  function Reseed(render: Renderer, draw: nat -> real, width: nat, height: nat, mobile: bool, s: Scene): Scene
  {
    match render(width, height, mobile)
    case None => s.(data := None)
    case Some(raster) =>
      var metrics := Layout(width, height, mobile, raster.lockWidth, raster.inWidth);
      var seeded := SeedParticles(raster.data, metrics, width, height, mobile, draw, s.next);
      Scene(seeded.particles, Some(raster.data), Some(metrics), seeded.next)
  }

  /**
   * After a successful reseed the mask matches the canvas, every particle sits on a text pixel
   * of it, and there are at most the target count of them, fewer only when 10 x target
   * createParticle calls were used up.
   */
  lemma ReseedSound(render: Renderer, draw: nat -> real, width: nat, height: nat, mobile: bool, s: Scene)
    requires RenderSound(render) && ValidDraws(draw)
    requires render(width, height, mobile).Some?
    ensures var r := Reseed(render, draw, width, height, mobile, s);
      var raster := render(width, height, mobile).value;
      var metrics := Layout(width, height, mobile, raster.lockWidth, raster.inWidth);
      var seeded := SeedParticles(raster.data, metrics, width, height, mobile, draw, s.next);
      var target := ParticleCount(mobile, CanvasArea(width, height));
      && r.data == Some(raster.data) && |raster.data| == width * height * 4
      && r.metrics == Some(metrics)
      && r.particles == seeded.particles && r.next == seeded.next
      && |r.particles| <= target && seeded.attempts <= target * 10
      && (|r.particles| == target || seeded.attempts == target * 10)
      && AllFromMask(r.particles, raster.data, metrics, width, height, mobile)
  {
    var raster := render(width, height, mobile).value;
    var metrics := Layout(width, height, mobile, raster.lockWidth, raster.inWidth);
    SeedParticlesSound(raster.data, metrics, width, height, mobile, draw, s.next);
  }

  /**
   * When the canvas cannot be read back the old particles survive, so a resize that loses the
   * canvas keeps animating the previous layout.
   */
  lemma ReseedFailureKeepsParticles(render: Renderer, draw: nat -> real, width: nat, height: nat, mobile: bool, s: Scene)
    requires render(width, height, mobile).None?
    ensures var r := Reseed(render, draw, width, height, mobile, s);
      r.particles == s.particles && r.metrics == s.metrics && r.data.None? && r.next == s.next
  {
  }

  /** Reseeding never depends on the particles it replaces when the canvas can be read back. */
  lemma ReseedForgetsOldParticles(render: Renderer, draw: nat -> real, width: nat, height: nat, mobile: bool, s: Scene, t: Scene)
    requires render(width, height, mobile).Some? && s.next == t.next
    ensures Reseed(render, draw, width, height, mobile, s) == Reseed(render, draw, width, height, mobile, t)
  {
  }
}
