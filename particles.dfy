/** The particle record of the background animation and the colours it uses. */
module Particles {

  /** A screen coordinate (pointer or touch position). */
  datatype Point = Point(x: real, y: real)

  /**
   * One particle: (x, y) is where it is drawn and changes every frame; everything else
   * is fixed when the particle is created.
   */
  datatype Particle = Particle(
    x: real, y: real,
    baseX: real, baseY: real,
    size: real,
    color: string,
    scatteredColor: string,
    isSecondWord: bool,
    speed: real,
    angle: real,
    amplitude: real)

  /** Base colour of every particle when it is not interacting. */
  const WHITE: string := "white"
  /** Accent of the first word ("LOCK"). */
  const CYAN: string := "#00DCFF"
  /** Accent of the second word ("IN"). */
  const ORANGE: string := "#FF9900"

  /** The particle p with another position and everything else unchanged. */
  predicate SameButPosition(p: Particle, q: Particle)
  {
    p.(x := q.x, y := q.y) == q
  }
}
