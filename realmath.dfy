/**
 * The floating-point library calls of the animation (Math.sqrt, Math.sin, Math.cos,
 * Math.atan2), left uninterpreted except for the facts the particle code relies on.
 */
module RealMath {

  datatype MathLib = MathLib(
    sqrt: real -> real,
    sin: real -> real,
    cos: real -> real,
    atan2: (real, real) -> real)

  /** Math.PI as a JavaScript number. */
  const PI: real := 3.141592653589793

  function Sq(x: real): real
  {
    x * x
  }

  /** Math.sqrt(dx * dx + dy * dy): the length of (dx, dy). */
  function Hypot(m: MathLib, dx: real, dy: real): real
  {
    m.sqrt(dx * dx + dy * dy)
  }

  /** Math.sqrt(dx * dx + dy * dy) is a length: never negative, and zero only at the origin. */
  predicate LengthLaw(m: MathLib, dx: real, dy: real)
  {
    0.0 <= Hypot(m, dx, dy) && (Hypot(m, dx, dy) == 0.0 <==> dx == 0.0 && dy == 0.0)
  }

  /** (cos a, sin a) lies on the unit circle. */
  predicate UnitCircle(m: MathLib, a: real)
  {
    Sq(m.sin(a)) + Sq(m.cos(a)) == 1.0
  }

  /** Off the origin, (dx, dy) is its length times (cos, sin) of atan2(dy, dx). */
  predicate PolarLaw(m: MathLib, dx: real, dy: real)
  {
    dx != 0.0 || dy != 0.0 ==>
      m.cos(m.atan2(dy, dx)) * Hypot(m, dx, dy) == dx &&
      m.sin(m.atan2(dy, dx)) * Hypot(m, dx, dy) == dy
  }

  /**
   * The properties of the library calls that the model is allowed to use. Each law is a named
   * predicate, so a proof draws on it only at the arguments it names.
   */
  ghost predicate Sound(m: MathLib)
  {
    && (forall dx, dy :: LengthLaw(m, dx, dy))
    && (forall a :: UnitCircle(m, a))
    && (forall dx, dy :: PolarLaw(m, dx, dy))
    && m.sin(0.0) == 0.0 && m.cos(0.0) == 1.0
    && m.atan2(0.0, 0.0) == 0.0
  }
}
