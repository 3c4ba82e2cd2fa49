/**
 * The pointer state the input handlers maintain (mousePositionRef and isTouchingRef) and
 * how each mouse or touch event changes it.
 */
module Pointer {
  import opened Wrappers
  import opened Particles
  import opened RealMath
  import Motion

  /**
   * The last pointer position, None standing for (-Infinity, -Infinity), and whether a touch
   * that started on the background is in progress.
   */
  datatype PointerState = PointerState(position: Option<Point>, touching: bool)

  /** The state at mount, and after every touchend or touchcancel. */
  const Released: PointerState := PointerState(None, false)

  /**
   * The window events the component listens to. A touch list is the event's touches in order;
   * onContent says whether the element under the first touch lies inside the content card.
   */
  datatype InputEvent =
    | MouseMove(at: Point)
    | TouchStart(touches: seq<Point>, onContent: bool)
    | TouchMove(touches: seq<Point>)
    | TouchEnd
    | TouchCancel

  /** The state after one event is handled. */
  function Handle(s: PointerState, e: InputEvent): (r: PointerState)
    ensures e.MouseMove? ==> r == s.(position := Some(e.at))
    ensures e.TouchStart? ==>
      && (r.touching <==> |e.touches| > 0 && !e.onContent)
      && r.position == (if |e.touches| > 0 then Some(e.touches[0]) else s.position)
    ensures e.TouchMove? ==>
      && r.touching == s.touching
      && r.position == (if |e.touches| > 0 then Some(e.touches[0]) else s.position)
    ensures e.TouchEnd? || e.TouchCancel? ==> r == Released
  {
    match e
    case MouseMove(at) => s.(position := Some(at))
    case TouchStart(touches, onContent) =>
      var passThrough := |touches| > 0 && onContent;
      if !passThrough && |touches| > 0 then PointerState(Some(touches[0]), true)
      else if |touches| > 0 then PointerState(Some(touches[0]), false)
      else s.(touching := false)
    case TouchMove(touches) =>
      if s.touching && |touches| > 0 then s.(position := Some(touches[0]))
      else if |touches| > 0 then s.(position := Some(touches[0]))
      else s
    case TouchEnd => Released
    case TouchCancel => Released
  }

  /** The state after a sequence of events, handled in order. */
  function Replay(s: PointerState, events: seq<InputEvent>): PointerState
    decreases |events|
  {
    if events == [] then s else Replay(Handle(s, events[0]), events[1..])
  }

  /** A touch in progress always has a position. */
  predicate Consistent(s: PointerState)
  {
    s.touching ==> s.position.Some?
  }

  lemma HandleKeepsConsistent(s: PointerState, e: InputEvent)
    requires Consistent(s)
    ensures Consistent(Handle(s, e))
  {
  }

  /** From the mount state, every sequence of events leaves a consistent state. */
  lemma {:induction false} ReplayKeepsConsistent(s: PointerState, events: seq<InputEvent>)
    requires Consistent(s)
    ensures Consistent(Replay(s, events))
    decreases |events|
  {
    if events != [] {
      HandleKeepsConsistent(s, events[0]);
      ReplayKeepsConsistent(Handle(s, events[0]), events[1..]);
    }
  }

  /** Mouse moves and touch moves never change the touch flag. */
  lemma MovesKeepTouchFlag(s: PointerState, e: InputEvent)
    requires e.MouseMove? || e.TouchMove?
    ensures Handle(s, e).touching == s.touching
  {
  }

  /**
   * A touch that starts on the content card does not raise the touch flag, but its point
   * still becomes the pointer position.
   */
  lemma PassThroughTouchRecordsPoint(s: PointerState, touches: seq<Point>)
    requires |touches| > 0
    ensures Handle(s, TouchStart(touches, true)) == PointerState(Some(touches[0]), false)
  {
  }

  /** After a touch ends or is cancelled no particle interacts, whatever it was doing before. */
  lemma ReleasedPointerNeverInteracts(m: MathLib, s: PointerState, e: InputEvent, p: Particle, mobile: bool)
    requires e.TouchEnd? || e.TouchCancel?
    ensures var r := Handle(s, e);
      !Motion.IsInteracting(m, r.position, r.touching, p, mobile)
  {
  }

  /**
   * A touch that starts on the content card still repels the particles within the radius of
   * its point: the touch flag is lowered, but a finite pointer position alone makes them interact.
   */
  lemma PassThroughTouchStillRepels(m: MathLib, s: PointerState, touches: seq<Point>, p: Particle, mobile: bool)
    requires |touches| > 0
    requires Hypot(m, touches[0].x - p.x, touches[0].y - p.y) < Motion.InteractionRadius(mobile)
    ensures var r := Handle(s, TouchStart(touches, true));
      !r.touching && Motion.IsInteracting(m, r.position, r.touching, p, mobile)
  {
  }

  /** Once released, the pointer stays released until a mouse move or a touch with points. */
  lemma {:induction false} ReleasedUntilPointed(events: seq<InputEvent>)
    requires forall i :: 0 <= i < |events| ==>
      !events[i].MouseMove? && !(events[i].TouchStart? && |events[i].touches| > 0) &&
      !(events[i].TouchMove? && |events[i].touches| > 0)
    ensures Replay(Released, events) == Released
    decreases |events|
  {
    if events != [] {
      assert Handle(Released, events[0]) == Released;
      ReleasedUntilPointed(events[1..]);
    }
  }
}
