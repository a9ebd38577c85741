/**
 * GestureAccessibilityService.kt: the accessibility service that turns a tap
 * or a swipe into a one-stroke gesture and hands it to the platform, and that
 * registers itself in MainActivity's companion slot while it is connected.
 * The platform's dispatchGesture and Toast are modelled as effects appended to
 * a ghost log; Path coordinates stay integers (the Float conversion and the
 * platform's interpolation along the path are not modelled).
 */
module Gestures {
  import opened Wrappers

  /** A point of a stroke path, in device pixels. */
  datatype Point = Point(x: int, y: int)

  /** StrokeDescription: a path, the delay before the stroke starts and its duration, both in ms. */
  datatype Stroke = Stroke(path: seq<Point>, startTime: int, duration: int)

  /** GestureDescription: its strokes, in the order they were added. */
  datatype Gesture = Gesture(strokes: seq<Stroke>)

  /** The stroke duration used for a tap, in ms. */
  const TapDuration: int := 1

  /** A call on the service's two gesture methods, with its arguments. */
  datatype Command =
    | Click(x: int, y: int)
    | Swipe(startX: int, startY: int, endX: int, endY: int, duration: int)

  /** performClick's gesture: one stroke whose path is the single point (x,y), starting at 0 and lasting 1 ms. */
  function ClickGesture(x: int, y: int): Gesture
  {
    Gesture([Stroke([Point(x, y)], 0, TapDuration)])
  }

  /** performSwipe's gesture: one stroke from (startX,startY) straight to (endX,endY), starting at 0 and lasting `duration`. */
  function SwipeGesture(startX: int, startY: int, endX: int, endY: int, duration: int): Gesture
  {
    Gesture([Stroke([Point(startX, startY), Point(endX, endY)], 0, duration)])
  }

  /** The gesture a command dispatches. */
  function GestureOf(c: Command): Gesture
  {
    match c
    case Click(x, y) => ClickGesture(x, y)
    case Swipe(sx, sy, ex, ey, d) => SwipeGesture(sx, sy, ex, ey, d)
  }

  /**
   * Reads back the command a gesture was built from: a one-point stroke of
   * 1 ms is a click, a two-point stroke is a swipe; anything else, None.
   */
  function CommandOf(g: Gesture): (r: Option<Command>)
    ensures r.Some? ==> GestureOf(r.value) == g
  {
    if |g.strokes| != 1 || g.strokes[0].startTime != 0 then None
    else
      var s := g.strokes[0];
      assert g.strokes == [s];
      if |s.path| == 1 && s.duration == TapDuration then
        assert s.path == [s.path[0]];
        Some(Click(s.path[0].x, s.path[0].y))
      else if |s.path| == 2 then
        assert s.path == [s.path[0], s.path[1]];
        Some(Swipe(s.path[0].x, s.path[0].y, s.path[1].x, s.path[1].y, s.duration))
      else None
  }

  /** No information is lost in translation: the command is recovered from its gesture. */
  lemma CommandOfGestureOf(c: Command)
    ensures CommandOf(GestureOf(c)) == Some(c)
  {
  }

  /** Hence different commands dispatch different gestures. */
  lemma GestureOfInjective(c1: Command, c2: Command)
    requires GestureOf(c1) == GestureOf(c2)
    ensures c1 == c2
  {
    CommandOfGestureOf(c1);
    CommandOfGestureOf(c2);
  }

  lemma ClickGestureShape(x: int, y: int)
    ensures var g := ClickGesture(x, y);
      && |g.strokes| == 1
      && |g.strokes[0].path| == 1 && g.strokes[0].path[0] == Point(x, y)
      && g.strokes[0].startTime == 0 && g.strokes[0].duration == 1
  {
  }

  /** The swipe's path runs from start to end in that order, and its duration is the caller's, unchanged and unchecked. */
  lemma SwipeGestureShape(startX: int, startY: int, endX: int, endY: int, duration: int)
    ensures var g := SwipeGesture(startX, startY, endX, endY, duration);
      && |g.strokes| == 1
      && g.strokes[0].path == [Point(startX, startY), Point(endX, endY)]
      && g.strokes[0].startTime == 0 && g.strokes[0].duration == duration
  {
  }

  /** What the service does on the platform. */
  datatype Effect =
    | Toast(text: string)
    | DispatchGesture(gesture: Gesture, hasCallback: bool, hasHandler: bool)

  const ConnectedToast := "Handy Service Connected"
  const DisconnectedToast := "Handy Service Disconnected"

  /** The dispatch of a gesture as the service makes it: no completion callback and no handler. */
  function Dispatched(g: Gesture): Effect
  {
    DispatchGesture(g, false, false)
  }

  /**
   * MainActivity's companion object: the process-wide slot holding the
   * connected service, or null. The service's lifecycle callbacks write it;
   * the method-call handler only reads it.
   */
  class Registry {
    var accessibilityService: GestureAccessibilityService?

    constructor ()
      ensures accessibilityService == null
    {
      accessibilityService := null;
    }
  }

  class GestureAccessibilityService {
    /** Everything the service has done on the platform, in order. */
    ghost var effects: seq<Effect>

    constructor ()
      ensures effects == []
    {
      effects := [];
    }

    /** onServiceConnected: register this instance in the slot, then show a toast. */
    method OnServiceConnected(registry: Registry)
      modifies this, registry
      ensures registry.accessibilityService == this
      ensures effects == old(effects) + [Toast(ConnectedToast)]
    {
      registry.accessibilityService := this;
      effects := effects + [Toast(ConnectedToast)];
    }

    /**
     * onUnbind: clear the slot whatever it held, show a toast, and answer
     * what the platform's own onUnbind answers (`superResult`).
     */
    method OnUnbind(registry: Registry, superResult: bool) returns (r: bool)
      modifies this, registry
      ensures registry.accessibilityService == null
      ensures effects == old(effects) + [Toast(DisconnectedToast)]
      ensures r == superResult
    {
      registry.accessibilityService := null;
      effects := effects + [Toast(DisconnectedToast)];
      r := superResult;
    }

    /** onAccessibilityEvent: events are ignored; nothing changes and nothing is dispatched. */
    method OnAccessibilityEvent()
      ensures effects == old(effects)
    {
    }

    /** onInterrupt: nothing changes and nothing is dispatched. */
    method OnInterrupt()
      ensures effects == old(effects)
    {
    }

    /** performClick: dispatch the tap gesture once, fire-and-forget. */
    method PerformClick(x: int, y: int)
      modifies this
      ensures effects == old(effects) + [Dispatched(ClickGesture(x, y))]
    {
      effects := effects + [Dispatched(ClickGesture(x, y))];
    }

    /** performSwipe: dispatch the swipe gesture once, fire-and-forget. */
    method PerformSwipe(startX: int, startY: int, endX: int, endY: int, duration: int)
      modifies this
      ensures effects == old(effects) + [Dispatched(SwipeGesture(startX, startY, endX, endY, duration))]
    {
      effects := effects + [Dispatched(SwipeGesture(startX, startY, endX, endY, duration))];
    }
  }
}
