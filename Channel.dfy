/**
 * MainActivity.kt: the handler of the "com.handy/gestures" method channel.
 * Each call is answered once, with an error when no service is registered,
 * and otherwise drives at most one gesture method of the service. `Handle`
 * states the handler as a function of the slot's state, the method name and
 * the arguments; `MainActivity.OnMethodCall` runs it against the real slot and
 * service and is proved to agree with it.
 */
module Channel {
  import opened Wrappers
  import opened Gestures

  const ChannelName := "com.handy/gestures"
  const UnavailableCode := "UNAVAILABLE"
  const UnavailableMessage := "Accessibility Service is not running or active."

  /** The value used for a missing coordinate argument. */
  const DefaultCoordinate: int := 0
  /** The value used for a missing swipe duration, in ms. */
  const DefaultSwipeDuration: int := 300

  /** A call's arguments by name; a missing key is an argument that was not sent (null). */
  type Args = map<string, int>

  datatype MethodCall = MethodCall(name: string, arguments: Args)

  /** The one answer a call receives: result.success, result.error (no details) or result.notImplemented. */
  datatype Reply =
    | Success(value: bool)
    | Error(code: string, message: string)
    | NotImplemented

  /** A reply and the gesture method called on the service, if any. */
  datatype Outcome = Outcome(reply: Reply, gesture: Option<Command>)

  /** `call.argument(key) ?: default`. */
  function Argument(args: Args, key: string, default: int): int
  {
    if key in args then args[key] else default
  }

  /**
   * The handler, given whether the slot holds a service. A missing service is
   * answered before the method name is looked at; so is "isServiceEnabled",
   * whose answer re-reads the slot and therefore can only be true.
   */
  function Handle(present: bool, call: MethodCall): (r: Outcome)
    ensures r.reply.Error? <==> !present
    ensures !present ==> r == Outcome(Error(UnavailableCode, UnavailableMessage), None)
    ensures r.gesture.Some? <==> present && call.name in {"performSwipe", "performClick"}
    ensures r.gesture.Some? ==> r.reply == Success(true)
    ensures r.reply.NotImplemented? <==> present && call.name !in {"performSwipe", "performClick", "isServiceEnabled"}
    ensures r.reply.Success? ==> r.reply.value
  {
    var args := call.arguments;
    if !present then
      Outcome(Error(UnavailableCode, UnavailableMessage), None)
    else if call.name == "performSwipe" then
      var startX := Argument(args, "startX", DefaultCoordinate);
      var startY := Argument(args, "startY", DefaultCoordinate);
      var endX := Argument(args, "endX", DefaultCoordinate);
      var endY := Argument(args, "endY", DefaultCoordinate);
      var duration := Argument(args, "duration", DefaultSwipeDuration);
      Outcome(Success(true), Some(Swipe(startX, startY, endX, endY, duration)))
    else if call.name == "performClick" then
      var x := Argument(args, "x", DefaultCoordinate);
      var y := Argument(args, "y", DefaultCoordinate);
      Outcome(Success(true), Some(Click(x, y)))
    else if call.name == "isServiceEnabled" then
      Outcome(Success(present), None)
    else
      Outcome(NotImplemented, None)
  }

  /** The effects a call leaves on the service: its gesture's dispatch, if any. */
  function EffectsOf(gesture: Option<Command>): seq<Effect>
  {
    match gesture
    case None => []
    case Some(c) => [Dispatched(GestureOf(c))]
  }

  /** Without a service every call, whatever its name, gets the UNAVAILABLE error and dispatches nothing. */
  lemma UnavailableWithoutService(call: MethodCall)
    ensures Handle(false, call) == Outcome(Error("UNAVAILABLE", "Accessibility Service is not running or active."), None)
    ensures EffectsOf(Handle(false, call).gesture) == []
  {
  }

  /** "performClick" taps once at the sent coordinates, 0 for a missing one, and answers true. */
  lemma ClickArguments(args: Args)
    ensures var r := Handle(true, MethodCall("performClick", args));
      && r.reply == Success(true)
      && r.gesture.Some? && r.gesture.value.Click?
      && ("x" in args ==> r.gesture.value.x == args["x"]) && ("x" !in args ==> r.gesture.value.x == 0)
      && ("y" in args ==> r.gesture.value.y == args["y"]) && ("y" !in args ==> r.gesture.value.y == 0)
  {
  }

  /** "performSwipe" swipes once with the sent arguments, 0 for a missing coordinate and 300 for a missing duration, and answers true. */
  lemma SwipeArguments(args: Args)
    ensures var r := Handle(true, MethodCall("performSwipe", args));
      && r.reply == Success(true)
      && r.gesture.Some? && r.gesture.value.Swipe?
      && var c := r.gesture.value;
      && ("startX" in args ==> c.startX == args["startX"]) && ("startX" !in args ==> c.startX == 0)
      && ("startY" in args ==> c.startY == args["startY"]) && ("startY" !in args ==> c.startY == 0)
      && ("endX" in args ==> c.endX == args["endX"]) && ("endX" !in args ==> c.endX == 0)
      && ("endY" in args ==> c.endY == args["endY"]) && ("endY" !in args ==> c.endY == 0)
      && ("duration" in args ==> c.duration == args["duration"]) && ("duration" !in args ==> c.duration == 300)
  {
  }

  /** "isServiceEnabled" never answers false: with no service it is refused, with one it answers true. */
  lemma ServiceEnabledNeverFalse(present: bool, args: Args)
    ensures var r := Handle(present, MethodCall("isServiceEnabled", args));
      && r.gesture == None
      && r.reply != Success(false)
      && (present <==> r.reply == Success(true))
  {
  }

  /** Any other method name with a service present is not implemented and dispatches nothing. */
  lemma UnknownMethodNotImplemented(call: MethodCall)
    requires call.name !in {"performSwipe", "performClick", "isServiceEnabled"}
    ensures Handle(true, call) == Outcome(NotImplemented, None)
  {
  }

  /** Every call dispatches at most one gesture. */
  lemma AtMostOneDispatch(present: bool, call: MethodCall)
    ensures |EffectsOf(Handle(present, call).gesture)| <= 1
  {
  }

  /** The activity: it reads the companion slot and, through it, calls the service. */
  class MainActivity {
    const registry: Registry

    constructor (registry: Registry)
      ensures this.registry == registry
    {
      this.registry := registry;
    }

    /**
     * The method-call handler. It never writes the slot (`registry` is not in
     * its frame); what it answers and dispatches is what `Handle` says of the
     * slot's state when the call arrives.
     */
    method OnMethodCall(call: MethodCall) returns (reply: Reply)
      modifies registry.accessibilityService
      ensures registry.accessibilityService == old(registry.accessibilityService)
      ensures var r := Handle(old(registry.accessibilityService) != null, call);
        && reply == r.reply
        && (registry.accessibilityService != null ==>
              registry.accessibilityService.effects == old(registry.accessibilityService.effects) + EffectsOf(r.gesture))
    {
      var service := registry.accessibilityService;
      if service == null {
        reply := Error(UnavailableCode, UnavailableMessage);
        return;
      }
      var args := call.arguments;
      if call.name == "performSwipe" {
        var startX := Argument(args, "startX", DefaultCoordinate);
        var startY := Argument(args, "startY", DefaultCoordinate);
        var endX := Argument(args, "endX", DefaultCoordinate);
        var endY := Argument(args, "endY", DefaultCoordinate);
        var duration := Argument(args, "duration", DefaultSwipeDuration);
        service.PerformSwipe(startX, startY, endX, endY, duration);
        reply := Success(true);
      } else if call.name == "performClick" {
        var x := Argument(args, "x", DefaultCoordinate);
        var y := Argument(args, "y", DefaultCoordinate);
        service.PerformClick(x, y);
        reply := Success(true);
      } else if call.name == "isServiceEnabled" {
        reply := Success(registry.accessibilityService != null);
      } else {
        reply := NotImplemented;
      }
    }
  }

  /**
   * Tap while disconnected, connect, tap at (100,200), disconnect, swipe:
   * refused, accepted with one one-point gesture, refused.
   */
  method ConnectTapDisconnectScenario()
  {
    var registry := new Registry();
    var activity := new MainActivity(registry);
    var tap := MethodCall("performClick", map["x" := 100, "y" := 200]);
    var reply := activity.OnMethodCall(tap);
    assert reply == Error(UnavailableCode, UnavailableMessage);

    var service := new GestureAccessibilityService();
    service.OnServiceConnected(registry);
    reply := activity.OnMethodCall(tap);
    assert reply == Success(true);
    assert service.effects == [Toast(ConnectedToast), Dispatched(ClickGesture(100, 200))];

    var _ := service.OnUnbind(registry, false);
    var swipe := MethodCall("performSwipe", map["startX" := 0, "startY" := 0, "endX" := 50, "endY" := 50, "duration" := 300]);
    reply := activity.OnMethodCall(swipe);
    assert reply == Error(UnavailableCode, UnavailableMessage);
    assert |service.effects| == 3;
  }
}
