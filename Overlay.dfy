/**
 * The cursor overlay of OverlayManager.kt: one always-on-top, untouchable
 * window holding an 80x80 cursor glyph. The manager has two states (no view,
 * view attached) and a window anchor that it updates in place. The platform's
 * WindowManager is modelled by the calls the manager makes on it, kept in a
 * ghost log; whether addView succeeds is the platform's answer, passed in.
 */
module Overlay {
  import opened Wrappers

  /** Kotlin's 32-bit `Int`. */
  newtype i32 = x: int | -0x8000_0000 <= x < 0x8000_0000

  const TwoTo32: int := 0x1_0000_0000

  /** Kotlin `Int` arithmetic: the mathematical value wrapped into 32 bits. */
  function Wrap32(v: int): (r: i32)
    ensures (r as int - v) % TwoTo32 == 0
    ensures -0x8000_0000 <= v < 0x8000_0000 ==> r as int == v
  {
    ((v + 0x8000_0000) % TwoTo32 - 0x8000_0000) as i32
  }

  /** Width and height of the cursor window, in pixels. */
  const CursorSize: i32 := 80

  /**
   * The window anchor that centres the glyph on pointer coordinate `c`:
   * `c - cursorSize / 2` in Kotlin `Int` arithmetic (80 / 2 is 40 under
   * both truncating and floored division).
   */
  function Anchor(c: i32): i32
  {
    Wrap32(c as int - (CursorSize / 2) as int)
  }

  /** The anchor is exactly 40 pixels up/left of the pointer, except where Kotlin's subtraction wraps. */
  lemma AnchorCentres(c: i32)
    ensures c as int >= -0x8000_0000 + 40 ==> Anchor(c) as int == c as int - 40
    ensures c as int < -0x8000_0000 + 40 ==> Anchor(c) as int == c as int - 40 + TwoTo32
  {
  }

  /** A view inflated from the cursor_overlay layout; only its identity matters. */
  class View {
    constructor ()
    {
    }
  }

  /** The calls the manager makes on the platform's WindowManager. */
  datatype WindowOp =
    | AddView(view: View, x: i32, y: i32, width: i32, height: i32, accepted: bool)
    | RemoveView(view: View)
    | UpdateViewLayout(view: View, x: i32, y: i32)

  /** The manager's abstract state: the view it holds (null: none) and the window anchor. */
  datatype OverlayState = OverlayState(view: View?, x: i32, y: i32)

  /** The state after a public operation and the window calls it issued, in order. */
  datatype Step = Step(after: OverlayState, calls: seq<WindowOp>)

  /** The state of a fresh manager: no view, anchor (0,0). */
  function Initial(): OverlayState
  {
    OverlayState(null, 0, 0)
  }

  /**
   * showOverlay: with no view, inflate `inflated`, remember it and call addView
   * once with the current anchor. The view is remembered even when the
   * platform refuses it (`accepted` false). With a view, nothing happens.
   */
  function ShowStep(s: OverlayState, inflated: View, accepted: bool): Step
  {
    if s.view == null then
      Step(s.(view := inflated), [AddView(inflated, s.x, s.y, CursorSize, CursorSize, accepted)])
    else
      Step(s, [])
  }

  /** hideOverlay: with a view, call removeView on it and forget it; the anchor is kept. */
  function HideStep(s: OverlayState): Step
  {
    if s.view != null then
      Step(s.(view := null), [RemoveView(s.view)])
    else
      Step(s, [])
  }

  /** updatePosition: with a view, move the anchor to centre the glyph on (x,y) and re-layout the view. */
  function MoveStep(s: OverlayState, x: i32, y: i32): Step
  {
    if s.view != null then
      var ax, ay := Anchor(x), Anchor(y);
      Step(s.(x := ax, y := ay), [UpdateViewLayout(s.view, ax, ay)])
    else
      Step(s, [])
  }

  /** isVisible: whether the manager holds a view. */
  predicate Visible(s: OverlayState)
  {
    s.view != null
  }

  // ---- What each operation promises ----

  lemma ShowAddsOnce(s: OverlayState, inflated: View, accepted: bool)
    requires !Visible(s)
    ensures var r := ShowStep(s, inflated, accepted);
      && |r.calls| == 1
      && r.calls[0].AddView? && r.calls[0].view == inflated
      && r.calls[0].x == s.x && r.calls[0].y == s.y
      && r.calls[0].width == 80 && r.calls[0].height == 80
      && r.after.view == inflated && r.after.x == s.x && r.after.y == s.y
  {
  }

  lemma ShowWhenVisibleIsNoop(s: OverlayState, inflated: View, accepted: bool)
    requires Visible(s)
    ensures ShowStep(s, inflated, accepted) == Step(s, [])
  {
  }

  /** Showing twice is showing once: the second call issues nothing and changes nothing. */
  lemma ShowIdempotent(s: OverlayState, v1: View, a1: bool, v2: View, a2: bool)
    ensures var first := ShowStep(s, v1, a1);
      ShowStep(first.after, v2, a2) == Step(first.after, [])
  {
  }

  /** A refused addView still leaves the view held: the overlay reports visible and a later show does nothing. */
  lemma RefusedAddStillVisible(s: OverlayState, inflated: View, v2: View, a2: bool)
    requires !Visible(s)
    ensures var r := ShowStep(s, inflated, false);
      && r.calls == [AddView(inflated, s.x, s.y, CursorSize, CursorSize, false)]
      && Visible(r.after)
      && ShowStep(r.after, v2, a2).calls == []
  {
  }

  lemma HideRemovesOnce(s: OverlayState)
    requires Visible(s)
    ensures var r := HideStep(s);
      && r.calls == [RemoveView(s.view)]
      && !Visible(r.after) && r.after.x == s.x && r.after.y == s.y
  {
  }

  lemma HideWhenHiddenIsNoop(s: OverlayState)
    requires !Visible(s)
    ensures HideStep(s) == Step(s, [])
  {
  }

  /** Moving a visible overlay centres the glyph, re-lays out the same view and creates none. */
  lemma UpdateCentresGlyph(s: OverlayState, x: i32, y: i32)
    requires Visible(s)
    requires x as int >= -0x8000_0000 + 40 && y as int >= -0x8000_0000 + 40
    ensures var r := MoveStep(s, x, y);
      && r.after.view == s.view
      && r.after.x as int == x as int - 40 && r.after.y as int == y as int - 40
      && r.calls == [UpdateViewLayout(s.view, r.after.x, r.after.y)]
  {
    AnchorCentres(x);
    AnchorCentres(y);
  }

  lemma UpdateWhenHiddenIsNoop(s: OverlayState, x: i32, y: i32)
    requires !Visible(s)
    ensures MoveStep(s, x, y) == Step(s, [])
  {
  }

  /** hideOverlay keeps the anchor, so showing again adds the new view where the last move left it. */
  lemma ReShowAtLastAnchor(s: OverlayState, x: i32, y: i32, v: View, accepted: bool)
    requires Visible(s)
    ensures var moved := MoveStep(s, x, y).after;
      var hidden := HideStep(moved).after;
      ShowStep(hidden, v, accepted).calls == [AddView(v, Anchor(x), Anchor(y), CursorSize, CursorSize, accepted)]
  {
  }

  // ---- The call protocol, and what the window manager shows ----

  /** The protocol after one window call, given the view `h` last added and not removed (null: none); None if the call is out of order. */
  function HoldingAfter(h: View?, op: WindowOp): Option<View?>
  {
    match op
    case AddView(v, _, _, _, _, _) => if h == null then Some(v) else None
    case RemoveView(v) => if h == v then Some(null) else None
    case UpdateViewLayout(v, _, _) => if h == v then Some(h) else None
  }

  /**
   * The view last passed to addView and not yet to removeView, or None if
   * the log is out of order: a second addView before a removeView, or a
   * removeView or updateViewLayout naming another view than the one added.
   * A refused addView counts here: this is the manager's side of the
   * protocol, not what is on the screen (see `Attached`).
   */
  function Holding(log: seq<WindowOp>): Option<View?>
  {
    if log == [] then Some(null)
    else
      match Holding(log[..|log| - 1])
      case None => None
      case Some(h) => HoldingAfter(h, log[|log| - 1])
  }

  /**
   * What the window manager shows after one call, given it shows `a` (null:
   * nothing). A refused addView attaches nothing; a removeView of the shown
   * view detaches it, and of any other view leaves the screen as it was.
   */
  function AttachedAfter(a: View?, op: WindowOp): View?
  {
    match op
    case AddView(v, _, _, _, _, accepted) => if accepted then v else a
    case RemoveView(v) => if a == v then null else a
    case UpdateViewLayout(_, _, _) => a
  }

  /** The view a log of window calls leaves attached by the window manager, or null. */
  function Attached(log: seq<WindowOp>): View?
  {
    if log == [] then null
    else AttachedAfter(Attached(log[..|log| - 1]), log[|log| - 1])
  }

  /**
   * The log agrees with a manager holding `view`: the calls are in order, the
   * view last added and not removed is `view`, and the window manager shows
   * that view or nothing (nothing after a refused addView).
   */
  predicate Agrees(log: seq<WindowOp>, view: View?)
  {
    && Holding(log) == Some(view)
    && (Attached(log) == null || Attached(log) == view)
  }

  lemma {:induction false} LogAppend(log: seq<WindowOp>, op: WindowOp)
    ensures Attached(log + [op]) == AttachedAfter(Attached(log), op)
    ensures Holding(log + [op]) ==
      match Holding(log)
      case None => None
      case Some(h) => HoldingAfter(h, op)
  {
    assert (log + [op])[..|log|] == log;
  }

  /** A show issued in a state the log agrees with keeps the log in order and in agreement. */
  lemma {:induction false} ShowKeepsAgreement(log: seq<WindowOp>, s: OverlayState, inflated: View, accepted: bool)
    requires Agrees(log, s.view)
    ensures var r := ShowStep(s, inflated, accepted);
      Agrees(log + r.calls, r.after.view)
  {
    var r := ShowStep(s, inflated, accepted);
    if s.view == null {
      LogAppend(log, r.calls[0]);
    } else {
      assert log + r.calls == log;
    }
  }

  /**
   * The consequence of keeping a refused view: after a show from no view the
   * manager always reports visible, but the window manager shows the new view
   * if and only if addView was accepted, and nothing otherwise.
   */
  lemma {:induction false} ShowOnScreenIffAccepted(log: seq<WindowOp>, s: OverlayState, inflated: View, accepted: bool)
    requires Agrees(log, s.view) && !Visible(s)
    ensures var r := ShowStep(s, inflated, accepted);
      && Visible(r.after)
      && Attached(log + r.calls) == (if accepted then inflated else null)
  {
    var r := ShowStep(s, inflated, accepted);
    LogAppend(log, r.calls[0]);
  }

  lemma {:induction false} HideKeepsAgreement(log: seq<WindowOp>, s: OverlayState)
    requires Agrees(log, s.view)
    ensures var r := HideStep(s);
      Agrees(log + r.calls, r.after.view) && Attached(log + r.calls) == null
  {
    var r := HideStep(s);
    if s.view != null {
      LogAppend(log, r.calls[0]);
    } else {
      assert log + r.calls == log;
    }
  }

  lemma {:induction false} UpdateKeepsAgreement(log: seq<WindowOp>, s: OverlayState, x: i32, y: i32)
    requires Agrees(log, s.view)
    ensures var r := MoveStep(s, x, y);
      Agrees(log + r.calls, r.after.view) && Attached(log + r.calls) == Attached(log)
  {
    var r := MoveStep(s, x, y);
    if s.view != null {
      LogAppend(log, r.calls[0]);
    } else {
      assert log + r.calls == log;
    }
  }

  // ---- The imperative manager ----

  /** WindowManager.LayoutParams: a fixed-size window whose anchor is updated in place. */
  class LayoutParams {
    const width: i32
    const height: i32
    var x: i32
    var y: i32

    constructor (width: i32, height: i32)
      ensures this.width == width && this.height == height
      ensures x == 0 && y == 0
    {
      this.width := width;
      this.height := height;
      x := 0;
      y := 0;
    }
  }

  class OverlayManager {
    var overlayView: View?
    const params: LayoutParams
    /** The window calls issued so far, in order. */
    ghost var windowLog: seq<WindowOp>

    ghost predicate Valid()
      reads this, params
    {
      && params.width == CursorSize && params.height == CursorSize
      && Agrees(windowLog, overlayView)
    }

    ghost function State(): OverlayState
      reads this, params
    {
      OverlayState(overlayView, params.x, params.y)
    }

    constructor ()
      ensures Valid() && fresh(params)
      ensures State() == Initial() && windowLog == []
      ensures params.width == 80 && params.height == 80
    {
      overlayView := null;
      params := new LayoutParams(CursorSize, CursorSize);
      windowLog := [];
    }

    method ShowOverlay(addViewAccepted: bool)
      requires Valid()
      modifies this
      ensures Valid()
      ensures overlayView != null
      ensures old(overlayView) == null ==> fresh(overlayView)
      ensures old(overlayView) == null ==> (Attached(windowLog) == overlayView <==> addViewAccepted)
      ensures var r := ShowStep(old(State()), overlayView, addViewAccepted);
        State() == r.after && windowLog == old(windowLog) + r.calls
    {
      if overlayView == null {
        var v := new View();
        overlayView := v;
        // addViewAccepted false: addView threw BadTokenException, which is caught, and the view is kept
        windowLog := windowLog + [AddView(v, params.x, params.y, params.width, params.height, addViewAccepted)];
        ShowKeepsAgreement(old(windowLog), old(State()), v, addViewAccepted);
        ShowOnScreenIffAccepted(old(windowLog), old(State()), v, addViewAccepted);
      } else {
        ShowKeepsAgreement(windowLog, State(), overlayView, addViewAccepted);
      }
    }

    method HideOverlay()
      requires Valid()
      modifies this
      ensures Valid()
      ensures var r := HideStep(old(State()));
        State() == r.after && windowLog == old(windowLog) + r.calls
    {
      HideKeepsAgreement(windowLog, State());
      if overlayView != null {
        windowLog := windowLog + [RemoveView(overlayView)];
        overlayView := null;
      }
    }

    method UpdatePosition(x: i32, y: i32)
      requires Valid()
      modifies this, params
      ensures Valid()
      ensures var r := MoveStep(old(State()), x, y);
        State() == r.after && windowLog == old(windowLog) + r.calls
    {
      UpdateKeepsAgreement(windowLog, State(), x, y);
      if overlayView != null {
        params.x := Anchor(x);
        params.y := Anchor(y);
        windowLog := windowLog + [UpdateViewLayout(overlayView, params.x, params.y)];
      }
    }

    /**
     * isVisible: true exactly when the calls made so far leave a view passed
     * to addView and not to removeView. A view the window manager shows is
     * always reported; the converse fails after a refused addView.
     */
    function IsVisible(): (r: bool)
      reads this, params
      requires Valid()
      ensures r <==> Holding(windowLog) != Some(null)
      ensures Attached(windowLog) != null ==> r
    {
      overlayView != null
    }
  }

  /** Show, move to (10,10), hide: the anchor is (-30,-30) and the overlay is no longer visible. */
  method ShowMoveHideScenario()
  {
    var manager := new OverlayManager();
    manager.ShowOverlay(true);
    assert manager.IsVisible();
    manager.UpdatePosition(10, 10);
    assert manager.params.x == -30 && manager.params.y == -30;
    manager.HideOverlay();
    assert !manager.IsVisible();
    assert |manager.windowLog| == 3;
  }

  /** A show whose addView is refused: the overlay reports visible, yet nothing is on the screen. */
  method RefusedShowScenario()
  {
    var manager := new OverlayManager();
    manager.ShowOverlay(false);
    assert manager.IsVisible();
    assert Attached(manager.windowLog) == null;
    manager.ShowOverlay(true);
    assert |manager.windowLog| == 1;
  }
}
