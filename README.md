# Handy: gesture bridge and cursor overlay, modelled in Dafny

Handy is an Android bridge. A Flutter controller sends tap and swipe commands over the
method channel `com.handy/gestures`. An accessibility service turns each command into a
one-stroke gesture and hands it to the platform. Separately, a cursor overlay can be
shown, moved and hidden on top of the screen. This project models the three Kotlin
classes that do this and proves what they promise:

- `Overlay.dfy` (module `Overlay`) models `OverlayManager`. It has two states: no view,
  or a view handed to the window manager. The window anchor is a mutable `LayoutParams`
  object. The window-manager calls (`addView`, `removeView`, `updateViewLayout`) go into
  a ghost log. Pure step functions `ShowStep`, `HideStep` and `MoveStep` state each
  operation on an abstract `OverlayState`. The class methods are proved to change the
  state and the log exactly as those functions say. `Holding` reads the log as a call
  protocol: it gives the view last passed to `addView` and not yet to `removeView`, or
  `None` when the calls come out of order. `Attached` reads the log as the window manager
  does, so a refused `addView` attaches nothing. The class invariant `Valid()` says that
  `Holding(windowLog)` is exactly the view the manager holds, and that the window manager
  shows that view or nothing. Kotlin's 32-bit `Int` is the newtype `i32`, and
  the centring subtraction `x - cursorSize/2` wraps explicitly (`Wrap32`).
- `Gestures.dfy` (module `Gestures`) models `GestureAccessibilityService`.
  - `ClickGesture` and `SwipeGesture` build the stroke descriptions.
  - `CommandOf` reads the command back from a gesture, so translation loses nothing.
  - The service's `PerformClick` and `PerformSwipe` append exactly one dispatch, with no
    callback and no handler, to a ghost effect log.
  - `Registry` is `MainActivity`'s companion slot. It lives in this module because the
    service's lifecycle callbacks write it.
- `Channel.dfy` (module `Channel`) models the method-call handler of `MainActivity`.
  - `Handle` is the handler as a total function of (slot holds a service, method name,
    arguments) to one reply plus at most one gesture call.
  - `MainActivity.OnMethodCall` is the handler as it runs: it reads the real slot and
    calls the real service. It is proved to agree with `Handle`, and its frame shows it
    never writes the slot.
- `Wrappers.dfy` holds the `Option` type.

Two behaviours of the code are modelled as written:

- When `addView` throws `WindowManager.BadTokenException`, the exception is caught but
  `overlayView` stays set. The overlay then reports visible, and a later `showOverlay`
  does nothing (`RefusedAddStillVisible`). Meanwhile the window manager shows nothing
  (`ShowOnScreenIffAccepted`).
- The handler rejects a null service before it looks at the method name. So
  `isServiceEnabled` can only ever answer `true` (`ServiceEnabledNeverFalse`).

The code checks neither stroke durations nor coordinates. Whatever the caller sends
reaches the stroke unchanged.

## Model

| member | source | states |
|---|---|---|
| `Overlay.Wrap32` | android/app/src/main/kotlin/com/handy/OverlayManager.kt:69-70 | the result is the 32-bit `Int` congruent to the mathematical value modulo 2^32, and equal to it when it is in range |
| `Overlay.AnchorCentres` | android/app/src/main/kotlin/com/handy/OverlayManager.kt:19-70 | the anchor for pointer coordinate c is c - 40 (cursorSize/2 with cursorSize 80), plus 2^32 where Kotlin's subtraction wraps |
| `Overlay.ShowAddsOnce` | android/app/src/main/kotlin/com/handy/OverlayManager.kt:46-58 | with no view, show holds the newly inflated view and issues exactly one addView of it, at the current anchor, 80x80, without moving the anchor |
| `Overlay.ShowWhenVisibleIsNoop` | android/app/src/main/kotlin/com/handy/OverlayManager.kt:46-47 | with a view already held, show issues no window call and changes no state |
| `Overlay.ShowIdempotent` | android/app/src/main/kotlin/com/handy/OverlayManager.kt:46-58 | a second show after any show issues nothing and changes nothing |
| `Overlay.RefusedAddStillVisible` | android/app/src/main/kotlin/com/handy/OverlayManager.kt:50-75 | when addView is refused, the view is still held: the overlay is visible and a later show issues no call |
| `Overlay.HideRemovesOnce` | android/app/src/main/kotlin/com/handy/OverlayManager.kt:60-65 | with a view, hide issues exactly one removeView of that view, drops it and keeps the anchor |
| `Overlay.HideWhenHiddenIsNoop` | android/app/src/main/kotlin/com/handy/OverlayManager.kt:60-61 | with no view, hide issues no window call and changes no state |
| `Overlay.UpdateCentresGlyph` | android/app/src/main/kotlin/com/handy/OverlayManager.kt:67-72 | with a view and no wrap-around, the anchor becomes (x-40, y-40), negative values included, and one updateViewLayout of the same view is issued with it; no view is created |
| `Overlay.UpdateWhenHiddenIsNoop` | android/app/src/main/kotlin/com/handy/OverlayManager.kt:67-68 | with no view, updatePosition leaves the anchor and the window log unchanged |
| `Overlay.ReShowAtLastAnchor` | android/app/src/main/kotlin/com/handy/OverlayManager.kt:60-72 | move, hide, show: the new view is added at the anchor the last move set, because hide does not reset it |
| `Overlay.ShowKeepsAgreement` | android/app/src/main/kotlin/com/handy/OverlayManager.kt:46-58 | from a state the window log agrees with, show keeps the log in order (no second addView before a removeView), its last added view is the held one, and the window manager shows that view or nothing |
| `Overlay.ShowOnScreenIffAccepted` | android/app/src/main/kotlin/com/handy/OverlayManager.kt:46-58 | after a show from no view the overlay is always visible, but the window manager shows the new view if and only if addView was accepted, and nothing after a caught BadTokenException |
| `Overlay.HideKeepsAgreement` | android/app/src/main/kotlin/com/handy/OverlayManager.kt:60-65 | hide keeps the log in order: its removeView names the view last added, and afterwards nothing is held and nothing is on screen |
| `Overlay.UpdateKeepsAgreement` | android/app/src/main/kotlin/com/handy/OverlayManager.kt:67-72 | updatePosition keeps the log in order: its updateViewLayout names the view last added, and what is on screen does not change |
| `Overlay.LayoutParams.constructor` | android/app/src/main/kotlin/com/handy/OverlayManager.kt:22-42 | the window parameters start with the given size and anchor (0,0) |
| `Overlay.OverlayManager.constructor` | android/app/src/main/kotlin/com/handy/OverlayManager.kt:15-42 | a new manager holds no view, its window is 80x80 at anchor (0,0), and no window call has been made |
| `Overlay.OverlayManager.ShowOverlay` | android/app/src/main/kotlin/com/handy/OverlayManager.kt:46-58 | the new state and the calls appended to the log are those of ShowStep; a view is held afterwards, and it is freshly inflated if none was held before, and it is on screen if and only if addView was accepted |
| `Overlay.OverlayManager.HideOverlay` | android/app/src/main/kotlin/com/handy/OverlayManager.kt:60-65 | the new state and the calls appended to the log are those of HideStep, and the invariant is kept |
| `Overlay.OverlayManager.UpdatePosition` | android/app/src/main/kotlin/com/handy/OverlayManager.kt:67-73 | the new anchor, view and appended calls are those of MoveStep, and the invariant is kept |
| `Overlay.OverlayManager.IsVisible` | android/app/src/main/kotlin/com/handy/OverlayManager.kt:75 | true if and only if the calls made so far leave a view passed to addView and not to removeView; a view the window manager shows is always reported visible; it changes no state |
| `Gestures.CommandOf` | android/app/src/main/kotlin/com/listy/GestureAccessibilityService.kt:42-63 | a gesture is read back as a command only if it is exactly the gesture that command dispatches |
| `Gestures.CommandOfGestureOf` | android/app/src/main/kotlin/com/listy/GestureAccessibilityService.kt:42-63 | every click and swipe is recovered from the gesture it dispatches |
| `Gestures.GestureOfInjective` | android/app/src/main/kotlin/com/listy/GestureAccessibilityService.kt:42-63 | different commands dispatch different gestures |
| `Gestures.ClickGestureShape` | android/app/src/main/kotlin/com/listy/GestureAccessibilityService.kt:42-48 | a click is one stroke whose path is the single point (x,y), with start time 0 and duration 1 |
| `Gestures.SwipeGestureShape` | android/app/src/main/kotlin/com/listy/GestureAccessibilityService.kt:55-61 | a swipe is one stroke whose path is [(startX,startY),(endX,endY)] in that order, with start time 0 and the caller's duration unchanged |
| `Gestures.Registry.constructor` | android/app/src/main/kotlin/com/listy/MainActivity.kt:12-14 | the slot starts empty (null) |
| `Gestures.GestureAccessibilityService.OnServiceConnected` | android/app/src/main/kotlin/com/listy/GestureAccessibilityService.kt:15-20 | the slot holds this service afterwards, and one toast is shown |
| `Gestures.GestureAccessibilityService.OnUnbind` | android/app/src/main/kotlin/com/listy/GestureAccessibilityService.kt:23-27 | the slot is null afterwards whatever it held, one toast is shown, and the platform's own answer is returned |
| `Gestures.GestureAccessibilityService.OnAccessibilityEvent` | android/app/src/main/kotlin/com/listy/GestureAccessibilityService.kt:30-32 | nothing changes and nothing is dispatched |
| `Gestures.GestureAccessibilityService.OnInterrupt` | android/app/src/main/kotlin/com/listy/GestureAccessibilityService.kt:35-37 | nothing changes and nothing is dispatched |
| `Gestures.GestureAccessibilityService.PerformClick` | android/app/src/main/kotlin/com/listy/GestureAccessibilityService.kt:42-52 | exactly one effect is appended: the click gesture, dispatched with no callback and no handler |
| `Gestures.GestureAccessibilityService.PerformSwipe` | android/app/src/main/kotlin/com/listy/GestureAccessibilityService.kt:55-64 | exactly one effect is appended: the swipe gesture, dispatched with no callback and no handler |
| `Channel.Handle` | android/app/src/main/kotlin/com/listy/MainActivity.kt:19-57 | an error reply iff no service, and then exactly UNAVAILABLE with no gesture; a gesture iff a service is present and the method is performSwipe or performClick, and then the reply is success(true); notImplemented iff a service is present and the name is unknown; a success reply is never false |
| `Channel.UnavailableWithoutService` | android/app/src/main/kotlin/com/listy/MainActivity.kt:23-27 | without a service, every call, whatever its name, gets error("UNAVAILABLE", "Accessibility Service is not running or active.") and dispatches nothing |
| `Channel.ClickArguments` | android/app/src/main/kotlin/com/listy/MainActivity.kt:41-47 | performClick clicks once at the sent x and y, 0 for each one missing, and replies success(true) |
| `Channel.SwipeArguments` | android/app/src/main/kotlin/com/listy/MainActivity.kt:31-40 | performSwipe swipes once with the sent coordinates and duration, 0 for a missing coordinate and 300 for a missing duration, and replies success(true) |
| `Channel.ServiceEnabledNeverFalse` | android/app/src/main/kotlin/com/listy/MainActivity.kt:23-27 | isServiceEnabled dispatches nothing and never replies success(false): success(true) if and only if a service is present |
| `Channel.UnknownMethodNotImplemented` | android/app/src/main/kotlin/com/listy/MainActivity.kt:53-55 | any other name with a service present replies notImplemented and dispatches nothing |
| `Channel.AtMostOneDispatch` | android/app/src/main/kotlin/com/listy/MainActivity.kt:19-57 | every call leaves at most one dispatch on the service |
| `Channel.MainActivity.OnMethodCall` | android/app/src/main/kotlin/com/listy/MainActivity.kt:19-57 | the slot is unchanged; the reply and the effects appended to the service are those Handle gives for the slot's state on arrival |

## Left out

- Android framework internals. `LayoutInflater`, `R.layout.cursor_overlay`, `Toast`, `Path`, `GestureDescription.Builder` and `dispatchGesture` appear only as entries in ghost logs (`View` objects, `Toast` and `DispatchGesture` effects).
- The window type chosen by `Build.VERSION.SDK_INT`, the window flags, gravity and pixel format (OverlayManager.kt:26-39). These are platform configuration with no behaviour here. Only the 80x80 size and the anchor are modelled.
- What the platform does with the calls. Whether `addView` succeeds is an input to `ShowOverlay`. `addViewAccepted` false stands only for the caught `WindowManager.BadTokenException` (OverlayManager.kt:53). Any other exception from `addView` would leave `showOverlay` with `overlayView` already set, and the model does not capture that path. `removeView` and `updateViewLayout` are taken to return normally, so the model does not capture what the platform does when it is asked to remove or re-lay out a view it never attached (after a refused `addView`).
- The `MethodChannel` transport and the typing of `call.argument<Int>` and `call.argument<Long>`. Arguments are a map from names to integers, and each present value is taken to have the type the handler reads it at. In practice that does not always hold. Flutter's standard codec normally decodes a Dart integer that fits in 32 bits as an `Integer`, so `call.argument<Long>("duration")` (MainActivity.kt:36) would throw whenever a small `duration` is sent. In that case the handler never reaches `performSwipe` or `success(true)`. `SwipeArguments`' `success(true)` therefore holds only when the duration is absent or arrives as a `Long`. This is inferred from the codec's documented behaviour and was not observed. Replies are the handler's return value, so "exactly one reply" holds by construction. The `null` error details are left out of `Reply`.
- Gesture coordinates are mathematical integers. The `toFloat()` conversion, and the platform's animation of the swipe along its path, are floating point and happen on the OS side.
- The boolean that `dispatchGesture` returns is discarded by the code and is not modelled.
- `onUnbind`'s `Intent` argument and the value of the platform's own `onUnbind` are a parameter, `superResult`, returned unchanged.
- `e.printStackTrace()`, threading and lifecycle timing. Everything runs on the single main thread, so concurrency has nothing to model.
