/** The soft-keyboard detector of the `useKeyboardHandler` hook, as values: the
    state the hook keeps, the events that drive it, one step per event, and what
    holds along any sequence of events. The class in KeyboardHook carries out
    these steps by updating fields; its methods are specified by `Step`. */
module KeyboardSpec {
  import opened JsText

  /** A height above this is reported as an open keyboard. */
  const OpenThreshold: real := 100.0
  /** An Android window that shrinks by more than this has opened the keyboard. */
  const AndroidOpenDrop: real := 200.0
  /** An Android window that grows by more than this has closed the keyboard. */
  const AndroidCloseRise: real := 100.0
  /** The height assumed on focus when none has been measured. */
  const IosFocusEstimate: real := 300.0
  const OtherFocusEstimate: real := 280.0

  /** `/iPad|iPhone|iPod/.test(userAgent)` */
  function IsIOS(userAgent: string): (r: bool)
    ensures r <==> || (exists i :: OccursAt(userAgent, "iPad", i))
                   || (exists i :: OccursAt(userAgent, "iPhone", i))
                   || (exists i :: OccursAt(userAgent, "iPod", i))
  {
    Contains(userAgent, "iPad") || Contains(userAgent, "iPhone") || Contains(userAgent, "iPod")
  }

  /** `/Android/.test(userAgent)` */
  function IsAndroid(userAgent: string): (r: bool)
    ensures r <==> exists i :: OccursAt(userAgent, "Android", i)
  {
    Contains(userAgent, "Android")
  }

  /** The two user-agent tests are independent: a string can pass both. */
  lemma BothPlatformsDetected()
    ensures IsIOS("iPhone Android") && IsAndroid("iPhone Android")
  {
    assert "iPhone Android"[0..6] == "iPhone";
    assert OccursAt("iPhone Android", "iPhone", 0);
    assert "iPhone Android"[7..14] == "Android";
    assert OccursAt("iPhone Android", "Android", 7);
  }

  /** What the hook learns about its browser once per render: the two
      user-agent tests, computed independently of each other, and whether
      `window.visualViewport` exists. */
  datatype Platform = Platform(isIOS: bool, isAndroid: bool, hasVisualViewport: bool)
  {
    /** The visual-viewport listeners are registered only on iOS with a visual viewport. */
    predicate ListensToViewport() { isIOS && hasVisualViewport }
    /** The window resize listener is registered only on Android. */
    predicate ListensToWindowResize() { isAndroid }
  }

  function DetectPlatform(userAgent: string, hasVisualViewport: bool): (p: Platform)
    ensures p.isIOS <==> || (exists i :: OccursAt(userAgent, "iPad", i))
                         || (exists i :: OccursAt(userAgent, "iPhone", i))
                         || (exists i :: OccursAt(userAgent, "iPod", i))
    ensures p.isAndroid <==> exists i :: OccursAt(userAgent, "Android", i)
    ensures p.ListensToViewport() <==> p.isIOS && hasVisualViewport
  {
    Platform(IsIOS(userAgent), IsAndroid(userAgent), hasVisualViewport)
  }

  /** The hook's state: the two React state variables, the Android listener's
      reference height, and the number of blur timers scheduled and not yet fired. */
  datatype KeyboardState = KeyboardState(
    keyboardHeight: real,
    isKeyboardOpen: bool,
    lastWindowHeight: real,
    pendingBlurTimers: nat)

  /** The signals the hook reacts to. A window or viewport height is the value
      the browser reports when the event is delivered. */
  datatype Event =
    | WindowResize(innerHeight: real)
    | ViewportChange(innerHeight: real, viewportHeight: real)  // visual viewport resize or scroll
    | InputFocus
    | InputBlur
    | BlurTimerFires

  /** The state when the hook mounts in a window of the given height. */
  function Initial(innerHeight: real): (s: KeyboardState)
    ensures s.keyboardHeight == 0.0 && !s.isKeyboardOpen
    ensures Consistent(s) && ClosedOrAboveThreshold(s)
    ensures s.lastWindowHeight == innerHeight && s.pendingBlurTimers == 0
  {
    KeyboardState(0.0, false, innerHeight, 0)
  }

  /** The invariant that every write through `updateKeyboardState` keeps. */
  ghost predicate Consistent(s: KeyboardState) {
    s.isKeyboardOpen == (s.keyboardHeight > OpenThreshold)
  }

  /** `updateKeyboardState(height)`: the height is stored as given and the open
      flag is derived from it; nothing else changes. */
  function Write(s: KeyboardState, height: real): (r: KeyboardState)
    ensures Consistent(r)
    ensures r.keyboardHeight == height
    ensures r.lastWindowHeight == s.lastWindowHeight && r.pendingBlurTimers == s.pendingBlurTimers
  {
    s.(keyboardHeight := height, isKeyboardOpen := height > OpenThreshold)
  }

  /** The state after one event on the given platform. */
  function Step(p: Platform, s: KeyboardState, e: Event): (r: KeyboardState)
    ensures Consistent(s) ==> Consistent(r)
    ensures r.lastWindowHeight == (if e.WindowResize? && p.ListensToWindowResize() then e.innerHeight else s.lastWindowHeight)
    ensures r.pendingBlurTimers ==
      if e.InputBlur? then s.pendingBlurTimers + 1
      else if e.BlurTimerFires? && s.pendingBlurTimers > 0 then s.pendingBlurTimers - 1
      else s.pendingBlurTimers
  {
    match e
    case WindowResize(currentHeight) =>
      if !p.ListensToWindowResize() then s
      else
        var heightDiff := s.lastWindowHeight - currentHeight;
        var s' :=
          if heightDiff > AndroidOpenDrop then Write(s, heightDiff)
          else if heightDiff < -AndroidCloseRise && s.keyboardHeight > 0.0 then Write(s, 0.0)
          else s;
        s'.(lastWindowHeight := currentHeight)
    case ViewportChange(innerHeight, viewportHeight) =>
      if !p.ListensToViewport() then s
      else Write(s, innerHeight - viewportHeight)
    case InputFocus =>
      if s.keyboardHeight == 0.0 then
        Write(s, if p.isIOS then IosFocusEstimate else OtherFocusEstimate)
      else s
    case InputBlur =>
      s.(pendingBlurTimers := s.pendingBlurTimers + 1)
    case BlurTimerFires =>
      if s.pendingBlurTimers == 0 then s
      else Write(s, 0.0).(pendingBlurTimers := s.pendingBlurTimers - 1)
  }

  /** The state after a sequence of events, delivered one at a time in order. */
  function Run(p: Platform, s: KeyboardState, events: seq<Event>): KeyboardState
    decreases |events|
  {
    if events == [] then s else Run(p, Step(p, s, events[0]), events[1..])
  }

  /** Running two sequences one after the other is running their concatenation. */
  lemma {:induction false} RunAppend(p: Platform, s: KeyboardState, xs: seq<Event>, ys: seq<Event>)
    ensures Run(p, s, xs + ys) == Run(p, Run(p, s, xs), ys)
    decreases |xs|
  {
    if xs == [] {
      assert xs + ys == ys;
    } else {
      assert (xs + ys)[1..] == xs[1..] + ys;
      RunAppend(p, Step(p, s, xs[0]), xs[1..], ys);
    }
  }

  /** `isKeyboardOpen == (keyboardHeight > 100)` after any sequence of events
      from any consistent state, the initial state included. */
  lemma {:induction false} RunKeepsConsistent(p: Platform, s: KeyboardState, events: seq<Event>)
    requires Consistent(s)
    ensures Consistent(Run(p, s, events))
    decreases |events|
  {
    if events != [] {
      RunKeepsConsistent(p, Step(p, s, events[0]), events[1..]);
    }
  }

  /** No height is stored that lies between 0 and the open threshold, and none is negative. */
  ghost predicate ClosedOrAboveThreshold(s: KeyboardState) {
    s.keyboardHeight == 0.0 || s.keyboardHeight > OpenThreshold
  }

  /** Without the visual-viewport listener, every height the hook writes is 0,
      an Android drop of more than 200 or a focus estimate; so from the initial
      state the keyboard is open exactly when its height is positive, and no
      height is ever negative. */
  lemma {:induction false} OpenIffPositiveWithoutViewport(p: Platform, s: KeyboardState, events: seq<Event>)
    requires !p.ListensToViewport()
    requires Consistent(s) && ClosedOrAboveThreshold(s)
    ensures var t := Run(p, s, events);
      && t.keyboardHeight >= 0.0
      && (t.isKeyboardOpen <==> t.keyboardHeight > 0.0)
    decreases |events|
  {
    if events == [] {
    } else {
      var s' := Step(p, s, events[0]);
      assert Consistent(s') && ClosedOrAboveThreshold(s');
      OpenIffPositiveWithoutViewport(p, s', events[1..]);
    }
  }

  /** With the visual-viewport listener a difference of at most 100 is stored
      as it is, with the keyboard closed. A nonzero one (50px, say) leaves a
      nonzero height with the keyboard closed, so "open exactly when the height
      is positive" does not hold on iOS; and a focus that follows makes no
      estimate, because the height is not 0. */
  lemma SmallViewportDifferenceStaysClosed(p: Platform, s: KeyboardState, innerHeight: real, viewportHeight: real)
    requires p.ListensToViewport() && innerHeight - viewportHeight <= OpenThreshold
    ensures var t := Step(p, s, ViewportChange(innerHeight, viewportHeight));
      && t.keyboardHeight == innerHeight - viewportHeight && !t.isKeyboardOpen
      && (innerHeight - viewportHeight != 0.0 ==> Step(p, t, InputFocus) == t)
  {
  }

  /** The viewport difference is written even when it is negative. */
  lemma NegativeViewportDifferenceIsStored(p: Platform, s: KeyboardState, innerHeight: real, viewportHeight: real)
    requires p.ListensToViewport() && innerHeight < viewportHeight
    ensures var t := Step(p, s, ViewportChange(innerHeight, viewportHeight));
      t.keyboardHeight == innerHeight - viewportHeight && t.keyboardHeight < 0.0 && !t.isKeyboardOpen
  {
  }

  /** A blur timer closes the keyboard even when the input was focused again
      after the blur: the timer is never cancelled and checks nothing. */
  lemma {:induction false} BlurTimerClosesAfterRefocus(p: Platform, s: KeyboardState)
    ensures var t := Run(p, s, [InputBlur, InputFocus, BlurTimerFires]);
      t.keyboardHeight == 0.0 && !t.isKeyboardOpen && t.pendingBlurTimers == s.pendingBlurTimers
  {
    var s1 := Step(p, s, InputBlur);
    var s2 := Step(p, s1, InputFocus);
    var s3 := Step(p, s2, BlurTimerFires);
    assert [InputBlur, InputFocus, BlurTimerFires][1..] == [InputFocus, BlurTimerFires];
    assert [InputFocus, BlurTimerFires][1..] == [BlurTimerFires];
    assert Run(p, s2, [BlurTimerFires]) == s3;
  }

  /** Each blur schedules exactly one close: after n blurs and n timer firings
      the keyboard is closed and the pending-timer count is back where it started. */
  lemma {:induction false} BlursThenFiresClose(p: Platform, s: KeyboardState, n: nat)
    requires n > 0
    ensures var t := Run(p, s, Repeat(InputBlur, n) + Repeat(BlurTimerFires, n));
      t.keyboardHeight == 0.0 && !t.isKeyboardOpen && t.pendingBlurTimers == s.pendingBlurTimers
  {
    RunAppend(p, s, Repeat(InputBlur, n), Repeat(BlurTimerFires, n));
    var mid := Run(p, s, Repeat(InputBlur, n));
    RunBlurs(p, s, n);
    RunFires(p, mid, n);
  }

  function Repeat(e: Event, n: nat): (r: seq<Event>)
    ensures |r| == n
  {
    if n == 0 then [] else [e] + Repeat(e, n - 1)
  }

  /** n blurs schedule n timers and change nothing else. */
  lemma {:induction false} RunBlurs(p: Platform, s: KeyboardState, n: nat)
    ensures Run(p, s, Repeat(InputBlur, n)) == s.(pendingBlurTimers := s.pendingBlurTimers + n)
    decreases n
  {
    if n > 0 {
      assert Repeat(InputBlur, n)[1..] == Repeat(InputBlur, n - 1);
      RunBlurs(p, Step(p, s, InputBlur), n - 1);
    }
  }

  /** n firings with at least n timers pending leave the keyboard closed (for n > 0). */
  lemma {:induction false} RunFires(p: Platform, s: KeyboardState, n: nat)
    requires n <= s.pendingBlurTimers
    ensures var t := Run(p, s, Repeat(BlurTimerFires, n));
      && t.pendingBlurTimers == s.pendingBlurTimers - n
      && t.lastWindowHeight == s.lastWindowHeight
      && (n > 0 ==> t.keyboardHeight == 0.0 && !t.isKeyboardOpen)
      && (n == 0 ==> t == s)
    decreases n
  {
    if n > 0 {
      assert Repeat(BlurTimerFires, n)[1..] == Repeat(BlurTimerFires, n - 1);
      var s' := Step(p, s, BlurTimerFires);
      RunFires(p, s', n - 1);
      if n - 1 == 0 {
        assert Run(p, s', Repeat(BlurTimerFires, n - 1)) == s';
      }
    }
  }
}
