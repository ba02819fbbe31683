/** The `useKeyboardHandler` hook as an object: its React state and the
    Android listener's reference height are fields, and each listener, the
    focus handler and the blur handler is a method that updates them. The
    browser's readings (`navigator.userAgent`, `window.innerHeight`,
    `visualViewport.height`) are parameters. Every method is specified by the
    matching step of KeyboardSpec, and states its effect directly as well. */
module KeyboardHook {
  import opened KeyboardSpec

  class KeyboardHandler {
    const platform: Platform
    var keyboardHeight: real
    var isKeyboardOpen: bool
    /** The reference height of the Android resize listener. */
    var lastWindowHeight: real
    /** Blur timers scheduled by `OnInputBlur` that have not fired yet. */
    var pendingBlurTimers: nat

    function State(): KeyboardState
      reads this
    {
      KeyboardState(keyboardHeight, isKeyboardOpen, lastWindowHeight, pendingBlurTimers)
    }

    ghost predicate Valid()
      reads this
    {
      Consistent(State())
    }

    /** Mounting the hook: height 0, closed, the reference height read from the window. */
    constructor (userAgent: string, hasVisualViewport: bool, innerHeight: real)
      ensures Valid()
      ensures platform == DetectPlatform(userAgent, hasVisualViewport)
      ensures State() == Initial(innerHeight)
    {
      platform := DetectPlatform(userAgent, hasVisualViewport);
      keyboardHeight := 0.0;
      isKeyboardOpen := false;
      lastWindowHeight := innerHeight;
      pendingBlurTimers := 0;
    }

    /** Stores the height and derives the open flag from it. */
    method UpdateKeyboardState(height: real)
      modifies this`keyboardHeight, this`isKeyboardOpen
      ensures Valid()
      ensures keyboardHeight == height
      ensures isKeyboardOpen <==> height > OpenThreshold
      ensures State() == Write(old(State()), height)
    {
      keyboardHeight := height;
      isKeyboardOpen := height > OpenThreshold;
    }

    /** The visual viewport was resized or scrolled. Only iOS with a visual
        viewport listens; there the difference is stored whatever its size or sign. */
    method OnViewportChange(innerHeight: real, viewportHeight: real)
      requires Valid()
      modifies this`keyboardHeight, this`isKeyboardOpen
      ensures Valid()
      ensures platform.ListensToViewport() ==>
        keyboardHeight == innerHeight - viewportHeight &&
        (isKeyboardOpen <==> innerHeight - viewportHeight > OpenThreshold)
      ensures !platform.ListensToViewport() ==> State() == old(State())
      ensures State() == Step(platform, old(State()), ViewportChange(innerHeight, viewportHeight))
    {
      if !platform.ListensToViewport() {
        return;
      }
      var heightDiff := innerHeight - viewportHeight;
      UpdateKeyboardState(heightDiff);
    }

    /** The window was resized. Only Android listens: a drop of more than 200
        opens with the drop as height; a rise of more than 100 closes when a
        height is stored; anything else leaves the keyboard as it is. The
        reference height always becomes the current one. */
    method OnWindowResize(currentHeight: real)
      requires Valid()
      modifies this`keyboardHeight, this`isKeyboardOpen, this`lastWindowHeight
      ensures Valid()
      ensures platform.ListensToWindowResize() ==>
        var heightDiff := old(lastWindowHeight) - currentHeight;
        && lastWindowHeight == currentHeight
        && (heightDiff > AndroidOpenDrop ==> keyboardHeight == heightDiff && isKeyboardOpen)
        && (heightDiff < -AndroidCloseRise && old(keyboardHeight) > 0.0 ==>
              keyboardHeight == 0.0 && !isKeyboardOpen)
        && (heightDiff <= AndroidOpenDrop && !(heightDiff < -AndroidCloseRise && old(keyboardHeight) > 0.0) ==>
              keyboardHeight == old(keyboardHeight) && isKeyboardOpen == old(isKeyboardOpen))
      ensures !platform.ListensToWindowResize() ==> State() == old(State())
      ensures State() == Step(platform, old(State()), WindowResize(currentHeight))
    {
      if !platform.ListensToWindowResize() {
        return;
      }
      var heightDiff := lastWindowHeight - currentHeight;
      if heightDiff > AndroidOpenDrop {
        UpdateKeyboardState(heightDiff);
      } else if heightDiff < -AndroidCloseRise && keyboardHeight > 0.0 {
        UpdateKeyboardState(0.0);
      }
      lastWindowHeight := currentHeight;
    }

    /** The input gained focus. With no height stored, the estimate for the
        platform is stored, which opens the keyboard; otherwise nothing changes. */
    method OnInputFocus()
      requires Valid()
      modifies this`keyboardHeight, this`isKeyboardOpen
      ensures Valid()
      ensures old(keyboardHeight) == 0.0 ==>
        keyboardHeight == (if platform.isIOS then IosFocusEstimate else OtherFocusEstimate) && isKeyboardOpen
      ensures old(keyboardHeight) != 0.0 ==> State() == old(State())
      ensures State() == Step(platform, old(State()), InputFocus)
    {
      if keyboardHeight == 0.0 {
        UpdateKeyboardState(if platform.isIOS then IosFocusEstimate else OtherFocusEstimate);
      }
    }

    /** The input lost focus: a timer is scheduled and nothing else changes. */
    method OnInputBlur()
      requires Valid()
      modifies this`pendingBlurTimers
      ensures Valid()
      ensures pendingBlurTimers == old(pendingBlurTimers) + 1
      ensures State() == Step(platform, old(State()), InputBlur)
    {
      pendingBlurTimers := pendingBlurTimers + 1;
    }

    /** A blur timer fires: the keyboard closes, whatever happened since the blur. */
    method OnBlurTimer()
      requires Valid() && pendingBlurTimers > 0
      modifies this`keyboardHeight, this`isKeyboardOpen, this`pendingBlurTimers
      ensures Valid()
      ensures keyboardHeight == 0.0 && !isKeyboardOpen
      ensures pendingBlurTimers == old(pendingBlurTimers) - 1
      ensures State() == Step(platform, old(State()), BlurTimerFires)
    {
      pendingBlurTimers := pendingBlurTimers - 1;
      UpdateKeyboardState(0.0);
    }
  }

  /** An Android session: the keyboard opens on a 300px drop, a refocus keeps
      the measured height, and a 300px rise closes it again. */
  method AndroidSession(h: KeyboardHandler)
    requires h.Valid() && h.platform.isAndroid
    requires h.keyboardHeight == 0.0 && h.lastWindowHeight == 800.0
    modifies h
  {
    h.OnWindowResize(500.0);
    assert h.keyboardHeight == 300.0 && h.isKeyboardOpen;
    h.OnInputFocus();
    assert h.keyboardHeight == 300.0;
    h.OnWindowResize(800.0);
    assert h.keyboardHeight == 0.0 && !h.isKeyboardOpen;
  }
}
