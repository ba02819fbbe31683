# Soft-keyboard detector and chat input of a Three.js chat page, in Dafny

This project models two pieces of a Next.js page that shows a 3D avatar with a
chat box on top.

- **The soft-keyboard detector.** This is the `useKeyboardHandler` hook. It keeps
  a keyboard height and an "is open" flag. Four kinds of signal drive it:
  - a window resize (Android only);
  - a visual-viewport resize or scroll (iOS, when the API exists);
  - focus on the input;
  - a blur timer firing.
  Every write goes through `updateKeyboardState`, which derives the flag as
  `height > 100`.
- **The chat input state.** This is the page component's list of messages, the
  text being typed, and the visibility of the message panel. Sending appends the
  trimmed text, then clears the input.

Files:

- `js_text.dfy` (module `JsText`): the two JavaScript string operations the code
  uses. These are `String.prototype.trim`, over ECMAScript's whitespace and
  line-terminator characters, and a literal `RegExp.test`, which is a substring
  search.
- `keyboard_spec.dfy` (module `KeyboardSpec`): the detector as values. It holds
  the platform tests, the state, the events, `Step` (one event) and `Run` (a
  sequence of events), and lemmas about what holds along any sequence.
- `keyboard_hook.dfy` (module `KeyboardHook`): the hook as a class.
  - The React state and the Android listener's reference height are fields.
  - Each handler is a method.
  - Each method states its effect and equals the matching `Step`.
- `chat_page.dfy` (module `ChatPage`): the page's chat state as a class.
  - One method per handler.
  - The invariant: every stored message is non-empty and trimmed.

Heights are `real`, because `visualViewport.height` is fractional in browsers.
The browser's readings are method parameters: `navigator.userAgent`,
`window.innerHeight` and `visualViewport.height`. The existence of
`window.visualViewport` is a constructor parameter.

Facts about the detector that the model keeps as the code has them:

- The focus estimate is 300 on iOS and 280 elsewhere.
- The open flag is `height > 100`.
  - `KeyboardSpec.OpenIffPositiveWithoutViewport` proves that it equals
    `height > 0` when the visual-viewport listener is inactive.
  - `KeyboardSpec.SmallViewportDifferenceStaysClosed` shows that it does not on iOS.
- Window resizes are handled one at a time with fixed thresholds: a drop of
  more than 200 opens, a rise of more than 100 closes.
- The blur timer is never cancelled and does not check focus.
- The visual-viewport path is used only on iOS.

## Model

| member | source | states |
|---|---|---|
| `JsText.Trim` | src/app/page.tsx:17 | `trim()` returns a string with no whitespace at either end. That string is a slice of the input with only whitespace around it. It is empty exactly when the input is all whitespace. |
| `JsText.TrimUnique` | src/app/page.tsx:17 | A trimmed string padded with whitespace on both sides trims back to itself, so the slice is unique. |
| `JsText.TrimIdempotent` | src/app/page.tsx:21 | Trimming a stored (already trimmed) content changes nothing. |
| `JsText.Contains` | src/hooks/usekeyboardHandler.ts:7-8 | The literal-pattern `test` holds exactly when the pattern occurs at some index of the string. |
| `KeyboardSpec.IsIOS` | src/hooks/usekeyboardHandler.ts:7 | iOS is detected exactly when "iPad", "iPhone" or "iPod" occurs in the user agent. |
| `KeyboardSpec.IsAndroid` | src/hooks/usekeyboardHandler.ts:8 | Android is detected exactly when "Android" occurs in the user agent. |
| `KeyboardSpec.DetectPlatform` | src/hooks/usekeyboardHandler.ts:7-17 | The iOS flag holds exactly when "iPad", "iPhone" or "iPod" occurs in the user agent. The Android flag holds exactly when "Android" occurs. The viewport listener is active exactly on iOS with a visual viewport. |
| `KeyboardSpec.BothPlatformsDetected` | src/hooks/usekeyboardHandler.ts:7-8 | The two tests are independent: one user agent can pass both. |
| `KeyboardSpec.Initial` | src/hooks/usekeyboardHandler.ts:4-39 | The hook mounts consistent, at height 0 and closed, with the window height as the reference and no timer pending. |
| `KeyboardSpec.Write` | src/hooks/usekeyboardHandler.ts:10-13 | A write stores the height as given and leaves the state consistent (open iff height > 100). It leaves the reference height and the pending timers alone. |
| `KeyboardSpec.Step` | src/hooks/usekeyboardHandler.ts:21-73 | One event keeps open iff height > 100. Only an Android resize moves the reference height, to the current height. A blur adds one pending timer and a firing consumes one. |
| `KeyboardSpec.RunKeepsConsistent` | src/hooks/usekeyboardHandler.ts:4-13 | `isKeyboardOpen == (keyboardHeight > 100)` holds after any sequence of events from any consistent state, the initial `(0, false)` included. |
| `KeyboardSpec.OpenIffPositiveWithoutViewport` | src/hooks/usekeyboardHandler.ts:41-73 | Without the visual-viewport listener, every height stays at or above 0, and the keyboard is open exactly when its height is positive, along any event sequence. |
| `KeyboardSpec.SmallViewportDifferenceStaysClosed` | src/hooks/usekeyboardHandler.ts:21-67 | On iOS a viewport difference of at most 100 is stored as the height with the keyboard closed. When it is nonzero (50px, say), a focus after it makes no estimate, because the height is not 0. |
| `KeyboardSpec.NegativeViewportDifferenceIsStored` | src/hooks/usekeyboardHandler.ts:21-23 | A negative viewport difference is written as the height, closed. |
| `KeyboardSpec.BlurTimerClosesAfterRefocus` | src/hooks/usekeyboardHandler.ts:62-73 | Blur, then focus, then the timer firing ends with height 0 and closed, and the pending-timer count is back where it started. |
| `KeyboardSpec.BlursThenFiresClose` | src/hooks/usekeyboardHandler.ts:69-73 | After n blurs and n timer firings (n > 0), the keyboard is closed and the pending-timer count is back where it started. |
| `KeyboardSpec.RunBlurs` | src/hooks/usekeyboardHandler.ts:69-70 | Each blur only schedules a timer. |
| `KeyboardSpec.RunFires` | src/hooks/usekeyboardHandler.ts:70-72 | Each firing consumes one timer and closes the keyboard. The reference height is untouched. |
| `KeyboardHook.KeyboardHandler.constructor` | src/hooks/usekeyboardHandler.ts:4-8 | The hook mounts with height 0, closed, platform flags from the user agent, and the window height as the reference. |
| `KeyboardHook.KeyboardHandler.UpdateKeyboardState` | src/hooks/usekeyboardHandler.ts:10-13 | It stores the height, sets open iff height > 100, and keeps the invariant. |
| `KeyboardHook.KeyboardHandler.OnViewportChange` | src/hooks/usekeyboardHandler.ts:16-24 | On iOS with a visual viewport, `innerHeight - viewportHeight` becomes the height whatever its size or sign. On other platforms nothing changes. |
| `KeyboardHook.KeyboardHandler.OnWindowResize` | src/hooks/usekeyboardHandler.ts:36-55 | On Android, a drop > 200 opens with the drop as height. A rise > 100 with a positive height closes to 0. Anything else keeps the keyboard state. The reference always becomes the current height. Off Android nothing changes. |
| `KeyboardHook.KeyboardHandler.OnInputFocus` | src/hooks/usekeyboardHandler.ts:62-67 | With height 0, focus stores 300 on iOS and 280 elsewhere, and opens. With any other height nothing changes. |
| `KeyboardHook.KeyboardHandler.OnInputBlur` | src/hooks/usekeyboardHandler.ts:69-70 | Blur schedules one timer and changes nothing else. |
| `KeyboardHook.KeyboardHandler.OnBlurTimer` | src/hooks/usekeyboardHandler.ts:70-72 | The timer firing sets height 0 and closed, unconditionally. |
| `ChatPage.SendTransition` | src/app/page.tsx:16-23 | A send grows the list by at most one message and never changes an earlier one. It keeps every message non-empty and trimmed. |
| `ChatPage.SendAppendsOne` | src/app/page.tsx:16-23 | A successful send grows the list by exactly one message at the end, with content `input.trim()`. That message is non-empty and trimmed. Earlier messages are unchanged and the input is cleared. |
| `ChatPage.Page.constructor` | src/app/page.tsx:12-14 | No messages, empty input, panel hidden. |
| `ChatPage.Page.CanSend` | src/app/page.tsx:84 | The Send button is enabled exactly when the input holds a non-whitespace character. |
| `ChatPage.Page.OnInputChange` | src/app/page.tsx:75 | Typing replaces the input and touches nothing else. |
| `ChatPage.Page.SendMessage` | src/app/page.tsx:16-24 | With the button disabled, messages and input are unchanged. Otherwise `input.trim()` is appended and the input is cleared. Every stored message stays non-empty and trimmed. |
| `ChatPage.Page.HandleSubmit` | src/app/page.tsx:26-29 | A submit prevents the default and sends. |
| `ChatPage.Page.HandleKeyDown` | src/app/page.tsx:31-36 | The default is prevented exactly for Enter without Shift, and then a send happens. Every other key, Shift+Enter included, changes nothing. |
| `ChatPage.Page.HandleTextareaFocus` | src/app/page.tsx:38-40 | Focus shows the messages and leaves messages and input alone. |
| `ChatPage.Page.Close` | src/app/page.tsx:52 | Close hides the messages and leaves messages and input alone. |

## Left out

- React's effect lifecycle and listener registration. A listener that the hook
  registers is a method; one it does not register is a method that changes
  nothing.
- Re-reading the reference height. The Android effect depends on
  `keyboardHeight`, so each change of height re-subscribes and re-reads
  `window.innerHeight` into the reference height. The model carries the
  reference over instead. The two agree as long as each change of
  `window.innerHeight` on Android is delivered as a resize event before the
  next change of `keyboardHeight` re-subscribes the listener.
- `setTimeout` timing. The 100ms blur delay is not modelled. A blur schedules a
  timer and the firing is a separate, later event. The timers are counted.
  Nothing orders their firing against the other events.
- `KeyboardHook.KeyboardHandler.OnBlurTimer` requires a pending timer, because a
  timer fires only after it was scheduled. `KeyboardSpec.Step` treats a firing
  with none pending as doing nothing.
- Floating-point rounding in the height subtraction. Heights are exact reals.
- Message ids. `Date.now().toString()` becomes an id parameter, and the model
  does not say whether ids are unique.
- Rendering: the JSX and CSS of the page, the 3D scene (`Scene.tsx`), the layout
  and the Next.js configuration. They have no state that the chat or the
  detector uses.
- The hook is not used by the page, so the model has no interaction between
  the two.
