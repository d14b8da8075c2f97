# Side-button mouse events and downloads of a macOS web view, in Dafny

This project models two small adapters of the macOS (WKWebView) back end of
the wry web-view library:

- **Synthetic mouse events** (`synthetic_mouse_events.dfy`). AppKit reports
  the back and forward buttons of a mouse (buttons 3 and 4) as "other mouse"
  events. The engine does not turn these into DOM events. `otherMouseDown:`
  and `otherMouseUp:` catch them and evaluate a script in the page instead.
  The script builds a DOM `MouseEvent`, dispatches it on the element under
  the pointer, and, on release, navigates the history unless the page
  prevented the default. Every other event goes to the view's `mouseDown:` /
  `mouseUp:`. The handlers are functions that return the one outbound call
  they make (`Action`). The script is the text of the `format!`
  call.
- **Script template** (`script_template.dfy`). A model of `format!` as the
  script builder uses it: literal text with typed holes. Integers are written
  in decimal, booleans as `true`/`false`, and event names as they are.
  `Parse` is the inverse of `Format`. Every property of the script is stated
  about what the emitted text parses back to, or about literal text it
  provably contains.
- **Downloads** (`download.dfy`). The web view stores a download delegate
  and attaches it to every navigation that becomes a download. The delegate
  holds two application callbacks, `started` and `completed`. Its
  `download_policy` runs `started` on the download's URL and the suggested
  path. The callback may rewrite the path or refuse. The delegate then
  answers the engine's completion handler exactly once. `download_did_finish`
  and `download_did_fail` report the outcome to `completed` when that slot
  is filled. These objects are classes whose fields the methods update. Every
  outbound call is appended to the delegate's `calls` trace. Each method's
  new trace is tied to a pure function of the old state.

`wrappers.dfy` holds the `Option` type used for the callback slots and for
fallible reads.

Three behaviours of the code worth knowing:

- A side button event goes through only when its type matches the handler
  (`otherMouseDown:` needs an other-mouse-down event). Everything else,
  including buttons other than 3 and 4, is passed to the view's
  primary-button `mouseDown:` / `mouseUp:`.
- The `completed` callback runs only when its slot is filled. A download
  whose delegate has an empty `completed` slot reports nothing.
- The path passed to `completed` is always `None`, on success too.

## Model

| member | source | states |
|---|---|---|
| ScriptTemplate.ParseFormat | src/wkwebview/synthetic_mouse_events.rs:88-135 | Reading a formatted string back against its template gives exactly the arguments written, when every hole is followed by text that cannot continue it |
| ScriptTemplate.FormatInjective | src/wkwebview/synthetic_mouse_events.rs:88-135 | Two different argument lists never give the same script text |
| ScriptTemplate.DigitsToNatOfNatToString | src/wkwebview/synthetic_mouse_events.rs:125-134 | The decimal text of a number reads back as that number |
| ScriptTemplate.NatToString | src/wkwebview/synthetic_mouse_events.rs:125-134 | The decimal text of a number is non-empty, all digits, and has no leading zero |
| ScriptTemplate.FormatContainsHole | src/wkwebview/synthetic_mouse_events.rs:88-135 | For every hole, the first included, the literal before it (the template's lead for the first hole), the hole's argument and the literal after it occur together in the output |
| SyntheticMouseEvents.MouseEventTemplate | src/wkwebview/synthetic_mouse_events.rs:89-124 | The literal text and hole order of the script template: 21 holes, hole `i` of kind `HoleKind(i)` (numbers, the event name twice, four booleans) followed by the literal `After(i)`, after the lead up to `elementFromPoint(` |
| SyntheticMouseEvents.EventName | src/wkwebview/synthetic_mouse_events.rs:77 | The event name is a word, and it is "mousedown" iff `down` and "mouseup" iff not |
| SyntheticMouseEvents.JsButton | src/wkwebview/synthetic_mouse_events.rs:79 | The DOM button is 3 iff the back button and 4 iff not |
| SyntheticMouseEvents.ModifierKey | src/wkwebview/synthetic_mouse_events.rs:129-132 | The mask test for a modifier key gives exactly whether that key's bit of the flags is set |
| SyntheticMouseEvents.TemplateSeparated | src/wkwebview/synthetic_mouse_events.rs:89-124 | In the script template every hole is followed by a character that ends it (`,` `)` `'` `"`) |
| SyntheticMouseEvents.DecodeRender | src/wkwebview/synthetic_mouse_events.rs:88-135 | A script made from any field values whose event names are words decodes back to exactly those values |
| SyntheticMouseEvents.JsMouseEvent | src/wkwebview/synthetic_mouse_events.rs:71-134 | Event name is "mousedown" iff down and "mouseup" iff not, and the guard uses the same name; button is 3 iff back button and 4 otherwise; one (x, y) fills elementFromPoint, x/y, client, layer, page and both screen offsets; buttons is the pressed-buttons mask; detail is the click count; each modifier key equals its own bit of the flags |
| SyntheticMouseEvents.CreateJsMouseEvent | src/wkwebview/synthetic_mouse_events.rs:71-136 | The script decodes to exactly the fields above. It contains `bubbles: true`, `cancelable: true`, `composed: true` and `cancelBubble: false`. Its history block (back for button 3, forward for button 4) is guarded by `!ev.defaultPrevented && "<event name>" === "mouseup"` |
| SyntheticMouseEvents.HistoryNavigationGuarded | src/wkwebview/synthetic_mouse_events.rs:116-123 | Every rendered script holds the guard with its own event name, followed by the back/forward block |
| SyntheticMouseEvents.ConstantFlags | src/wkwebview/synthetic_mouse_events.rs:97-103 | Every rendered script sets `bubbles`, `cancelable` and `composed` true and `cancelBubble` false |
| SyntheticMouseEvents.MaskMatchesBit | src/wkwebview/synthetic_mouse_events.rs:129-132 | The test `flags & mask == mask` of `create_js_mouse_event` on a one-bit mask is exactly "that bit of the flags is set" |
| SyntheticMouseEvents.FlipOtherBit | src/wkwebview/synthetic_mouse_events.rs:129-132 | Flipping one bit of the flags does not change the reading of any other bit |
| SyntheticMouseEvents.FlipSameBit | src/wkwebview/synthetic_mouse_events.rs:129-132 | Flipping a bit flips the reading of that bit |
| SyntheticMouseEvents.ModifierKeysIndependent | src/wkwebview/synthetic_mouse_events.rs:129-132 | Flipping a bit of the modifier flags changes a modifier key exactly when that bit is the key's own. Every other field of the event stays as it was |
| SyntheticMouseEvents.OnlyControlKey | src/wkwebview/synthetic_mouse_events.rs:129-132 | Flags holding only the control mask give ctrlKey true and altKey, shiftKey, metaKey false |
| SyntheticMouseEvents.OtherMouseDown | src/wkwebview/synthetic_mouse_events.rs:22-45 | A script is evaluated iff the event is an other-mouse-down of button 3 or 4, and then `mouseDown:` is not called. The script decodes to a "mousedown" event whose JS button equals the native button. Any other event calls `mouseDown:` with the event itself and evaluates nothing |
| SyntheticMouseEvents.OtherMouseUp | src/wkwebview/synthetic_mouse_events.rs:46-69 | A script is evaluated iff the event is an other-mouse-up of button 3 or 4. It decodes to a "mouseup" event whose JS button equals the native button. Any other event calls `mouseUp:` with the event itself |
| Download.PolicyCalls | src/wkwebview/download.rs:85-120 | The completion handler is called exactly once, as the last call. `started` is called once, with the request URL and the suggested path, iff the slot is filled. The handler gets a non-directory file URL of the path as the callback left it when the callback accepts, and null when it refuses or the slot is empty |
| Download.CompletionCalls | src/wkwebview/download.rs:122-166 | `completed` is called once with (url, no path, outcome) iff its slot is filled, and nothing else is called |
| Download.DownloadLifecycle | src/wkwebview/download.rs:85-166 | Over a decision followed by finish or failure: one handler answer. `started` runs at most once and never after a completion report. `completed` runs once iff its slot is filled, with the outcome of the path taken |
| Download.DownloadDelegate.DownloadPolicy | src/wkwebview/download.rs:85-120 | With a mutable path that starts as the suggested path, appends to the trace exactly the calls of PolicyCalls |
| Download.DownloadDelegate.DownloadDidFinish | src/wkwebview/download.rs:122-137 | Appends CompletionCalls with success = true |
| Download.DownloadDelegate.DownloadDidFail | src/wkwebview/download.rs:139-166 | Appends CompletionCalls with success = false. The error is not passed on |
| Download.WebView.SetDownloadDelegate | src/wkwebview/download.rs:15-30 | The stored delegate becomes the one given |
| Download.WebView.GetDownloadDelegate | src/wkwebview/download.rs:32-39 | Returns the delegate last stored |
| Download.WebView.NavigationDownloadAction | src/wkwebview/download.rs:42-54 | The download's delegate becomes the stored delegate |
| Download.WebView.NavigationDownloadResponse | src/wkwebview/download.rs:57-69 | The download's delegate becomes the stored delegate |

## Left out

- Registering the methods and the instance variable with the Objective-C runtime (`add_download_methods`, `add_synthetic_mouse_events_methods`) is runtime plumbing. The pointer-typed instance variables are typed fields (`Option` slots, a nullable delegate reference).
- Location of an event: `locationInWindow`, `convertPoint:fromView:` and the saturating float-to-`u32` cast are not modelled. A `NativeEvent` carries its view coordinates already truncated, as natural numbers with no `u32` bound.
- `NSEvent::pressedMouseButtons()` reads global input state. It is a parameter of the handlers.
- The modifier masks are AppKit's (shift bit 17, control 18, option 19, command 20). The independence lemmas hold for any bit positions, so the model does not depend on these values beyond their being distinct single bits.
- The evaluation of the script (`elementFromPoint` returning null, `dispatchEvent`, the history API) is out of scope. So is the engine's `evaluateJavaScript:completionHandler:`, which is called with no handler. The model covers only the emitted text.
- Modelled as an opaque `FileUrl(path, isDirectory)` value: `NSURL fileURLWithPath:isDirectory:`, and the conversions between `NSString`, `PathBuf` and `String`.
- The `started` callback is a pure function from (url, path) to (accept, new path). Internal state that the Rust `FnMut` closure keeps between downloads is not captured. The `completed` callback is known only by its identity.
- `unwrap()` on the original request and its URL (a panic in the Rust code) is a precondition: `requestUrl.Some?`.
- Reading the delegate instance variable before it was ever set, which in the Rust code reads a null reference, is excluded by the precondition of `GetDownloadDelegate` and of the two `didBecomeDownload` handlers.
- Logging: the `tracing::warn!` when the `started` slot is empty, and the debug-only `eprintln!` of the failure description.
- The view being dropped while the engine still delivers a callback is covered only as an empty slot. Threads and lifetimes are out of scope.
