/**
 * Side-button mouse dispatch on the web view.  AppKit reports the back and
 * forward buttons of a mouse (buttons 3 and 4) as "other mouse" events that
 * the web engine does not turn into DOM events; these handlers do that by
 * evaluating a script in the page that dispatches a `MouseEvent` and, on
 * release, navigates the history.  Every other event goes to the view's
 * default `mouseDown:`/`mouseUp:` handling.
 */
module SyntheticMouseEvents {
  import opened Wrappers
  import opened ScriptTemplate

  /** Bit positions of AppKit's modifier-key masks in an event's modifier flags. */
  const ShiftBit: bv64 := 17
  const ControlBit: bv64 := 18
  const AlternateBit: bv64 := 19
  const CommandBit: bv64 := 20

  const ShiftKeyMask: bv64 := 1 << ShiftBit
  const ControlKeyMask: bv64 := 1 << ControlBit
  const AlternateKeyMask: bv64 := 1 << AlternateBit
  const CommandKeyMask: bv64 := 1 << CommandBit

  /** Reference reading of a modifier key: bit number `bit` of `flags` is one. */
  predicate BitIsSet(flags: bv64, bit: bv64)
    requires bit < 64
  {
    (flags >> bit) & 1 == 1
  }

  /** How the script builder tests a modifier key: every bit of `mask` is set in `flags`. */
  predicate MaskSet(flags: bv64, mask: bv64) {
    flags & mask == mask
  }

  /**
   * The values the script template is filled with, one field per hole of the
   * template and in the template's order.
   */
  datatype ScriptFields = ScriptFields(
    pointX: int, pointY: int,          // document.elementFromPoint(pointX, pointY)
    eventName: string,                 // new MouseEvent('eventName', ...)
    button: int, buttons: int,
    x: int, y: int,
    detail: int,
    clientX: int, clientY: int,
    layerX: int, layerY: int,
    pageX: int, pageY: int,
    screenXOffset: int, screenYOffset: int,  // added to window.screenX / window.screenY
    ctrlKey: bool, metaKey: bool, shiftKey: bool, altKey: bool,
    guardEventName: string)            // "guardEventName" === "mouseup"

  const Indent8 := "        "
  const Indent10 := "          "
  const Indent12 := "            "

  /** The end of the event's initialiser and its dispatch on the element found. */
  const DispatchEvent := ",\n" + Indent8 + "});\n" + Indent8 + "el.dispatchEvent(ev)\n" + Indent8

  /** The opening of the history-navigation block, up to the event name it compares. */
  const GuardOpen := "if (!ev.defaultPrevented && \""
  /** The rest of the guard after the event name. */
  const GuardClose := "\" === \"mouseup\")"
  /** The guarded block: back for button 3, forward for button 4, then the end of the script. */
  const HistoryNavigation :=
    " {\n" +
    Indent10 + "if (ev.button === 3) {\n" +
    Indent12 + "window.history.back();\n" +
    Indent10 + "}\n" +
    Indent10 + "if (ev.button === 4) {\n" +
    Indent12 + "window.history.forward();\n" +
    Indent10 + "}\n" +
    Indent8 + "}\n" +
    "      })()"

  const Bubbles := "bubbles: true,"
  const CancelBubble := "cancelBubble: false,"
  const Cancelable := "cancelable: true,"
  const Composed := "composed: true,"

  /** The number of holes of the script template. */
  const HoleCount := 21

  /** The kind of hole `i` of the script template. */
  function HoleKind(i: nat): Kind {
    if i == 2 || i == 20 then Word              // MouseEvent('name', and "name" === "mouseup"
    else if 16 <= i <= 19 then Boolean          // ctrlKey, metaKey, shiftKey, altKey
    else Number
  }

  /** The literal text of the script template before its first hole. */
  const Lead := "(() => {\n" + Indent8 + "const el = document.elementFromPoint("

  /** The literal text of the script template after hole `i`. */
  function After(i: nat): string
    requires i < HoleCount
  {
    match i
    case 0 => ","
    case 1 => ");\n" + Indent8 + "const ev = new MouseEvent('"
    case 2 => "', {\n" + Indent10 + "view: window,\n" + Indent10 + "button: "
    case 3 => ",\n" + Indent10 + "buttons: "
    case 4 => ",\n" + Indent10 + "x: "
    case 5 => ",\n" + Indent10 + "y: "
    case 6 => ",\n" + Indent10 + (Bubbles + ("\n" + Indent10 + "detail: "))
    case 7 => ",\n" + Indent10 + (CancelBubble + ("\n" + Indent10 + (Cancelable + ("\n" + Indent10 + "clientX: "))))
    case 8 => ",\n" + Indent10 + "clientY: "
    case 9 => ",\n" + Indent10 + (Composed + ("\n" + Indent10 + "layerX: "))
    case 10 => ",\n" + Indent10 + "layerY: "
    case 11 => ",\n" + Indent10 + "pageX: "
    case 12 => ",\n" + Indent10 + "pageY: "
    case 13 => ",\n" + Indent10 + "screenX: window.screenX + "
    case 14 => ",\n" + Indent10 + "screenY: window.screenY + "
    case 15 => ",\n" + Indent10 + "ctrlKey: "
    case 16 => ",\n" + Indent10 + "metaKey: "
    case 17 => ",\n" + Indent10 + "shiftKey: "
    case 18 => ",\n" + Indent10 + "altKey: "
    case 19 => DispatchEvent + GuardOpen
    case _ => GuardClose + HistoryNavigation
  }

  /** The script template of `create_js_mouse_event`, split at its holes. */
  function MouseEventTemplate(): (t: Template)
    ensures t.lead == Lead && |t.slots| == HoleCount
    ensures forall i :: 0 <= i < HoleCount ==> t.slots[i] == Slot(HoleKind(i), After(i))
  {
    Template(Lead, seq(HoleCount, i requires 0 <= i < HoleCount => Slot(HoleKind(i), After(i))))
  }

  /** Argument `i` of the `format!` call. */
  function ArgAt(f: ScriptFields, i: nat): Arg
    requires i < HoleCount
  {
    match i
    case 0 => NumArg(f.pointX)
    case 1 => NumArg(f.pointY)
    case 2 => WordArg(f.eventName)
    case 3 => NumArg(f.button)
    case 4 => NumArg(f.buttons)
    case 5 => NumArg(f.x)
    case 6 => NumArg(f.y)
    case 7 => NumArg(f.detail)
    case 8 => NumArg(f.clientX)
    case 9 => NumArg(f.clientY)
    case 10 => NumArg(f.layerX)
    case 11 => NumArg(f.layerY)
    case 12 => NumArg(f.pageX)
    case 13 => NumArg(f.pageY)
    case 14 => NumArg(f.screenXOffset)
    case 15 => NumArg(f.screenYOffset)
    case 16 => BoolArg(f.ctrlKey)
    case 17 => BoolArg(f.metaKey)
    case 18 => BoolArg(f.shiftKey)
    case 19 => BoolArg(f.altKey)
    case _ => WordArg(f.guardEventName)
  }

  /** The arguments of the `format!` call, in the order of the template's holes. */
  function ArgsOf(f: ScriptFields): (args: seq<Arg>)
    ensures |args| == HoleCount
    ensures forall i :: 0 <= i < HoleCount ==> args[i] == ArgAt(f, i)
  {
    seq(HoleCount, i requires 0 <= i < HoleCount => ArgAt(f, i))
  }

  /** Whether `args` has the argument constructors the template's holes call for. */
  predicate ArgsShaped(args: seq<Arg>) {
    |args| == HoleCount &&
    args[0].NumArg? && args[1].NumArg? && args[2].WordArg? &&
    args[3].NumArg? && args[4].NumArg? && args[5].NumArg? && args[6].NumArg? && args[7].NumArg? &&
    args[8].NumArg? && args[9].NumArg? && args[10].NumArg? && args[11].NumArg? &&
    args[12].NumArg? && args[13].NumArg? && args[14].NumArg? && args[15].NumArg? &&
    args[16].BoolArg? && args[17].BoolArg? && args[18].BoolArg? && args[19].BoolArg? &&
    args[20].WordArg?
  }

  /** The fields read back out of the template's arguments; None when they are not of its shape. */
  function FieldsOf(args: seq<Arg>): Option<ScriptFields> {
    if ArgsShaped(args) then
      Some(ScriptFields(
        args[0].n, args[1].n, args[2].w,
        args[3].n, args[4].n, args[5].n, args[6].n, args[7].n,
        args[8].n, args[9].n, args[10].n, args[11].n,
        args[12].n, args[13].n, args[14].n, args[15].n,
        args[16].b, args[17].b, args[18].b, args[19].b,
        args[20].w))
    else None
  }

  /** The script text for `f`. */
  function Render(f: ScriptFields): string {
    Format(MouseEventTemplate(), ArgsOf(f))
  }

  /** The fields of a script text, if it is an instance of the template. */
  function Decode(script: string): Option<ScriptFields> {
    match Parse(MouseEventTemplate(), script)
    case None => None
    case Some(args) => FieldsOf(args)
  }

  /** No hole of the template runs on into the literal text after it. */
  lemma TemplateSeparated()
    ensures Separated(MouseEventTemplate())
  {
    var slots := MouseEventTemplate().slots;
    forall i | 0 <= i < |slots|
      ensures |slots[i].after| > 0 && !Continues(slots[i].kind, slots[i].after[0])
    {
      AfterSeparated(i);
    }
  }

  /** The literal text after hole `i` starts with a character the hole cannot hold. */
  lemma AfterSeparated(i: nat)
    requires i < HoleCount
    ensures |After(i)| > 0 && !Continues(HoleKind(i), After(i)[0])
  {
    if i == 19 {
      assert After(i)[0] == ',';
    } else if i == 20 {
      assert After(i)[0] == '"';
    } else if 3 <= i {
      assert After(i)[0] == ',';
    }
  }

  /** Every script text with event names made of letters reads back as the fields it was made from. */
  lemma DecodeRender(f: ScriptFields)
    requires IsWord(f.eventName) && IsWord(f.guardEventName)
    ensures Decode(Render(f)) == Some(f)
  {
    TemplateSeparated();
    ArgsOfFit(f);
    ParseFormat(MouseEventTemplate(), ArgsOf(f));
    FieldsOfArgsOf(f);
  }

  /** The fields read back out of the arguments made from `f` are `f`. */
  lemma FieldsOfArgsOf(f: ScriptFields)
    ensures FieldsOf(ArgsOf(f)) == Some(f)
  {
  }

  lemma ArgsOfFit(f: ScriptFields)
    requires IsWord(f.eventName) && IsWord(f.guardEventName)
    ensures Fits(MouseEventTemplate(), ArgsOf(f))
  {
    var args, slots := ArgsOf(f), MouseEventTemplate().slots;
    forall i | 0 <= i < |args|
      ensures KindOf(args[i]) == slots[i].kind && Readable(args[i])
    {
      ArgAtFits(f, i);
    }
  }

  /** Argument `i` is of the kind of hole `i`, and readable when the event names are words. */
  lemma ArgAtFits(f: ScriptFields, i: nat)
    requires IsWord(f.eventName) && IsWord(f.guardEventName)
    requires i < HoleCount
    ensures KindOf(ArgAt(f, i)) == HoleKind(i) && Readable(ArgAt(f, i))
  {
  }

  /**
   * The values `create_js_mouse_event` fills the template with.  `x`, `y` are
   * the event's location in view coordinates after truncation, `buttons` the
   * pressed-buttons bitmask, `clickCount` the event's click count.
   */
  function JsMouseEvent(down: bool, backButton: bool, x: nat, y: nat, buttons: nat, clickCount: int,
                        modifierFlags: bv64): (f: ScriptFields)
    ensures f.eventName == f.guardEventName && IsWord(f.eventName)
    ensures f.eventName == "mousedown" <==> down
    ensures f.eventName == "mouseup" <==> !down
    ensures f.button == 3 <==> backButton
    ensures f.button == 4 <==> !backButton
    ensures f.pointX == f.x == f.clientX == f.layerX == f.pageX == f.screenXOffset == x
    ensures f.pointY == f.y == f.clientY == f.layerY == f.pageY == f.screenYOffset == y
    ensures f.buttons == buttons && f.detail == clickCount
    ensures f.ctrlKey == BitIsSet(modifierFlags, ControlBit)
    ensures f.altKey == BitIsSet(modifierFlags, AlternateBit)
    ensures f.shiftKey == BitIsSet(modifierFlags, ShiftBit)
    ensures f.metaKey == BitIsSet(modifierFlags, CommandBit)
  {
    var eventName := EventName(down);
    ScriptFields(
      x, y, eventName, JsButton(backButton), buttons, x, y, clickCount,
      x, y, x, y, x, y, x, y,
      ModifierKey(modifierFlags, ControlBit), ModifierKey(modifierFlags, CommandBit),
      ModifierKey(modifierFlags, ShiftBit), ModifierKey(modifierFlags, AlternateBit),
      eventName)
  }

  /** The DOM event name for a press (`down`) or a release. */
  function EventName(down: bool): (name: string)
    ensures IsWord(name)
    ensures name == "mousedown" <==> down
    ensures name == "mouseup" <==> !down
  {
    if down then "mousedown" else "mouseup"
  }

  /** The DOM `button` value: 3 for the back button, 4 for the forward button. */
  function JsButton(backButton: bool): (button: int)
    ensures button == 3 <==> backButton
    ensures button == 4 <==> !backButton
  {
    if backButton then 3 else 4
  }

  /** Whether the modifier key whose mask is bit `bit` is held, tested as `create_js_mouse_event` does, against its mask. */
  function ModifierKey(flags: bv64, bit: bv64): (held: bool)
    requires bit < 64
    ensures held == BitIsSet(flags, bit)
  {
    MaskMatchesBit(flags, bit);
    MaskSet(flags, 1 << bit)
  }

  /**
   * `create_js_mouse_event`: the script text.  It reads back as exactly the
   * fields above, always sets the constant flags, and navigates the history
   * only behind a guard comparing its own event name with "mouseup".
   */
  function CreateJsMouseEvent(down: bool, backButton: bool, x: nat, y: nat, buttons: nat, clickCount: int,
                              modifierFlags: bv64): (script: string)
    ensures Decode(script) == Some(JsMouseEvent(down, backButton, x, y, buttons, clickCount, modifierFlags))
    ensures Contains(script, GuardOpen + (if down then "mousedown" else "mouseup") + GuardClose + HistoryNavigation)
    ensures Contains(script, Bubbles) && Contains(script, Cancelable)
    ensures Contains(script, Composed) && Contains(script, CancelBubble)
  {
    var f := JsMouseEvent(down, backButton, x, y, buttons, clickCount, modifierFlags);
    DecodeRender(f);
    HistoryNavigationGuarded(f);
    ConstantFlags(f);
    Render(f)
  }

  /** Testing a single-bit mask is the same as reading that bit. */
  lemma MaskMatchesBit(flags: bv64, bit: bv64)
    requires bit < 64
    ensures MaskSet(flags, 1 << bit) == BitIsSet(flags, bit)
  {
  }

  /** Flipping one bit of the flags leaves every other bit as it was. */
  lemma FlipOtherBit(flags: bv64, bit: bv64, other: bv64)
    requires bit < 64 && other < 64 && bit != other
    ensures BitIsSet(flags ^ (1 << other), bit) == BitIsSet(flags, bit)
  {
  }

  /** Flipping a bit flips the reading of that bit. */
  lemma FlipSameBit(flags: bv64, bit: bv64)
    requires bit < 64
    ensures BitIsSet(flags ^ (1 << bit), bit) == !BitIsSet(flags, bit)
  {
  }

  /**
   * The four modifier keys are read independently: flipping bit `other` of the
   * modifier flags toggles the key whose mask that bit is and leaves the other
   * keys, and every other field of the event, as they were.
   */
  lemma ModifierKeysIndependent(down: bool, backButton: bool, x: nat, y: nat, buttons: nat, clickCount: int,
                                flags: bv64, other: bv64)
    requires other < 64
    ensures var f := JsMouseEvent(down, backButton, x, y, buttons, clickCount, flags);
            var g := JsMouseEvent(down, backButton, x, y, buttons, clickCount, flags ^ (1 << other));
            (g.ctrlKey == f.ctrlKey <==> other != ControlBit) &&
            (g.altKey == f.altKey <==> other != AlternateBit) &&
            (g.shiftKey == f.shiftKey <==> other != ShiftBit) &&
            (g.metaKey == f.metaKey <==> other != CommandBit) &&
            g.(ctrlKey := f.ctrlKey, altKey := f.altKey, shiftKey := f.shiftKey, metaKey := f.metaKey) == f
  {
    var bits := [ControlBit, AlternateBit, ShiftBit, CommandBit];
    forall bit | bit in bits
      ensures BitIsSet(flags ^ (1 << other), bit) == (BitIsSet(flags, bit) != (bit == other))
    {
      if bit == other { FlipSameBit(flags, bit); } else { FlipOtherBit(flags, bit, other); }
    }
  }

  /** Modifier flags holding only the control mask give `ctrlKey: true` and the other three keys false. */
  lemma OnlyControlKey(down: bool, backButton: bool, x: nat, y: nat, buttons: nat, clickCount: int)
    ensures var f := JsMouseEvent(down, backButton, x, y, buttons, clickCount, ControlKeyMask);
            f.ctrlKey && !f.altKey && !f.shiftKey && !f.metaKey
  {
  }

  /** The script compares its own event name with "mouseup" before navigating back (button 3) or forward (button 4). */
  lemma HistoryNavigationGuarded(f: ScriptFields)
    ensures Contains(Render(f), GuardOpen + f.guardEventName + GuardClose + HistoryNavigation)
  {
    FormatContainsHole(MouseEventTemplate(), ArgsOf(f), 20);
    RegroupAroundHole(DispatchEvent, GuardOpen, f.guardEventName, GuardClose, HistoryNavigation);
    ContainsWithin(Render(f), DispatchEvent, GuardOpen + f.guardEventName + GuardClose + HistoryNavigation, "");
  }

  /** `bubbles`, `cancelable` and `composed` are always true and `cancelBubble` always false. */
  lemma ConstantFlags(f: ScriptFields)
    ensures Contains(Render(f), Bubbles) && Contains(Render(f), Cancelable)
    ensures Contains(Render(f), Composed) && Contains(Render(f), CancelBubble)
  {
    var t, args := MouseEventTemplate(), ArgsOf(f);
    FormatContainsAfter(t, args, 6);
    ConstantInAfter(Render(f), Bubbles, "\n" + Indent10 + "detail: ");
    FormatContainsAfter(t, args, 7);
    var cancelable := "\n" + Indent10 + (Cancelable + ("\n" + Indent10 + "clientX: "));
    ConstantInAfter(Render(f), CancelBubble, cancelable);
    ContainsSuffix(",\n" + Indent10, CancelBubble + cancelable);
    ContainsTransitive(Render(f), t.slots[7].after, CancelBubble + cancelable);
    ContainsSuffix(CancelBubble, cancelable);
    ContainsTransitive(Render(f), CancelBubble + cancelable, cancelable);
    ConstantInAfter(Render(f), Cancelable, "\n" + Indent10 + "clientX: ") by {
      ContainsSuffix("\n" + Indent10, Cancelable + ("\n" + Indent10 + "clientX: "));
      ContainsTransitive(Render(f), cancelable, Cancelable + ("\n" + Indent10 + "clientX: "));
    }
    FormatContainsAfter(t, args, 9);
    ConstantInAfter(Render(f), Composed, "\n" + Indent10 + "layerX: ");
  }

  /** A `key: value,` entry that opens a literal piece occurring in `s` occurs in `s`. */
  lemma ConstantInAfter(s: string, entry: string, rest: string)
    requires Contains(s, ",\n" + Indent10 + (entry + rest)) || Contains(s, entry + rest)
    ensures Contains(s, entry)
  {
    ContainsPrefix(entry, rest);
    if Contains(s, ",\n" + Indent10 + (entry + rest)) {
      ContainsSuffix(",\n" + Indent10, entry + rest);
      ContainsTransitive(s, ",\n" + Indent10 + (entry + rest), entry + rest);
    }
    ContainsTransitive(s, entry + rest, entry);
  }

  /** Regrouping the literal pieces around a hole: `(a + b) + c + (d + e)` read as `a`, then `b + c + d + e`. */
  lemma RegroupAroundHole(a: string, b: string, c: string, d: string, e: string)
    ensures (a + b) + c + (d + e) == a + (b + c + d + e) + ""
  {
  }

  /** An AppKit event type, as far as these handlers distinguish them. */
  datatype EventType = OtherMouseDownEvent | OtherMouseUpEvent | UnrelatedEvent

  /**
   * A native mouse event: its type, button number, location in the view's
   * coordinates (already truncated to whole pixels), modifier flags and click count.
   */
  datatype NativeEvent = NativeEvent(eventType: EventType, buttonNumber: int, x: nat, y: nat,
                                     modifierFlags: bv64, clickCount: int)

  /** The one outbound call a handler makes. */
  datatype Action =
    | EvaluateScript(script: string)      // evaluateJavaScript:completionHandler: with no handler
    | DefaultMouseDown(event: NativeEvent) // the view's own mouseDown:
    | DefaultMouseUp(event: NativeEvent)   // the view's own mouseUp:

  /** `otherMouseDown:`; `pressedButtons` is AppKit's pressed-mouse-buttons bitmask at the time of the call. */
  function OtherMouseDown(event: NativeEvent, pressedButtons: nat): (a: Action)
    ensures a.EvaluateScript? <==> event.eventType == OtherMouseDownEvent && event.buttonNumber in {3, 4}
    ensures !a.EvaluateScript? ==> a == DefaultMouseDown(event)
    ensures a.EvaluateScript? ==>
      Decode(a.script) == Some(JsMouseEvent(true, event.buttonNumber == 3, event.x, event.y, pressedButtons,
                                            event.clickCount, event.modifierFlags))
    ensures a.EvaluateScript? ==>
      Decode(a.script).Some? && Decode(a.script).value.eventName == "mousedown" &&
      Decode(a.script).value.button == event.buttonNumber
  {
    if event.eventType == OtherMouseDownEvent then
      match event.buttonNumber
      case 3 => EvaluateScript(CreateJsMouseEvent(true, true, event.x, event.y, pressedButtons,
                                                  event.clickCount, event.modifierFlags))
      case 4 => EvaluateScript(CreateJsMouseEvent(true, false, event.x, event.y, pressedButtons,
                                                  event.clickCount, event.modifierFlags))
      case _ => DefaultMouseDown(event)
    else
      DefaultMouseDown(event)
  }

  /** `otherMouseUp:`; `pressedButtons` is AppKit's pressed-mouse-buttons bitmask at the time of the call. */
  function OtherMouseUp(event: NativeEvent, pressedButtons: nat): (a: Action)
    ensures a.EvaluateScript? <==> event.eventType == OtherMouseUpEvent && event.buttonNumber in {3, 4}
    ensures !a.EvaluateScript? ==> a == DefaultMouseUp(event)
    ensures a.EvaluateScript? ==>
      Decode(a.script) == Some(JsMouseEvent(false, event.buttonNumber == 3, event.x, event.y, pressedButtons,
                                            event.clickCount, event.modifierFlags))
    ensures a.EvaluateScript? ==>
      Decode(a.script).Some? && Decode(a.script).value.eventName == "mouseup" &&
      Decode(a.script).value.button == event.buttonNumber
  {
    if event.eventType == OtherMouseUpEvent then
      match event.buttonNumber
      case 3 => EvaluateScript(CreateJsMouseEvent(false, true, event.x, event.y, pressedButtons,
                                                  event.clickCount, event.modifierFlags))
      case 4 => EvaluateScript(CreateJsMouseEvent(false, false, event.x, event.y, pressedButtons,
                                                  event.clickCount, event.modifierFlags))
      case _ => DefaultMouseUp(event)
    else
      DefaultMouseUp(event)
  }
}
