/** Pointer and keyboard handling of the stream pages. A mouse reports its
  * buttons as a 3-bit state and only changed buttons are sent; touch input
  * is turned into relative moves and a tap into a left click. Pointer
  * positions arrive as integers already truncated to `short`; every event
  * handed to the binding is appended to `sent`. */
module PointerInput {
  import opened Common
  import opened BindingTypes
  import Keyboard

  /** What the page hands to the binding's `Send*Event` calls. */
  datatype InputEvent =
    | MouseButtonEvent(action: int, button: int)
    | MouseMoveEvent(dx: int, dy: int)
    | ScrollEvent(amount: int)
    | KeyboardEvent(key: int, action: int, modifiers: bv8)

  const MOUSE_BUTTON_LEFT: bv8 := 0x1
  const MOUSE_BUTTON_MIDDLE: bv8 := 0x2
  const MOUSE_BUTTON_RIGHT: bv8 := 0x4

  /** `GetButtonFlags`: one bit per pressed button. */
  function GetButtonFlags(left: bool, middle: bool, right: bool): (flags: bv8)
    ensures (flags & MOUSE_BUTTON_LEFT != 0) <==> left
    ensures (flags & MOUSE_BUTTON_MIDDLE != 0) <==> middle
    ensures (flags & MOUSE_BUTTON_RIGHT != 0) <==> right
    ensures flags as int < 8
  {
    var f0: bv8 := 0;
    var f1 := if left then f0 | MOUSE_BUTTON_LEFT else f0;
    var f2 := if middle then f1 | MOUSE_BUTTON_MIDDLE else f1;
    if right then f2 | MOUSE_BUTTON_RIGHT else f2
  }

  /** A bit of `old ^ new` is set exactly where the two button states differ. */
  lemma ChangedButtons(oldFlags: bv8, newFlags: bv8, bit: bv8)
    requires bit != 0 && bit & (bit - 1) == 0
    ensures ((oldFlags ^ newFlags) & bit != 0) <==> ((oldFlags & bit != 0) != (newFlags & bit != 0))
  {
  }

  function Bit(b: bool): nat { if b then 1 else 0 }

  /** The button events for one delta: one `action` event for each of the
    * left, middle and right bits that is set, in that order. */
  function ButtonEvents(action: int, delta: bv8): (evs: seq<InputEvent>)
    ensures MouseButtonEvent(action, BUTTON_LEFT) in evs <==> delta & MOUSE_BUTTON_LEFT != 0
    ensures MouseButtonEvent(action, BUTTON_MIDDLE) in evs <==> delta & MOUSE_BUTTON_MIDDLE != 0
    ensures MouseButtonEvent(action, BUTTON_RIGHT) in evs <==> delta & MOUSE_BUTTON_RIGHT != 0
    ensures forall e :: e in evs ==> e.MouseButtonEvent? && e.action == action
    ensures |evs| == Bit(delta & MOUSE_BUTTON_LEFT != 0) + Bit(delta & MOUSE_BUTTON_MIDDLE != 0) + Bit(delta & MOUSE_BUTTON_RIGHT != 0)
  {
    (if delta & MOUSE_BUTTON_LEFT != 0 then [MouseButtonEvent(action, BUTTON_LEFT)] else []) +
    (if delta & MOUSE_BUTTON_MIDDLE != 0 then [MouseButtonEvent(action, BUTTON_MIDDLE)] else []) +
    (if delta & MOUSE_BUTTON_RIGHT != 0 then [MouseButtonEvent(action, BUTTON_RIGHT)] else [])
  }

  /** A tap: press then release of the left button. */
  const CLICK: seq<InputEvent> := [MouseButtonEvent(MOUSE_PRESS, BUTTON_LEFT), MouseButtonEvent(MOUSE_RELEASE, BUTTON_LEFT)]

  /** The relative move a touch pointer produces when it goes from the last
    * position to `(x, y)`: nothing if it did not move, otherwise the
    * differences cast to `short`. */
  function MoveStep(lastX: int, lastY: int, x: int, y: int): (m: Option<(int, int)>)
    ensures m.None? <==> x == lastX && y == lastY
    ensures m.Some? ==> IsShort(m.value.0) && (m.value.0 - (x - lastX)) % 0x1_0000 == 0
    ensures m.Some? ==> IsShort(m.value.1) && (m.value.1 - (y - lastY)) % 0x1_0000 == 0
  {
    if x != lastX || y != lastY then Some((ToShort(x - lastX), ToShort(y - lastY))) else None
  }

  function MoveEvents(m: Option<(int, int)>): seq<InputEvent>
  {
    if m.Some? then [MouseMoveEvent(m.value.0, m.value.1)] else []
  }

  /** The moves a touch gesture starting at `(x0, y0)` produces over the
    * positions `points`, one `MoveStep` per move event. */
  function GestureMoves(x0: int, y0: int, points: seq<(int, int)>): seq<(int, int)>
    decreases |points|
  {
    if |points| == 0 then []
    else
      var m := MoveStep(x0, y0, points[0].0, points[0].1);
      (if m.Some? then [m.value] else []) + GestureMoves(points[0].0, points[0].1, points[1..])
  }

  function SumX(moves: seq<(int, int)>): int
  {
    if |moves| == 0 then 0 else moves[0].0 + SumX(moves[1..])
  }

  function SumY(moves: seq<(int, int)>): int
  {
    if |moves| == 0 then 0 else moves[0].1 + SumY(moves[1..])
  }

  lemma {:induction false} SumAppend(a: seq<(int, int)>, b: seq<(int, int)>)
    ensures SumX(a + b) == SumX(a) + SumX(b) && SumY(a + b) == SumY(a) + SumY(b)
    decreases |a|
  {
    if |a| == 0 {
      assert a + b == b;
    } else {
      assert (a + b)[1..] == a[1..] + b;
      SumAppend(a[1..], b);
    }
  }

  lemma ModSum(a: int, b: int)
    requires a % 0x1_0000 == 0 && b % 0x1_0000 == 0
    ensures (a + b) % 0x1_0000 == 0
  {
    assert a == 0x1_0000 * (a / 0x1_0000);
    assert b == 0x1_0000 * (b / 0x1_0000);
    assert a + b == 0x1_0000 * (a / 0x1_0000 + b / 0x1_0000);
  }

  /** Over a whole gesture the sent moves add up to the final position minus
    * the starting one, modulo 2^16: the host pointer ends where the finger
    * did, up to the `short` wrap-around of each step. */
  lemma {:induction false} GestureDeltasSum(x0: int, y0: int, points: seq<(int, int)>)
    requires |points| > 0
    ensures (SumX(GestureMoves(x0, y0, points)) - (points[|points| - 1].0 - x0)) % 0x1_0000 == 0
    ensures (SumY(GestureMoves(x0, y0, points)) - (points[|points| - 1].1 - y0)) % 0x1_0000 == 0
    decreases |points|
  {
    var p := points[0];
    var m := MoveStep(x0, y0, p.0, p.1);
    var head := if m.Some? then [m.value] else [];
    var rest := GestureMoves(p.0, p.1, points[1..]);
    SumAppend(head, rest);
    var lastX, lastY := points[|points| - 1].0, points[|points| - 1].1;
    var restX, restY := 0, 0;
    if |points| > 1 {
      GestureDeltasSum(p.0, p.1, points[1..]);
      assert points[1..][|points| - 2] == points[|points| - 1];
    }
    assert (SumX(rest) - (lastX - p.0)) % 0x1_0000 == 0;
    assert (SumY(rest) - (lastY - p.1)) % 0x1_0000 == 0;
    assert (SumX(head) - (p.0 - x0)) % 0x1_0000 == 0;
    assert (SumY(head) - (p.1 - y0)) % 0x1_0000 == 0;
    ModSum(SumX(head) - (p.0 - x0), SumX(rest) - (lastX - p.0));
    ModSum(SumY(head) - (p.1 - y0), SumY(rest) - (lastY - p.1));
  }

  /** `MouseWheel`'s scroll amount: the wheel delta divided by 120, truncated
    * toward zero, then cast to `short`. */
  function ScrollAmount(wheelDelta: int): (amount: int)
    ensures IsShort(amount)
    ensures -120 < wheelDelta < 120 ==> amount == 0
    ensures 0 <= wheelDelta <= 120 * SHORT_MAX ==> 120 * amount <= wheelDelta < 120 * amount + 120
    ensures 120 * SHORT_MIN <= wheelDelta <= 0 ==> 120 * amount - 120 < wheelDelta <= 120 * amount
  {
    ToShort(TruncDiv(wheelDelta, 120))
  }

  /** The Moonlight stream page. */
  class MoonlightStreamFrame {
    var hasMoved: bool
    var mouseButtonFlag: bv8
    var lastX: int
    var lastY: int
    var capturingMouse: bool
    var sent: seq<InputEvent>

    constructor ()
      ensures !hasMoved && mouseButtonFlag == 0 && lastX == 0 && lastY == 0 && !capturingMouse && sent == []
    {
      hasMoved, mouseButtonFlag, lastX, lastY, capturingMouse, sent := false, 0, 0, 0, false, [];
    }

    /** Only a vertical wheel scrolls. */
    method MouseWheel(horizontal: bool, wheelDelta: int)
      modifies this
      ensures sent == old(sent) + (if horizontal then [] else [ScrollEvent(ScrollAmount(wheelDelta))])
      ensures hasMoved == old(hasMoved) && mouseButtonFlag == old(mouseButtonFlag)
      ensures lastX == old(lastX) && lastY == old(lastY) && capturingMouse == old(capturingMouse)
    {
      if !horizontal {
        sent := sent + [ScrollEvent(ScrollAmount(wheelDelta))];
      }
    }

    /** A mouse sends a Press for every button whose bit changed, released
      * ones included, and stores the new state; any other pointer starts a
      * gesture at `(x, y)`. */
    method MouseDown(isMouse: bool, left: bool, middle: bool, right: bool, x: int, y: int)
      requires IsShort(x) && IsShort(y)
      modifies this
      ensures isMouse ==> sent == old(sent) + ButtonEvents(MOUSE_PRESS, old(mouseButtonFlag) ^ GetButtonFlags(left, middle, right)) &&
                          mouseButtonFlag == GetButtonFlags(left, middle, right) &&
                          hasMoved == old(hasMoved) && lastX == old(lastX) && lastY == old(lastY)
      ensures !isMouse ==> sent == old(sent) && !hasMoved && lastX == x && lastY == y && mouseButtonFlag == old(mouseButtonFlag)
      ensures capturingMouse == old(capturingMouse)
    {
      if isMouse {
        var deltaButtons := mouseButtonFlag ^ GetButtonFlags(left, middle, right);
        sent := sent + ButtonEvents(MOUSE_PRESS, deltaButtons);
        mouseButtonFlag := GetButtonFlags(left, middle, right);
      } else {
        hasMoved := false;
        lastX, lastY := x, y;
      }
    }

    /** A mouse sends a Release per changed button; a touch that did not move
      * since it went down is a click. */
    method MouseUp(isMouse: bool, left: bool, middle: bool, right: bool)
      modifies this
      ensures isMouse ==> sent == old(sent) + ButtonEvents(MOUSE_RELEASE, old(mouseButtonFlag) ^ GetButtonFlags(left, middle, right)) &&
                          mouseButtonFlag == GetButtonFlags(left, middle, right)
      ensures !isMouse ==> sent == old(sent) + (if old(hasMoved) then [] else CLICK) && mouseButtonFlag == old(mouseButtonFlag)
      ensures hasMoved == old(hasMoved) && lastX == old(lastX) && lastY == old(lastY) && capturingMouse == old(capturingMouse)
    {
      if !isMouse {
        if !hasMoved {
          sent := sent + CLICK;
        }
      } else {
        var deltaButtons := mouseButtonFlag ^ GetButtonFlags(left, middle, right);
        sent := sent + ButtonEvents(MOUSE_RELEASE, deltaButtons);
        mouseButtonFlag := GetButtonFlags(left, middle, right);
      }
    }

    /** Only non-mouse pointers move, and only when the position changed. */
    method MouseMove(isMouse: bool, x: int, y: int)
      requires IsShort(x) && IsShort(y)
      modifies this
      ensures isMouse ==> sent == old(sent) && hasMoved == old(hasMoved) && lastX == old(lastX) && lastY == old(lastY)
      ensures !isMouse ==> sent == old(sent) + MoveEvents(MoveStep(old(lastX), old(lastY), x, y))
      ensures !isMouse && (x != old(lastX) || y != old(lastY)) ==> hasMoved && lastX == x && lastY == y
      ensures !isMouse && x == old(lastX) && y == old(lastY) ==> hasMoved == old(hasMoved) && lastX == x && lastY == y
      ensures mouseButtonFlag == old(mouseButtonFlag) && capturingMouse == old(capturingMouse)
    {
      if !isMouse {
        if x != lastX || y != lastY {
          hasMoved := true;
          sent := sent + [MouseMoveEvent(ToShort(x - lastX), ToShort(y - lastY))];
          lastX, lastY := x, y;
        }
      }
    }

    /** Raw mouse deltas are forwarded only while the mouse is captured. */
    method RelativeMouseMoved(dx: int, dy: int)
      modifies this
      ensures sent == old(sent) + (if capturingMouse then [MouseMoveEvent(ToShort(dx), ToShort(dy))] else [])
      ensures hasMoved == old(hasMoved) && mouseButtonFlag == old(mouseButtonFlag)
      ensures lastX == old(lastX) && lastY == old(lastY) && capturingMouse == old(capturingMouse)
    {
      if capturingMouse {
        sent := sent + [MouseMoveEvent(ToShort(dx), ToShort(dy))];
      }
    }

    /** Hides the cursor and starts forwarding relative moves. */
    method CaptureMouse()
      modifies this
      ensures capturingMouse
      ensures hasMoved == old(hasMoved) && mouseButtonFlag == old(mouseButtonFlag) && lastX == old(lastX) && lastY == old(lastY)
      ensures sent == old(sent)
    {
      capturingMouse := true;
    }

    /** Restores the cursor and stops forwarding relative moves. */
    method ReleaseMouse()
      modifies this
      ensures !capturingMouse
      ensures hasMoved == old(hasMoved) && mouseButtonFlag == old(mouseButtonFlag) && lastX == old(lastX) && lastY == old(lastY)
      ensures sent == old(sent)
    {
      capturingMouse := false;
    }

    /** Shift+Alt+Ctrl held toggles capture; a recognised key is sent as Down
      * with the current modifiers. */
    method WindowKeyDown(key: int, shiftDown: bool, menuDown: bool, controlDown: bool)
      modifies this
      ensures capturingMouse == (if shiftDown && menuDown && controlDown then !old(capturingMouse) else old(capturingMouse))
      ensures sent == old(sent) + KeyEvents(Keyboard.TranslateVirtualKey(key), KEY_DOWN,
                                            Keyboard.GetModifierFlags(shiftDown, menuDown, controlDown))
      ensures hasMoved == old(hasMoved) && mouseButtonFlag == old(mouseButtonFlag) && lastX == old(lastX) && lastY == old(lastY)
    {
      var all := MODIFIER_SHIFT | MODIFIER_ALT | MODIFIER_CTRL;
      var flags := Keyboard.GetModifierFlags(shiftDown, menuDown, controlDown);
      AllModifiersHeld(shiftDown, menuDown, controlDown);
      if flags & all == all {
        capturingMouse := !capturingMouse;
      }
      var code := Keyboard.TranslateVirtualKey(key);
      if code != 0 {
        sent := sent + [KeyboardEvent(code, KEY_DOWN, Keyboard.GetModifierFlags(shiftDown, menuDown, controlDown))];
      }
    }

    method WindowKeyUp(key: int, shiftDown: bool, menuDown: bool, controlDown: bool)
      modifies this
      ensures sent == old(sent) + KeyEvents(Keyboard.TranslateVirtualKey(key), KEY_UP,
                                            Keyboard.GetModifierFlags(shiftDown, menuDown, controlDown))
      ensures hasMoved == old(hasMoved) && mouseButtonFlag == old(mouseButtonFlag) && lastX == old(lastX) && lastY == old(lastY)
      ensures capturingMouse == old(capturingMouse)
    {
      var code := Keyboard.TranslateVirtualKey(key);
      if code != 0 {
        sent := sent + [KeyboardEvent(code, KEY_UP, Keyboard.GetModifierFlags(shiftDown, menuDown, controlDown))];
      }
    }
  }

  /** The three modifier bits are all set exactly when all three keys are held. */
  lemma AllModifiersHeld(shiftDown: bool, menuDown: bool, controlDown: bool)
    ensures var all := MODIFIER_SHIFT | MODIFIER_ALT | MODIFIER_CTRL;
            (Keyboard.GetModifierFlags(shiftDown, menuDown, controlDown) & all == all) <==> shiftDown && menuDown && controlDown
  {
    var f := Keyboard.GetModifierFlags(shiftDown, menuDown, controlDown);
    assert f as int < 8;
  }

  /** A key event is sent only for a non-zero code. */
  function KeyEvents(code: int, action: int, modifiers: bv8): (evs: seq<InputEvent>)
    ensures |evs| <= 1
    ensures evs != [] <==> code != 0
  {
    if code != 0 then [KeyboardEvent(code, action, modifiers)] else []
  }

  /** The shared Limelight stream page: the same button and touch logic, but
    * every pointer type moves, and there is no wheel, capture or toggle. */
  class SharedStreamFrame {
    var hasMoved: bool
    var mouseButtonFlag: bv8
    var lastX: int
    var lastY: int
    var sent: seq<InputEvent>

    constructor ()
      ensures !hasMoved && mouseButtonFlag == 0 && lastX == 0 && lastY == 0 && sent == []
    {
      hasMoved, mouseButtonFlag, lastX, lastY, sent := false, 0, 0, 0, [];
    }

    method MouseDown(isMouse: bool, left: bool, middle: bool, right: bool, x: int, y: int)
      requires IsShort(x) && IsShort(y)
      modifies this
      ensures isMouse ==> sent == old(sent) + ButtonEvents(MOUSE_PRESS, old(mouseButtonFlag) ^ GetButtonFlags(left, middle, right)) &&
                          mouseButtonFlag == GetButtonFlags(left, middle, right) &&
                          hasMoved == old(hasMoved) && lastX == old(lastX) && lastY == old(lastY)
      ensures !isMouse ==> sent == old(sent) && !hasMoved && lastX == x && lastY == y && mouseButtonFlag == old(mouseButtonFlag)
    {
      if isMouse {
        var deltaButtons := mouseButtonFlag ^ GetButtonFlags(left, middle, right);
        sent := sent + ButtonEvents(MOUSE_PRESS, deltaButtons);
        mouseButtonFlag := GetButtonFlags(left, middle, right);
      } else {
        hasMoved := false;
        lastX, lastY := x, y;
      }
    }

    method MouseUp(isMouse: bool, left: bool, middle: bool, right: bool)
      modifies this
      ensures isMouse ==> sent == old(sent) + ButtonEvents(MOUSE_RELEASE, old(mouseButtonFlag) ^ GetButtonFlags(left, middle, right)) &&
                          mouseButtonFlag == GetButtonFlags(left, middle, right)
      ensures !isMouse ==> sent == old(sent) + (if old(hasMoved) then [] else CLICK) && mouseButtonFlag == old(mouseButtonFlag)
      ensures hasMoved == old(hasMoved) && lastX == old(lastX) && lastY == old(lastY)
    {
      if !isMouse {
        if !hasMoved {
          sent := sent + CLICK;
        }
      } else {
        var deltaButtons := mouseButtonFlag ^ GetButtonFlags(left, middle, right);
        sent := sent + ButtonEvents(MOUSE_RELEASE, deltaButtons);
        mouseButtonFlag := GetButtonFlags(left, middle, right);
      }
    }

    /** Applies to every pointer type, mice included. */
    method MouseMove(x: int, y: int)
      requires IsShort(x) && IsShort(y)
      modifies this
      ensures sent == old(sent) + MoveEvents(MoveStep(old(lastX), old(lastY), x, y))
      ensures (x != old(lastX) || y != old(lastY)) ==> hasMoved && lastX == x && lastY == y
      ensures x == old(lastX) && y == old(lastY) ==> hasMoved == old(hasMoved) && lastX == x && lastY == y
      ensures mouseButtonFlag == old(mouseButtonFlag)
    {
      if x != lastX || y != lastY {
        hasMoved := true;
        sent := sent + [MouseMoveEvent(ToShort(x - lastX), ToShort(y - lastY))];
        lastX, lastY := x, y;
      }
    }

    method WindowKeyDown(key: int, shiftDown: bool, menuDown: bool, controlDown: bool)
      modifies this
      ensures sent == old(sent) + KeyEvents(Keyboard.SharedTranslateVirtualKey(key), KEY_DOWN,
                                            Keyboard.GetModifierFlags(shiftDown, menuDown, controlDown))
      ensures hasMoved == old(hasMoved) && mouseButtonFlag == old(mouseButtonFlag) && lastX == old(lastX) && lastY == old(lastY)
    {
      var code := Keyboard.SharedTranslateVirtualKey(key);
      if code != 0 {
        sent := sent + [KeyboardEvent(code, KEY_DOWN, Keyboard.GetModifierFlags(shiftDown, menuDown, controlDown))];
      }
    }

    method WindowKeyUp(key: int, shiftDown: bool, menuDown: bool, controlDown: bool)
      modifies this
      ensures sent == old(sent) + KeyEvents(Keyboard.SharedTranslateVirtualKey(key), KEY_UP,
                                            Keyboard.GetModifierFlags(shiftDown, menuDown, controlDown))
      ensures hasMoved == old(hasMoved) && mouseButtonFlag == old(mouseButtonFlag) && lastX == old(lastX) && lastY == old(lastY)
    {
      var code := Keyboard.SharedTranslateVirtualKey(key);
      if code != 0 {
        sent := sent + [KeyboardEvent(code, KEY_UP, Keyboard.GetModifierFlags(shiftDown, menuDown, controlDown))];
      }
    }
  }

  /** The first Limelight stream page: every pointer is treated as touch, and
    * a move is the span of the event's intermediate points. */
  class LimelightStreamFrame {
    var hasMoved: bool
    var sent: seq<InputEvent>

    constructor ()
      ensures !hasMoved && sent == []
    {
      hasMoved, sent := false, [];
    }

    method MouseDown()
      modifies this
      ensures !hasMoved && sent == old(sent)
    {
      hasMoved := false;
    }

    method MouseUp()
      modifies this
      ensures sent == old(sent) + (if old(hasMoved) then [] else CLICK)
      ensures hasMoved == old(hasMoved)
    {
      if !hasMoved {
        sent := sent + CLICK;
      }
    }

    /** Sends last minus first, cast to `short`, when the two points differ. */
    method MouseMove(firstX: int, firstY: int, lastX: int, lastY: int)
      modifies this
      ensures sent == old(sent) + MoveEvents(MoveStep(firstX, firstY, lastX, lastY))
      ensures hasMoved == (old(hasMoved) || firstX != lastX || firstY != lastY)
    {
      if firstX != lastX || firstY != lastY {
        var x := ToShort(lastX - firstX);
        var y := ToShort(lastY - firstY);
        hasMoved := true;
        sent := sent + [MouseMoveEvent(ToShort(x), ToShort(y))];
      }
    }
  }

  /** The rewritten page, whose input sends are all commented out: only
    * `hasMoved` changes. */
  class NewStreamFrame {
    var hasMoved: bool

    constructor ()
      ensures !hasMoved
    {
      hasMoved := false;
    }

    method MouseDown()
      modifies this
      ensures !hasMoved
    {
      hasMoved := false;
    }

    method MouseUp()
      modifies this
      ensures hasMoved == old(hasMoved)
    {
    }

    method MouseMove(firstX: int, firstY: int, lastX: int, lastY: int)
      modifies this
      ensures hasMoved == (old(hasMoved) || firstX != lastX || firstY != lastY)
    {
      if firstX != lastX || firstY != lastY {
        hasMoved := true;
      }
    }

    /** The page's `Cleanup`: the gesture is forgotten. The stream source it
      * disposes is not part of this class. */
    method Cleanup()
      modifies this
      ensures !hasMoved
    {
      hasMoved := false;
    }
  }
}
