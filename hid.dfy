/**
 * The injection side (hid-client/src/hid.rs): the pure decisions the macOS
 * and Windows handlers make before calling into the operating system — key
 * tables, the button/pressed tables, the click position, the move flags
 * and the wheel inputs.
 *
 * Core Graphics events are described by what they are created with; a
 * Windows `INPUT` is the `MouseInput` record, and the calls the handler
 * makes to `SendInput` are the sequence of records it submits. The
 * numeric values of the Windows flags and virtual keys are foreign and are
 * named constants here.
 */
module Hid {
  import opened Wrappers
  import opened Protocol

  newtype u16 = x: int | 0 <= x < 0x1_0000

  /** Why a handler refused or failed an event. */
  datatype HidError =
    | UnsupportedButton(button: MouseButton)   // X1 and X2
    | UnsupportedCombination                   // a (button, pressed) pair with no event type
    | SendFailed(what: string)                 // `SendInput` inserted nothing

  // ---------------------------------------------------------------- macOS

  datatype CGEventType =
    | MouseMoved
    | LeftMouseDown | LeftMouseUp
    | RightMouseDown | RightMouseUp
    | OtherMouseDown | OtherMouseUp
    | KeyDown | KeyUp

  datatype CGMouseButton = CGLeft | CGRight | CGCenter

  /** A screen point; an `i32` converts to `f64` exactly, so it is kept as an integer. */
  datatype CGPoint = CGPoint(x: int, y: int)

  /** The mouse event the macOS handler creates and posts. */
  datatype CGMouseEvent = CGMouseEvent(eventType: CGEventType, point: CGPoint, button: CGMouseButton)

  /** `keycode_to_cg`: thirteen keys have their Core Graphics code; every other key types a space. */
  function KeycodeToCg(key: KeyCode): (r: Result<u16, HidError>)
    ensures r.Ok?
  {
    Ok(match key
      case A => 0
      case B => 11
      case C => 8
      case D => 2
      case E => 14
      case Space => 49
      case Enter => 36
      case Tab => 48
      case Escape => 53
      case ArrowUp => 126
      case ArrowDown => 125
      case ArrowLeft => 123
      case ArrowRight => 124
      case _ => 49)
  }

  /** The keys both tables name explicitly. */
  predicate Named(key: KeyCode) {
    match key
    case A | B | C | D | E | Space | Enter | Tab | Escape | ArrowUp | ArrowDown | ArrowLeft | ArrowRight => true
    case _ => false
  }

  /** macOS `mouse_move`: a `MouseMoved` event at the point, whether the move is absolute or not. */
  function MacMouseMove(x: i32, y: i32, absolute: bool): (e: CGMouseEvent)
    ensures e.eventType == MouseMoved && e.point == CGPoint(x as int, y as int)
  {
    CGMouseEvent(MouseMoved, CGPoint(x as int, y as int), CGLeft)
  }

  /** The macOS move does not look at `absolute`: a relative move lands on the point too. */
  lemma MacMoveIgnoresAbsolute(x: i32, y: i32)
    ensures MacMouseMove(x, y, true) == MacMouseMove(x, y, false)
  {
  }

  /**
   * macOS `mouse_click`: X1 and X2 are refused; otherwise the button's
   * down or up event, at the given point when both coordinates are
   * present and at (0, 0) otherwise.
   */
  function MacMouseClick(button: MouseButton, pressed: bool, posX: Option<i32>, posY: Option<i32>)
    : (r: Result<CGMouseEvent, HidError>)
    ensures r.Err? <==> button == X1 || button == X2
    ensures r.Err? ==> r.error == UnsupportedButton(button)
    ensures r.Ok? ==> r.value.point == (if posX.Some? && posY.Some? then CGPoint(posX.value as int, posY.value as int)
                                        else CGPoint(0, 0))
  {
    match MacButton(button)
    case None => Err(UnsupportedButton(button))
    case Some(cgButton) =>
      match MacEventType(button, pressed)
      case None => Err(UnsupportedCombination)
      case Some(eventType) =>
        var point := if posX.Some? && posY.Some? then CGPoint(posX.value as int, posY.value as int) else CGPoint(0, 0);
        Ok(CGMouseEvent(eventType, point, cgButton))
  }

  /** The Core Graphics button for a button; X1 and X2 have none. */
  function MacButton(button: MouseButton): Option<CGMouseButton> {
    match button
    case Left => Some(CGLeft)
    case Right => Some(CGRight)
    case Middle => Some(CGCenter)
    case _ => None
  }

  /**
   * The Core Graphics event type for a button change: the event of that
   * very button, a down event exactly for a press; X1 and X2 have none.
   */
  function MacEventType(button: MouseButton, pressed: bool): (r: Option<CGEventType>)
    ensures r.None? <==> button == X1 || button == X2
    ensures r.Some? ==> CGEventButton(r.value) == Some((button, pressed))
  {
    match (button, pressed)
    case (Left, true) => Some(LeftMouseDown)
    case (Left, false) => Some(LeftMouseUp)
    case (Right, true) => Some(RightMouseDown)
    case (Right, false) => Some(RightMouseUp)
    case (Middle, true) => Some(OtherMouseDown)
    case (Middle, false) => Some(OtherMouseUp)
    case _ => None
  }

  /** The button a Core Graphics mouse event type is for, and whether it is a press. */
  function CGEventButton(t: CGEventType): Option<(MouseButton, bool)> {
    match t
    case LeftMouseDown => Some((Left, true))
    case LeftMouseUp => Some((Left, false))
    case RightMouseDown => Some((Right, true))
    case RightMouseUp => Some((Right, false))
    case OtherMouseDown => Some((Middle, true))
    case OtherMouseUp => Some((Middle, false))
    case _ => None
  }

  /** macOS `key_event`: a key-down event for a press and a key-up event for a release, with the table's code. */
  function MacKeyEvent(key: KeyCode, pressed: bool): (r: Result<(CGEventType, u16), HidError>)
    ensures r.Ok?
    ensures r.value.0 == (if pressed then KeyDown else KeyUp)
    ensures r.value.1 == KeycodeToCg(key).value
  {
    match KeycodeToCg(key)
    case Err(e) => Err(e)
    case Ok(code) => Ok((if pressed then KeyDown else KeyUp, code))
  }

  // -------------------------------------------------------------- Windows

  /** The `MOUSEEVENTF_*` flags the handler uses. */
  datatype MouseFlag =
    | Move | Absolute
    | LeftDown | LeftUp | RightDown | RightUp | MiddleDown | MiddleUp
    | Wheel | HWheel

  /** A mouse `INPUT`: its `MOUSEINPUT` fields other than the zero time and extra info. */
  datatype MouseInput = MouseInput(dx: i32, dy: i32, mouseData: u32, flags: set<MouseFlag>)

  /** The key-down or key-up flag of a keyboard input. */
  datatype KeyFlag = KeyDownFlag | KeyUpFlag

  /** A keyboard `INPUT`: its virtual key and flag; the scan code, time and extra info are zero. */
  datatype KeyboardInput = KeyboardInput(vk: VirtualKey, flag: KeyFlag)

  /** One `INPUT` record as `SendInput` takes it. */
  datatype Input = Mouse(mi: MouseInput) | Keyboard(ki: KeyboardInput)

  /** The `VK_*` virtual keys the handler uses. */
  datatype VirtualKey =
    | VkA | VkB | VkC | VkD | VkE
    | VkSpace | VkReturn | VkTab | VkEscape
    | VkUp | VkDown | VkLeft | VkRight

  /** `keycode_to_vk`: the same thirteen keys, and the space key for every other one. */
  function KeycodeToVk(key: KeyCode): (r: Result<VirtualKey, HidError>)
    ensures r.Ok?
  {
    Ok(match key
      case A => VkA
      case B => VkB
      case C => VkC
      case D => VkD
      case E => VkE
      case Space => VkSpace
      case Enter => VkReturn
      case Tab => VkTab
      case Escape => VkEscape
      case ArrowUp => VkUp
      case ArrowDown => VkDown
      case ArrowLeft => VkLeft
      case ArrowRight => VkRight
      case _ => VkSpace)
  }

  /**
   * Every key outside the thirteen named ones falls back to the space key
   * on both platforms, and on macOS only those and Space itself type the
   * space key's code.
   */
  lemma UnnamedKeysTypeSpace(key: KeyCode)
    ensures !Named(key) ==> KeycodeToCg(key) == KeycodeToCg(Space) && KeycodeToVk(key) == KeycodeToVk(Space)
    ensures KeycodeToCg(key) == KeycodeToCg(Space) <==> (key == Space || !Named(key))
  {
    if Named(key) {
    }
  }

  /** The virtual key standing for a Core Graphics code the macOS table produces. */
  function VkOfCg(code: u16): VirtualKey {
    match code
    case 0 => VkA
    case 11 => VkB
    case 8 => VkC
    case 2 => VkD
    case 14 => VkE
    case 49 => VkSpace
    case 36 => VkReturn
    case 48 => VkTab
    case 53 => VkEscape
    case 126 => VkUp
    case 125 => VkDown
    case 123 => VkLeft
    case 124 => VkRight
    case _ => VkSpace
  }

  /** The Core Graphics code standing for a virtual key. */
  function CgOfVk(vk: VirtualKey): u16 {
    match vk
    case VkA => 0
    case VkB => 11
    case VkC => 8
    case VkD => 2
    case VkE => 14
    case VkSpace => 49
    case VkReturn => 36
    case VkTab => 48
    case VkEscape => 53
    case VkUp => 126
    case VkDown => 125
    case VkLeft => 123
    case VkRight => 124
  }

  /** Each table is the other one followed by a translation of codes. */
  lemma TablesTranslate(key: KeyCode)
    ensures KeycodeToVk(key).value == VkOfCg(KeycodeToCg(key).value)
    ensures KeycodeToCg(key).value == CgOfVk(KeycodeToVk(key).value)
  {
    if key.A? || key.B? || key.C? || key.D? || key.E? || key.Space? || key.Enter? || key.Tab? || key.Escape? || key.ArrowUp? || key.ArrowDown? || key.ArrowLeft? || key.ArrowRight? {
    }
  }

  /**
   * The two tables agree: two keys share a Core Graphics code exactly when
   * they share a virtual key, so both platforms type the same key for the
   * same event.
   */
  lemma KeyTablesAgree(k1: KeyCode, k2: KeyCode)
    ensures KeycodeToCg(k1) == KeycodeToCg(k2) <==> KeycodeToVk(k1) == KeycodeToVk(k2)
  {
    TablesTranslate(k1);
    TablesTranslate(k2);
  }

  /** Windows `mouse_move`: a move input, flagged absolute exactly when the move is absolute. */
  function WindowsMoveInput(x: i32, y: i32, absolute: bool): (input: MouseInput)
    ensures Move in input.flags
    ensures Absolute in input.flags <==> absolute
    ensures input.flags <= {Move, Absolute}
    ensures input.dx == x && input.dy == y && input.mouseData == 0
  {
    MouseInput(x, y, 0, if absolute then {Move, Absolute} else {Move})
  }

  /**
   * Windows `mouse_move`: submits the move input and fails when `SendInput`
   * inserts nothing. `sendInput` stands for `SendInput` and answers how
   * many inputs it inserted.
   */
  method WindowsMouseMove(x: i32, y: i32, absolute: bool, sendInput: Input -> u32)
    returns (sent: seq<MouseInput>, r: Result<(), HidError>)
    ensures |sent| == 1 && Move in sent[0].flags && (Absolute in sent[0].flags <==> absolute)
    ensures sent == [WindowsMoveInput(x, y, absolute)]
    ensures r.Err? <==> sendInput(Mouse(sent[0])) == 0
    ensures r.Err? ==> r.error == SendFailed("mouse move")
  {
    var input := WindowsMoveInput(x, y, absolute);
    sent := [input];
    if sendInput(Mouse(input)) == 0 {
      return sent, Err(SendFailed("mouse move"));
    }
    r := Ok(());
  }

  /**
   * The Windows flag for a button change: the flag of that very button, a
   * down flag exactly for a press; X1 and X2 have none.
   */
  function WindowsButtonFlag(button: MouseButton, pressed: bool): (r: Option<MouseFlag>)
    ensures r.None? <==> button == X1 || button == X2
    ensures r.Some? ==> FlagButton(r.value) == Some((button, pressed))
  {
    match (button, pressed)
    case (Left, true) => Some(LeftDown)
    case (Left, false) => Some(LeftUp)
    case (Right, true) => Some(RightDown)
    case (Right, false) => Some(RightUp)
    case (Middle, true) => Some(MiddleDown)
    case (Middle, false) => Some(MiddleUp)
    case _ => None
  }

  /** The button a Windows button flag is for, and whether it is a press. */
  function FlagButton(f: MouseFlag): Option<(MouseButton, bool)> {
    match f
    case LeftDown => Some((Left, true))
    case LeftUp => Some((Left, false))
    case RightDown => Some((Right, true))
    case RightUp => Some((Right, false))
    case MiddleDown => Some((Middle, true))
    case MiddleUp => Some((Middle, false))
    case _ => None
  }

  /**
   * Both platforms' click tables say the same thing: for Left, Right and
   * Middle, the event chosen is for that very button and is a press
   * exactly when `pressed` is; X1 and X2 are refused by both.
   */
  lemma ClickTablesAgree(button: MouseButton, pressed: bool, posX: Option<i32>, posY: Option<i32>)
    ensures WindowsButtonFlag(button, pressed).None? <==> MacMouseClick(button, pressed, posX, posY).Err?
    ensures WindowsButtonFlag(button, pressed).Some? ==>
      && FlagButton(WindowsButtonFlag(button, pressed).value) == Some((button, pressed))
      && CGEventButton(MacMouseClick(button, pressed, posX, posY).value.eventType) == Some((button, pressed))
  {
  }

  /**
   * Windows `mouse_click`. When both coordinates are present an absolute
   * move is submitted first, and a failed move ends the click. Then X1 and
   * X2 are refused; any other button's flag is submitted on its own.
   * `sendInput` stands for `SendInput` and answers how many inputs it
   * inserted.
   */
  method WindowsMouseClick(button: MouseButton, pressed: bool, posX: Option<i32>, posY: Option<i32>,
                           sendInput: Input -> u32)
    returns (sent: seq<MouseInput>, r: Result<(), HidError>)
    ensures var moves := if posX.Some? && posY.Some? then [WindowsMoveInput(posX.value, posY.value, true)] else [];
      var moved := moves == [] || sendInput(Mouse(moves[0])) != 0;
      && (!moved ==> sent == moves && r == Err(SendFailed("mouse move")))
      && (moved && WindowsButtonFlag(button, pressed).None? ==> sent == moves && r == Err(UnsupportedButton(button)))
      && (moved && WindowsButtonFlag(button, pressed).Some? ==>
            var click := MouseInput(0, 0, 0, {WindowsButtonFlag(button, pressed).value});
            && sent == moves + [click]
            && r == if sendInput(Mouse(click)) == 0 then Err(SendFailed("mouse click")) else Ok(()))
  {
    sent := [];
    if posX.Some? && posY.Some? {
      var move := WindowsMoveInput(posX.value, posY.value, true);
      sent := sent + [move];
      if sendInput(Mouse(move)) == 0 {
        return sent, Err(SendFailed("mouse move"));
      }
    }
    var flags := WindowsButtonFlag(button, pressed);
    if flags.None? {
      return sent, Err(UnsupportedButton(button));
    }
    var input := MouseInput(0, 0, 0, {flags.value});
    sent := sent + [input];
    if sendInput(Mouse(input)) == 0 {
      r := Err(SendFailed("mouse click"));
    } else {
      r := Ok(());
    }
  }

  /** How Windows reads `mouseData` for a wheel input: as a signed 32-bit amount. */
  function AsSigned(data: u32): int {
    if data as int < 0x8000_0000 then data as int else data as int - 0x1_0000_0000
  }

  /**
   * `(delta * 120) as u32` in a release build: the `i32` product wraps and
   * its bits are read as unsigned. Whenever the product fits in an `i32`,
   * the wheel amount Windows reads back is exactly 120 units per notch,
   * sign included.
   */
  function WheelData(delta: i32): (data: u32)
    ensures (data as int - delta as int * 120) % 0x1_0000_0000 == 0
    ensures -0x8000_0000 <= delta as int * 120 < 0x8000_0000 ==> AsSigned(data) == delta as int * 120
  {
    var p := delta as int * 120;
    assert -0x8000_0000 <= p < 0 ==> (p + 0x1_0000_0000) % 0x1_0000_0000 == p + 0x1_0000_0000;
    (p % 0x1_0000_0000) as u32
  }

  /** The product fits in an `i32` exactly for deltas of at most 17_895_697 notches either way. */
  lemma WheelProductFits(delta: i32)
    ensures -0x8000_0000 <= delta as int * 120 < 0x8000_0000 <==> -17_895_697 <= delta as int <= 17_895_697
  {
  }

  /** A wheel input: no movement, the converted amount, and the vertical or horizontal wheel flag. */
  function WheelInput(delta: i32, flag: MouseFlag): MouseInput {
    MouseInput(0, 0, WheelData(delta), {flag})
  }

  /**
   * Windows `mouse_scroll`: a vertical wheel input when `deltaY` is not
   * zero, then a horizontal one when `deltaX` is not zero. `SendInput`'s
   * answer is not looked at, so the scroll always succeeds.
   */
  method WindowsMouseScroll(deltaX: i32, deltaY: i32) returns (sent: seq<MouseInput>, r: Result<(), HidError>)
    ensures r == Ok(())
    ensures |sent| == (if deltaY != 0 then 1 else 0) + (if deltaX != 0 then 1 else 0)
    ensures (exists i :: 0 <= i < |sent| && Wheel in sent[i].flags) <==> deltaY != 0
    ensures (exists i :: 0 <= i < |sent| && HWheel in sent[i].flags) <==> deltaX != 0
    ensures deltaY != 0 ==> sent[0] == WheelInput(deltaY, Wheel)
    ensures deltaX != 0 ==> sent[|sent| - 1] == WheelInput(deltaX, HWheel)
  {
    sent := [];
    if deltaY != 0 {
      var input := MouseInput(0, 0, WheelData(deltaY), {Wheel});
      sent := sent + [input];
    }
    if deltaX != 0 {
      var input := MouseInput(0, 0, WheelData(deltaX), {HWheel});
      sent := sent + [input];
    }
    r := Ok(());
    if deltaY != 0 {
      assert Wheel in sent[0].flags;
    }
    if deltaX != 0 {
      assert HWheel in sent[|sent| - 1].flags;
    }
  }

  /**
   * The keyboard input Windows `key_event` submits: the table's virtual
   * key, flagged down for a press and up for a release.
   */
  function WindowsKeyInput(key: KeyCode, pressed: bool): (input: KeyboardInput)
    ensures Ok(input.vk) == KeycodeToVk(key)
    ensures input.flag == KeyDownFlag <==> pressed
  {
    KeyboardInput(KeycodeToVk(key).value, if pressed then KeyDownFlag else KeyUpFlag)
  }

  /**
   * Windows `key_event`: submits the keyboard input and fails when
   * `SendInput` inserts nothing. The table lookup cannot fail.
   */
  method WindowsKeyEvent(key: KeyCode, pressed: bool, sendInput: Input -> u32)
    returns (sent: seq<KeyboardInput>, r: Result<(), HidError>)
    ensures sent == [WindowsKeyInput(key, pressed)]
    ensures r.Err? <==> sendInput(Keyboard(sent[0])) == 0
    ensures r.Err? ==> r.error == SendFailed("keyboard input")
  {
    var input := WindowsKeyInput(key, pressed);
    sent := [input];
    if sendInput(Keyboard(input)) == 0 {
      return sent, Err(SendFailed("keyboard input"));
    }
    r := Ok(());
  }
}
