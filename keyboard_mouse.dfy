/** The emulator side of the HTML5 keyboard and mouse device
    (HTML5KeyboardMouse.cpp): the process-wide "one device at most" flag,
    the fixed list of inputs each device creates, the decoding of the mouse
    button mask, and the names the inputs are shown under. */
module KeyboardMouse {
  import opened Wrappers
  import opened Decimal
  import opened CStrings
  import NativeInput

  /** One row of the key table: a DOM key code and the name shown for it. */
  datatype NamedKey = NamedKey(code: NativeInput.KeyCode, name: string)

  /** `named_keys`, in table order. The codes are the DOM `keyCode` values
      the `DOM_VK_*` constants stand for. */
  const NamedKeys: seq<NamedKey> := [
    NamedKey(0x31, "1"), NamedKey(0x32, "2"), NamedKey(0x33, "3"), NamedKey(0x34, "4"),
    NamedKey(0x35, "5"), NamedKey(0x36, "6"), NamedKey(0x37, "7"), NamedKey(0x38, "8"),
    NamedKey(0x39, "9"), NamedKey(0x30, "0"),
    NamedKey(0x41, "A"), NamedKey(0x42, "B"), NamedKey(0x43, "C"), NamedKey(0x44, "D"),
    NamedKey(0x45, "E"), NamedKey(0x46, "F"), NamedKey(0x47, "G"), NamedKey(0x48, "H"),
    NamedKey(0x49, "I"), NamedKey(0x4a, "J"), NamedKey(0x4b, "K"), NamedKey(0x4c, "L"),
    NamedKey(0x4d, "M"), NamedKey(0x4e, "N"), NamedKey(0x4f, "O"), NamedKey(0x50, "P"),
    NamedKey(0x51, "Q"), NamedKey(0x52, "R"), NamedKey(0x53, "S"), NamedKey(0x54, "T"),
    NamedKey(0x55, "U"), NamedKey(0x56, "V"), NamedKey(0x57, "W"), NamedKey(0x58, "X"),
    NamedKey(0x59, "Y"), NamedKey(0x5a, "Z"),
    NamedKey(0x70, "F1"), NamedKey(0x71, "F2"), NamedKey(0x72, "F3"), NamedKey(0x73, "F4"),
    NamedKey(0x74, "F5"), NamedKey(0x75, "F6"), NamedKey(0x76, "F7"), NamedKey(0x77, "F8"),
    NamedKey(0x78, "F9"), NamedKey(0x79, "F10"), NamedKey(0x7a, "F11"), NamedKey(0x7b, "F12"),
    NamedKey(0x7c, "F13"), NamedKey(0x7d, "F14"), NamedKey(0x7e, "F15"), NamedKey(0x7f, "F16"),
    NamedKey(0x80, "F17"), NamedKey(0x81, "F18"), NamedKey(0x82, "F19"), NamedKey(0x83, "F20"),
    NamedKey(0x84, "F21"), NamedKey(0x85, "F22"), NamedKey(0x86, "F23"), NamedKey(0x87, "F24"),
    NamedKey(0x20, "Space"), NamedKey(0x09, "Tab"),
    NamedKey(0x6f, "Keypad /"), NamedKey(0x6a, "Keypad *"), NamedKey(0x6d, "Keypad -"),
    NamedKey(0x6b, "Keypad +"),
    NamedKey(0x61, "Keypad 1"), NamedKey(0x62, "Keypad 2"), NamedKey(0x63, "Keypad 3"),
    NamedKey(0x64, "Keypad 4"), NamedKey(0x65, "Keypad 5"), NamedKey(0x66, "Keypad 6"),
    NamedKey(0x67, "Keypad 7"), NamedKey(0x68, "Keypad 8"), NamedKey(0x69, "Keypad 9"),
    NamedKey(0x60, "Keypad 0"),
    NamedKey(0x24, "Home"), NamedKey(0x27, "Right Arrow"), NamedKey(0x25, "Left Arrow"),
    NamedKey(0x28, "Down Arrow"), NamedKey(0x26, "Up Arrow"),
    NamedKey(0x3b, ";"), NamedKey(0xbc, ","), NamedKey(0xbe, "."), NamedKey(0xbf, "/"),
    NamedKey(0x1b, "Escape"), NamedKey(0xde, "'"), NamedKey(0xc0, "Tilde"), NamedKey(0xdc, "\\"),
    NamedKey(0xe0, "Meta"), NamedKey(0x11, "Left Control"), NamedKey(0x10, "Left Shift"),
    NamedKey(0x12, "Left Alt"), NamedKey(0x14, "Caps Lock")
  ]

  /** `NORM_MOUSE_AXIS_SENSITIVITY` */
  const NormMouseAxisSensitivity: real := 0.04

  /** The inputs a device exposes; each knows which part of the device state
      it reads (a key's slot is `keyboard[NamedKeys[index].code]`). */
  datatype Input =
    | Key(index: nat)
    | Button(index: nat)
    | Cursor(index: nat, positive: bool)
    | Axis(index: nat, range: real)

  /** `char('X' + index)` for a `u8` index: the sum wraps to a byte. */
  function AxisLetter(index: nat): char
    requires index < 256
  {
    (('X' as int + index) % 256) as char
  }

  predicate Nameable(inp: Input)
  {
    match inp
    case Key(i) => i < |NamedKeys|
    case Button(_) => true
    case Cursor(i, _) => i < 256
    case Axis(i, _) => i < 256
  }

  /** `Key::GetName`, `Button::GetName`, `Axis::GetName`, `Cursor::GetName`.
      The last two fill in a `char` buffer and return it as a C string, so
      the name ends at a NUL letter. */
  function InputName(inp: Input): string
    requires Nameable(inp)
  {
    match inp
    case Key(i) => NamedKeys[i].name
    case Button(i) => "Click " + NatToString(i)
    case Axis(i, range) => ReadCString("Axis " + [AxisLetter(i), if range < 0.0 then '-' else '+'])
    case Cursor(i, positive) => ReadCString("Cursor " + [AxisLetter(i), if positive then '+' else '-'])
  }

  /** A button's name is "Click " and then its index in decimal, which can be
      read back from the name. */
  lemma ButtonNameReadsBack(i: nat)
    ensures |InputName(Button(i))| > 6 && InputName(Button(i))[..6] == "Click "
    ensures
      var digits := InputName(Button(i))[6..];
      (forall k :: 0 <= k < |digits| ==> IsDigit(digits[k])) && DecimalValue(digits) == i
  {
    var digits := InputName(Button(i))[6..];
    assert digits == NatToString(i);
    NatToStringRoundTrip(i);
  }

  /** The letter wraps to NUL at index 168 ('X' is 88), and only there. */
  lemma AxisLetterNul(i: nat)
    requires i < 256
    ensures AxisLetter(i) == '\0' <==> i == 168
  {
  }

  /** The letter of an axis or cursor name is fixed by its index and the
      sign character by the sign of its range or its direction; at index
      168 the NUL letter ends the name right after the prefix. */
  lemma AxisAndCursorNames(i: nat, range: real, positive: bool)
    requires i < 256
    ensures i != 168 ==>
      && InputName(Axis(i, range)) == "Axis " + [AxisLetter(i), if range < 0.0 then '-' else '+']
      && InputName(Cursor(i, positive)) == "Cursor " + [AxisLetter(i), if positive then '+' else '-']
    ensures i == 168 ==> InputName(Axis(i, range)) == "Axis " && InputName(Cursor(i, positive)) == "Cursor "
    ensures i <= 2 ==> AxisLetter(i) == ['X', 'Y', 'Z'][i]
  {
    var a := "Axis " + [AxisLetter(i), if range < 0.0 then '-' else '+'];
    var c := "Cursor " + [AxisLetter(i), if positive then '+' else '-'];
    if i != 168 {
      assert '\0' !in a && '\0' !in c;
      ReadCStringWhole(a);
      ReadCStringWhole(c);
    } else {
      assert a == "Axis " + ['\0'] + [a[6]];
      ReadCStringCut("Axis ", [a[6]]);
      assert c == "Cursor " + ['\0'] + [c[8]];
      ReadCStringCut("Cursor ", [c[8]]);
    }
  }

  /** The key inputs, one per table row, in table order. */
  function KeyInputs(n: nat): seq<Input>
  {
    seq(n, i requires 0 <= i < n => Key(i))
  }

  /** The four cursor-axis inputs of the loop `for (u8 i = 0; i < 4; ++i)`. */
  function CursorAxisInput(i: nat): Input
  {
    Axis(i / 2, if i % 2 == 1 then NormMouseAxisSensitivity else -NormMouseAxisSensitivity)
  }

  /** The inputs a device adds after its keys: the three buttons, the four
      cursor halves, the four cursor axes and the two wheel axes. */
  function OtherInputs(): seq<Input>
  {
    [Button(0), Button(1), Button(2)]
    + [Cursor(0, false), Cursor(0, true), Cursor(1, false), Cursor(1, true)]
    + seq(4, i requires 0 <= i < 4 => CursorAxisInput(i))
    + [Axis(2, -1.0), Axis(2, 1.0)]
  }

  /** Every input a new device adds, in the order the constructor adds them. */
  function DeviceInputs(): seq<Input>
  {
    KeyInputs(|NamedKeys|) + OtherInputs()
  }

  /** A device has one input per table row and thirteen more: three buttons,
      four cursor halves, four cursor axes and two wheel axes. */
  lemma DeviceInputCount()
    ensures |NamedKeys| == 94
    ensures |DeviceInputs()| == |NamedKeys| + 3 + 4 + 4 + 2
    ensures DeviceInputs()[|NamedKeys|..] == OtherInputs()
  {
  }

  /** The first inputs are the keys in table order, each named by its row,
      and every key code indexes the 256-byte keyboard state. */
  lemma KeyInputsNamedByTable(i: nat)
    requires i < |NamedKeys|
    ensures DeviceInputs()[i] == Key(i) && InputName(DeviceInputs()[i]) == NamedKeys[i].name
    ensures NamedKeys[i].code < NativeInput.KeySlots
  {
  }

  /** The inputs after the keys, written out. */
  lemma OtherInputsListed()
    ensures OtherInputs() == [Button(0), Button(1), Button(2), Cursor(0, false), Cursor(0, true),
                              Cursor(1, false), Cursor(1, true), Axis(0, -0.04), Axis(0, 0.04),
                              Axis(1, -0.04), Axis(1, 0.04), Axis(2, -1.0), Axis(2, 1.0)]
  {
  }

  lemma ButtonNames()
    ensures InputName(Button(0)) == "Click 0" && InputName(Button(1)) == "Click 1"
    ensures InputName(Button(2)) == "Click 2"
  {
    assert NatToString(0) == "0" && NatToString(1) == "1" && NatToString(2) == "2";
  }

  lemma CursorNames()
    ensures InputName(Cursor(0, false)) == "Cursor X-" && InputName(Cursor(0, true)) == "Cursor X+"
    ensures InputName(Cursor(1, false)) == "Cursor Y-" && InputName(Cursor(1, true)) == "Cursor Y+"
  {
    AxisAndCursorNames(0, 0.0, false);
    AxisAndCursorNames(0, 0.0, true);
    AxisAndCursorNames(1, 0.0, false);
    AxisAndCursorNames(1, 0.0, true);
  }

  lemma AxisNames()
    ensures InputName(Axis(0, -0.04)) == "Axis X-" && InputName(Axis(0, 0.04)) == "Axis X+"
    ensures InputName(Axis(1, -0.04)) == "Axis Y-" && InputName(Axis(1, 0.04)) == "Axis Y+"
    ensures InputName(Axis(2, -1.0)) == "Axis Z-" && InputName(Axis(2, 1.0)) == "Axis Z+"
  {
    AxisAndCursorNames(0, -0.04, true);
    AxisAndCursorNames(0, 0.04, true);
    AxisAndCursorNames(1, -0.04, true);
    AxisAndCursorNames(1, 0.04, true);
    AxisAndCursorNames(2, -1.0, true);
    AxisAndCursorNames(2, 1.0, true);
  }

  /** The names of the inputs after the keys, in order. */
  lemma OtherInputNames()
    ensures |OtherInputs()| == 13 && forall k :: 0 <= k < 13 ==> Nameable(OtherInputs()[k])
    ensures
      var o := OtherInputs();
      && InputName(o[0]) == "Click 0" && InputName(o[1]) == "Click 1" && InputName(o[2]) == "Click 2"
      && InputName(o[3]) == "Cursor X-" && InputName(o[4]) == "Cursor X+"
      && InputName(o[5]) == "Cursor Y-" && InputName(o[6]) == "Cursor Y+"
      && InputName(o[7]) == "Axis X-" && InputName(o[8]) == "Axis X+"
      && InputName(o[9]) == "Axis Y-" && InputName(o[10]) == "Axis Y+"
      && InputName(o[11]) == "Axis Z-" && InputName(o[12]) == "Axis Z+"
  {
    OtherInputsListed();
    ButtonNames();
    CursorNames();
    AxisNames();
  }

  /** `buttons & (1 << bit)` read as a bool, for any two's-complement `int`. */
  function MaskBit(buttons: int, bit: nat): bool
  {
    (buttons / Pow2(bit)) % 2 == 1
  }

  function Pow2(k: nat): (p: nat)
    ensures p >= 1
  {
    if k == 0 then 1 else 2 * Pow2(k - 1)
  }

  /** `MouseEvent.buttons` as the browser builds it: bit 0 for the primary
      (left) button, bit 1 for the secondary (right), bit 2 for the auxiliary
      (middle), and any further buttons above them. */
  function ButtonMask(left: bool, right: bool, middle: bool, others: int): int
  {
    8 * others + (if middle then 4 else 0) + (if right then 2 else 0) + (if left then 1 else 0)
  }

  /** Decoding recovers the three buttons from any mask, whatever the higher
      bits hold. */
  lemma DecodeButtonMask(left: bool, right: bool, middle: bool, others: int)
    ensures MaskBit(ButtonMask(left, right, middle, others), 0) == left
    ensures MaskBit(ButtonMask(left, right, middle, others), 1) == right
    ensures MaskBit(ButtonMask(left, right, middle, others), 2) == middle
  {
    var m := ButtonMask(left, right, middle, others);
    var l, r, md := if left then 1 else 0, if right then 1 else 0, if middle then 1 else 0;
    assert Pow2(0) == 1 && Pow2(1) == 2 && Pow2(2) == 4;
    assert m == 2 * (4 * others + 2 * md + r) + l;
    HalveBit(4 * others + 2 * md + r, l);
    assert m / 2 == 2 * (2 * others + md) + r;
    assert m / 4 == 2 * others + md by {
      QuarterOf(2 * others + md, 2 * r + l);
    }
    HalveBit(2 * others + md, r);
    HalveBit(others, md);
  }

  /** Division by two of a number whose low bit is known. */
  lemma HalveBit(a: int, b: int)
    requires b == 0 || b == 1
    ensures (2 * a + b) / 2 == a && (2 * a + b) % 2 == b
  {
  }

  lemma QuarterOf(a: int, b: int)
    requires 0 <= b < 4
    ensures (4 * a + b) / 4 == a
  {
  }

  class KeyboardMouse {
    /** `m_state_in.keyboard` */
    const keyboard: array<int>
    var leftClick: bool
    var rightClick: bool
    var middleClick: bool
    var cursorX: real
    var cursorY: real
    /** `m_state_in.axes` */
    var axes: seq<real>
    var inputs: seq<Input>

    /** `KeyboardMouse::KeyboardMouse`: adds the key inputs in table order,
        then the buttons, the cursor halves, the cursor axes and the wheel.
        The call into the browser side is made by SetupKeyboardMouse just
        before, as the first statement of the constructor. */
    constructor ()
      ensures inputs == DeviceInputs()
      ensures fresh(keyboard) && keyboard.Length == NativeInput.KeySlots && |axes| == 3
    {
      keyboard := new int[NativeInput.KeySlots](_ => 0);
      inputs := [];
      new;
      for i := 0 to |NamedKeys|
        invariant inputs == KeyInputs(i)
      {
        inputs := inputs + [Key(i)];
      }
      inputs := inputs + [Button(0), Button(1), Button(2)];
      inputs := inputs + [Cursor(0, false), Cursor(0, true), Cursor(1, false), Cursor(1, true)];
      ghost var before := inputs;
      for i := 0 to 4
        invariant inputs == before + seq(i, k requires 0 <= k < i => CursorAxisInput(k))
      {
        inputs := inputs + [CursorAxisInput(i)];
      }
      inputs := inputs + [Axis(2, -1.0), Axis(2, 1.0)];
      leftClick, rightClick, middleClick := false, false, false;
      cursorX, cursorY, axes := 0.0, 0.0, [0.0, 0.0, 0.0];
    }

    /** `KeyboardMouse::UpdateInput`: queries the browser side into the
        device state, then decodes the button mask. */
    method UpdateInput(native: NativeInput.BrowserNativeInput) returns (r: Outcome<NativeInput.Error>)
      requires native.Valid() && keyboard.Length == NativeInput.KeySlots && keyboard != native.keyStates
      modifies this, keyboard, native, native.keyStates
      ensures native.Valid() && native.target == old(native.target) && inputs == old(inputs)
      ensures old(native.target).None? ==> r == Fail(NativeInput.NoDevice) && keyboard[..] == old(keyboard[..])
      ensures old(native.target).None? ==>
        && leftClick == old(leftClick) && rightClick == old(rightClick) && middleClick == old(middleClick)
        && cursorX == old(cursorX) && cursorY == old(cursorY) && axes == old(axes)
      ensures old(native.target).Some? ==>
        && r == Pass
        && leftClick == MaskBit(old(native.buttonBits), 0)
        && rightClick == MaskBit(old(native.buttonBits), 1)
        && middleClick == MaskBit(old(native.buttonBits), 2)
        && cursorX == old(native.normMouseX) && cursorY == old(native.normMouseY)
        && axes == [old(native.mouseAxisX), old(native.mouseAxisY), old(native.mouseAxisZ)]
        && keyboard[..] == NativeInput.Deliver(old(native.keyStates[..]), old(keyboard[..]))
        && native.keyStates[..] == seq(NativeInput.KeySlots, _ => NativeInput.Reported)
        && native.mouseAxisX == 0.0 && native.mouseAxisY == 0.0 && native.mouseAxisZ == 0.0
      ensures old(native.target).None? ==>
        && native.keyStates[..] == old(native.keyStates[..]) && native.mouseAxisX == old(native.mouseAxisX)
        && native.mouseAxisY == old(native.mouseAxisY) && native.mouseAxisZ == old(native.mouseAxisZ)
      ensures native.buttonBits == old(native.buttonBits)
      ensures native.normMouseX == old(native.normMouseX) && native.normMouseY == old(native.normMouseY)
    {
      var q := native.GetKeyboardMouseInputState(keyboard);
      if q.Failure? {
        return Fail(q.error);
      }
      var s := q.value;
      cursorX, cursorY := s.cursorX, s.cursorY;
      axes := [s.axisX, s.axisY, s.axisZ];
      var buttons := s.buttons;
      leftClick := MaskBit(buttons, 0);
      rightClick := MaskBit(buttons, 1);
      middleClick := MaskBit(buttons, 2);
      return Pass;
    }
  }

  /** The controller interface as far as this device goes: the devices it
      holds, the flag `s_keyboard_mouse_exists`, and the browser-side state
      the device talks to. */
  class ControllerInterface {
    const native: NativeInput.BrowserNativeInput
    var devices: seq<KeyboardMouse>
    var keyboardMouseExists: bool

    /** The flag, a held device and a registered browser target go together. */
    ghost predicate Valid()
      reads this, native, native.keyStates
    {
      && native.Valid()
      && |devices| <= 1
      && (keyboardMouseExists <==> |devices| == 1)
      && (keyboardMouseExists <==> native.target.Some?)
      && forall d :: d in devices ==> d.keyboard.Length == NativeInput.KeySlots && d.keyboard != native.keyStates
    }

    constructor ()
      ensures Valid() && fresh(native) && fresh(native.keyStates)
      ensures devices == [] && !keyboardMouseExists
    {
      native := new NativeInput.BrowserNativeInput();
      devices := [];
      keyboardMouseExists := false;
    }

    /** `SetupKeyboardMouse`: a no-op while a device exists; otherwise
        constructs one (whose first act registers the browser target, and
        whose failure propagates as the thrown error) and sets the flag.
        Thanks to the flag the browser side never reports a second device. */
    method SetupKeyboardMouse(found: Option<NativeInput.Target>) returns (r: Outcome<NativeInput.Error>)
      requires Valid()
      modifies this, native, native.keyStates
      ensures Valid()
      ensures r != Fail(NativeInput.SecondDevice)
      ensures old(keyboardMouseExists) ==> r == Pass && devices == old(devices) && native.target == old(native.target)
      ensures !old(keyboardMouseExists) && found.None? ==>
        r == Fail(NativeInput.NoSuchElement) && !keyboardMouseExists && devices == old(devices)
      ensures !old(keyboardMouseExists) && found.Some? ==>
        && r == Pass && keyboardMouseExists && native.target == found
        && |devices| == 1 && fresh(devices[0]) && devices[0].inputs == DeviceInputs()
        && native.keyStates[..] == seq(NativeInput.KeySlots, _ => 0)
      ensures old(keyboardMouseExists) || found.None? ==> native.keyStates[..] == old(native.keyStates[..])
      ensures native.mouseAxisX == old(native.mouseAxisX) && native.mouseAxisY == old(native.mouseAxisY)
      ensures native.mouseAxisZ == old(native.mouseAxisZ) && native.buttonBits == old(native.buttonBits)
      ensures native.normMouseX == old(native.normMouseX) && native.normMouseY == old(native.normMouseY)
    {
      if keyboardMouseExists {
        return Pass;
      }
      r := native.Setup(found);
      if r.Fail? {
        return r;
      }
      var d := new KeyboardMouse();
      devices := devices + [d];
      keyboardMouseExists := true;
    }

    /** Dropping the device runs `KeyboardMouse::~KeyboardMouse`, which
        removes the browser listeners and clears the flag, so that a later
        setup succeeds. While the invariant holds the browser-side removal
        cannot fail. */
    method RemoveKeyboardMouse()
      requires Valid()
      modifies this, native
      ensures Valid()
      ensures devices == [] && !keyboardMouseExists && native.target == None
      ensures native.keyStates[..] == old(native.keyStates[..])
      ensures native.mouseAxisX == old(native.mouseAxisX) && native.mouseAxisY == old(native.mouseAxisY)
      ensures native.mouseAxisZ == old(native.mouseAxisZ) && native.buttonBits == old(native.buttonBits)
      ensures native.normMouseX == old(native.normMouseX) && native.normMouseY == old(native.normMouseY)
    {
      if |devices| == 1 {
        var r := native.Remove();
        assert r == Pass;
        devices := [];
        keyboardMouseExists := false;
      }
    }

    /** Updating the held device: while the invariant holds its query of the
        browser side always succeeds. */
    method UpdateInput()
      requires Valid()
      modifies native, native.keyStates, set d | d in devices, set d | d in devices :: d.keyboard
      ensures Valid() && devices == old(devices) && native.target == old(native.target)
      ensures forall d :: d in devices ==>
        && d.leftClick == MaskBit(old(native.buttonBits), 0)
        && d.rightClick == MaskBit(old(native.buttonBits), 1)
        && d.middleClick == MaskBit(old(native.buttonBits), 2)
        && d.cursorX == old(native.normMouseX) && d.cursorY == old(native.normMouseY)
        && d.axes == [old(native.mouseAxisX), old(native.mouseAxisY), old(native.mouseAxisZ)]
        && d.keyboard[..] == NativeInput.Deliver(old(native.keyStates[..]), old(d.keyboard[..]))
        && d.inputs == old(d.inputs)
      ensures devices != [] ==>
        && native.keyStates[..] == seq(NativeInput.KeySlots, _ => NativeInput.Reported)
        && native.mouseAxisX == 0.0 && native.mouseAxisY == 0.0 && native.mouseAxisZ == 0.0
      ensures devices == [] ==>
        && native.keyStates[..] == old(native.keyStates[..]) && native.mouseAxisX == old(native.mouseAxisX)
        && native.mouseAxisY == old(native.mouseAxisY) && native.mouseAxisZ == old(native.mouseAxisZ)
      ensures native.buttonBits == old(native.buttonBits)
      ensures native.normMouseX == old(native.normMouseX) && native.normMouseY == old(native.normMouseY)
    {
      if |devices| == 1 {
        var d := devices[0];
        var r := d.UpdateInput(native);
        assert r == Pass;
      }
    }
  }
}
