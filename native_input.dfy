/** The browser side of the HTML5 keyboard and mouse device
    (`BrowserNativeInput` in HTML5NativeInput.js): event handlers that record
    key and mouse state, and a query that hands the state to the emulator.

    The floating-point mouse maths of the mouse handler (normalising,
    clamping and smoothing the pointer position) is not modelled: the values
    it computes arrive as a MouseSample. */
module NativeInput {
  import opened Wrappers

  /** Number of key-state slots the setup clears and the query reads. */
  const KeySlots: nat := 256

  /** A key code that has a slot. */
  type KeyCode = c: nat | c < KeySlots

  /** A slot's value once the query has delivered it. */
  const Reported: int := -1

  /** A DOM element that receives the listeners, as found by the selector. */
  type Target = nat

  datatype Error =
    | SecondDevice   // "Attempted to setup a second keyboard + mouse device!"
    | NoSuchElement  // "No element with selector ... exists for custom input device!"
    | NoDevice       // "Attempted to remove / query ... non-existent keyboard + mouse device!"

  /** What the mouse handler computes from one pointer event. */
  datatype MouseSample = MouseSample(buttons: int, axisX: real, axisY: real, normX: real, normY: real)

  /** What one query hands back besides the key states. */
  datatype Snapshot = Snapshot(cursorX: real, cursorY: real, buttons: int, axisX: real, axisY: real, axisZ: real)

  /** A key-state slot holds up (0), down (1) or already reported (-1). */
  predicate SlotValue(v: int)
  {
    -1 <= v <= 1
  }

  /** The keyboard array after a query, slot by slot: a slot holding an
      unreported state (not negative) is written, every other slot keeps
      what the caller's array held. */
  function Deliver(states: seq<int>, keyboard: seq<int>): (r: seq<int>)
    requires |states| == |keyboard|
    ensures |r| == |keyboard|
    ensures forall i :: 0 <= i < |r| && states[i] >= 0 ==> r[i] == states[i]
    ensures forall i :: 0 <= i < |r| && states[i] < 0 ==> r[i] == keyboard[i]
    decreases |keyboard|
  {
    if keyboard == [] then []
    else
      var n := |keyboard| - 1;
      Deliver(states[..n], keyboard[..n]) + [if states[n] >= 0 then states[n] else keyboard[n]]
  }

  /** A second query with no event in between writes nothing: every slot of
      the first query's result is marked reported. */
  lemma DeliverReportedIsIdentity(keyboard: seq<int>)
    ensures Deliver(seq(|keyboard|, _ => Reported), keyboard) == keyboard
  {
  }

  /** Delivering twice is delivering once: the second query cannot undo or
      repeat what the first wrote. */
  lemma DeliverIdempotent(states: seq<int>, keyboard: seq<int>)
    requires |states| == |keyboard|
    ensures Deliver(states, Deliver(states, keyboard)) == Deliver(states, keyboard)
  {
  }

  function Sign(x: real): (s: real)
    ensures s == -1.0 || s == 0.0 || s == 1.0
    ensures (s > 0.0 <==> x > 0.0) && (s < 0.0 <==> x < 0.0)
  {
    if x > 0.0 then 1.0 else if x < 0.0 then -1.0 else 0.0
  }

  class BrowserNativeInput {
    var normMouseX: real
    var normMouseY: real
    var buttonBits: int
    var mouseAxisX: real
    var mouseAxisY: real
    var mouseAxisZ: real
    const keyStates: array<int>
    /** `keyboardAndMouseTarget`: None is the source's null. */
    var target: Option<Target>

    ghost predicate Valid()
      reads this, keyStates
    {
      keyStates.Length == KeySlots && forall i :: 0 <= i < KeySlots ==> SlotValue(keyStates[i])
    }

    constructor ()
      ensures Valid() && fresh(keyStates)
      ensures target == None
      ensures mouseAxisX == 0.0 && mouseAxisY == 0.0 && mouseAxisZ == 0.0 && buttonBits == 0
    {
      normMouseX, normMouseY, buttonBits := 0.0, 0.0, 0;
      mouseAxisX, mouseAxisY, mouseAxisZ := 0.0, 0.0, 0.0;
      keyStates := new int[KeySlots](_ => 0);
      target := None;
    }

    /** `HTML5NativeInput_SetupKeyboardMouseDevice`: `found` is what the
        selector lookup returned. Fails when a target is already registered
        or when no element was found (the lookup's null is stored first);
        otherwise registers the target and clears every key slot. */
    method Setup(found: Option<Target>) returns (r: Outcome<Error>)
      requires Valid()
      modifies this, keyStates
      ensures Valid()
      ensures old(target).Some? ==> r == Fail(SecondDevice) && target == old(target) && keyStates[..] == old(keyStates[..])
      ensures old(target).None? && found.None? ==> r == Fail(NoSuchElement) && target == None && keyStates[..] == old(keyStates[..])
      ensures old(target).None? && found.Some? ==> r == Pass && target == found && keyStates[..] == seq(KeySlots, _ => 0)
      ensures mouseAxisX == old(mouseAxisX) && mouseAxisY == old(mouseAxisY) && mouseAxisZ == old(mouseAxisZ)
      ensures buttonBits == old(buttonBits) && normMouseX == old(normMouseX) && normMouseY == old(normMouseY)
    {
      if target.Some? {
        return Fail(SecondDevice);
      }
      target := found;
      if found.None? {
        return Fail(NoSuchElement);
      }
      for i := 0 to KeySlots
        modifies keyStates
        invariant forall k :: 0 <= k < i ==> keyStates[k] == 0
        invariant forall k :: i <= k < KeySlots ==> SlotValue(keyStates[k])
      {
        keyStates[i] := 0;
      }
      return Pass;
    }

    /** `HTML5NativeInput_RemoveKeyboardMouseDevice`: fails with no target,
        otherwise detaches the listeners and forgets the target. */
    method Remove() returns (r: Outcome<Error>)
      requires Valid()
      modifies this
      ensures Valid()
      ensures r == (if old(target).None? then Fail(NoDevice) else Pass)
      ensures target == None
      ensures mouseAxisX == old(mouseAxisX) && mouseAxisY == old(mouseAxisY) && mouseAxisZ == old(mouseAxisZ)
      ensures buttonBits == old(buttonBits) && normMouseX == old(normMouseX) && normMouseY == old(normMouseY)
    {
      if target.None? {
        return Fail(NoDevice);
      }
      target := None;
      return Pass;
    }

    /** `keydownFunc` (`down`) and `keyupFunc` (`!down`). Listeners exist only
        while a target is registered, and only the 256 slots the query reads
        are kept, so a key code past them changes nothing observable. */
    method KeyEvent(keyCode: nat, down: bool)
      requires Valid()
      modifies keyStates
      ensures Valid()
      ensures keyStates[..] ==
        if target.Some? && keyCode < KeySlots then old(keyStates[..])[keyCode := if down then 1 else 0]
        else old(keyStates[..])
    {
      if target.Some? && keyCode < KeySlots {
        keyStates[keyCode] := if down then 1 else 0;
      }
    }

    /** `handleMouseEvent` for mousemove, mouseup and mousedown. */
    method MouseEvent(m: MouseSample)
      modifies this
      ensures target.Some? ==>
        && mouseAxisX == m.axisX && mouseAxisY == m.axisY
        && normMouseX == m.normX && normMouseY == m.normY && buttonBits == m.buttons
      ensures target.None? ==>
        && mouseAxisX == old(mouseAxisX) && mouseAxisY == old(mouseAxisY)
        && normMouseX == old(normMouseX) && normMouseY == old(normMouseY) && buttonBits == old(buttonBits)
      ensures mouseAxisZ == old(mouseAxisZ) && target == old(target)
    {
      if target.Some? {
        mouseAxisX, mouseAxisY := m.axisX, m.axisY;
        normMouseX, normMouseY := m.normX, m.normY;
        buttonBits := m.buttons;
      }
    }

    /** `wheelFunc`: the scroll axis becomes the sign of the wheel's vertical
        delta, then the event is handled as a mouse event. */
    method WheelEvent(deltaY: real, m: MouseSample)
      modifies this
      ensures target.Some? ==>
        && mouseAxisZ == Sign(deltaY) && mouseAxisX == m.axisX && mouseAxisY == m.axisY
        && normMouseX == m.normX && normMouseY == m.normY && buttonBits == m.buttons
      ensures target.None? ==>
        && mouseAxisZ == old(mouseAxisZ) && mouseAxisX == old(mouseAxisX) && mouseAxisY == old(mouseAxisY)
        && normMouseX == old(normMouseX) && normMouseY == old(normMouseY) && buttonBits == old(buttonBits)
      ensures target == old(target)
    {
      if target.Some? {
        mouseAxisZ := Sign(deltaY);
      }
      MouseEvent(m);
    }

    /** `HTML5NativeInput_GetKeyboardMouseInputState`: fails with no target;
        otherwise hands back the cursor, buttons and the three accumulated
        axes, zeroes the axes, copies every slot not yet reported into
        `keyboard` and marks every slot reported. */
    method GetKeyboardMouseInputState(keyboard: array<int>) returns (r: Result<Snapshot, Error>)
      requires Valid() && keyboard.Length == KeySlots && keyboard != keyStates
      modifies this, keyStates, keyboard
      ensures Valid() && target == old(target)
      ensures old(target).None? ==>
        && r == Failure(NoDevice) && keyboard[..] == old(keyboard[..])
        && keyStates[..] == old(keyStates[..]) && mouseAxisX == old(mouseAxisX)
        && mouseAxisY == old(mouseAxisY) && mouseAxisZ == old(mouseAxisZ)
      ensures old(target).Some? ==>
        && r == Success(Snapshot(old(normMouseX), old(normMouseY), old(buttonBits),
                                 old(mouseAxisX), old(mouseAxisY), old(mouseAxisZ)))
        && mouseAxisX == 0.0 && mouseAxisY == 0.0 && mouseAxisZ == 0.0
        && keyboard[..] == Deliver(old(keyStates[..]), old(keyboard[..]))
        && keyStates[..] == seq(KeySlots, _ => Reported)
      ensures buttonBits == old(buttonBits) && normMouseX == old(normMouseX) && normMouseY == old(normMouseY)
    {
      if target.None? {
        return Failure(NoDevice);
      }
      r := Success(Snapshot(normMouseX, normMouseY, buttonBits, mouseAxisX, mouseAxisY, mouseAxisZ));
      mouseAxisX, mouseAxisY, mouseAxisZ := 0.0, 0.0, 0.0;
      for i := 0 to KeySlots
        modifies keyStates, keyboard
        invariant forall k :: 0 <= k < i ==> keyStates[k] == Reported
        invariant forall k :: i <= k < KeySlots ==> keyStates[k] == old(keyStates[k])
        invariant forall k :: 0 <= k < i ==>
          keyboard[k] == (if old(keyStates[k]) >= 0 then old(keyStates[k]) else old(keyboard[k]))
        invariant forall k :: i <= k < KeySlots ==> keyboard[k] == old(keyboard[k])
      {
        var val := keyStates[i];
        if val < 0 {
          continue;
        }
        keyboard[i] := val;
        keyStates[i] := Reported;
      }
    }
  }
}
