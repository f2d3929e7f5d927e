/** `GUIEventManager`: compares each device snapshot with the previous one
    and raises an event for every change. */
module GuiEventManagers {
  import opened InputStates

  /** The events raised, with their arguments. `KeyboardEvent` carries the
      whole current snapshot in place of its keyboard part. */
  datatype GuiEvent =
    | KeyboardEvent(Key: RawKey, Pressed: bool, State: InputState)
    | JoyPadEvent(Key: RawKey, Pressed: bool)
    | MouseButtonEvent(Key: RawKey, Pressed: bool, Mouse: MouseState)
    | RawKeyEvent(Key: RawKey, Pressed: bool)
    | MouseWheelEvent(Delta: int, Mouse: MouseState)
    | MouseMoveEvent(Mouse: MouseState)

  /** The three kinds of key list the manager walks. */
  datatype Device = Keyboard | Pad | Mouse

  predicate Changed(prev: InputState, cur: InputState, key: RawKey) {
    GetButtonState(cur, key) != GetButtonState(prev, key)
  }

  /** The device-specific event for a changed key. */
  function DeviceEvent(d: Device, key: RawKey, pressed: bool, cur: InputState): GuiEvent {
    match d
    case Keyboard => KeyboardEvent(key, pressed, cur)
    case Pad => JoyPadEvent(key, pressed)
    case Mouse => MouseButtonEvent(key, pressed, cur.Mouse)
  }

  /** The events for one key list: for each changed key, in list order, the
      device's event and then `RawKeyEvent`. */
  function KeyEvents(prev: InputState, cur: InputState, keys: seq<RawKey>, d: Device): seq<GuiEvent> {
    if keys == [] then []
    else
      var key := keys[|keys| - 1];
      var pressed := GetButtonState(cur, key) == Pressed;
      KeyEvents(prev, cur, keys[..|keys| - 1], d) + (if Changed(prev, cur, key) then [DeviceEvent(d, key, pressed, cur), RawKeyEvent(key, pressed)] else [])
  }

  function WheelEvents(prev: InputState, cur: InputState): seq<GuiEvent> {
    if cur.Mouse.ScrollWheelValue != prev.Mouse.ScrollWheelValue then
      [MouseWheelEvent(cur.Mouse.ScrollWheelValue - prev.Mouse.ScrollWheelValue, cur.Mouse)]
    else []
  }

  function MoveEvents(prev: InputState, cur: InputState): seq<GuiEvent> {
    if cur.Mouse.X != prev.Mouse.X || cur.Mouse.Y != prev.Mouse.Y then [MouseMoveEvent(cur.Mouse)] else []
  }

  /** All events of one `Update`, in the order they are raised. */
  function Events(prev: InputState, cur: InputState, keyboardKeys: seq<RawKey>, padKeys: seq<RawKey>, mouseKeys: seq<RawKey>): seq<GuiEvent> {
    KeyEvents(prev, cur, keyboardKeys, Keyboard) + KeyEvents(prev, cur, padKeys, Pad) + KeyEvents(prev, cur, mouseKeys, Mouse)
      + WheelEvents(prev, cur) + MoveEvents(prev, cur)
  }

  /** A key list yields a device event and a raw-key event for a key
      exactly when the key is listed and its state changed, and `pressed`
      says whether it is now down. */
  lemma {:induction false} KeyEventsIffChanged(prev: InputState, cur: InputState, keys: seq<RawKey>, d: Device, key: RawKey, pressed: bool)
    ensures DeviceEvent(d, key, pressed, cur) in KeyEvents(prev, cur, keys, d)
            <==> key in keys && Changed(prev, cur, key) && pressed == (key in cur.Down)
    ensures RawKeyEvent(key, pressed) in KeyEvents(prev, cur, keys, d)
            <==> key in keys && Changed(prev, cur, key) && pressed == (key in cur.Down)
  {
    if keys != [] {
      KeyEventsIffChanged(prev, cur, keys[..|keys| - 1], d, key, pressed);
      assert keys == keys[..|keys| - 1] + [keys[|keys| - 1]];
    }
  }

  /** A key list raises only events of its own device and raw-key events. */
  lemma {:induction false} KeyEventsKinds(prev: InputState, cur: InputState, keys: seq<RawKey>, d: Device)
    ensures forall e :: e in KeyEvents(prev, cur, keys, d) ==> e.RawKeyEvent? || e.KeyboardEvent? || e.JoyPadEvent? || e.MouseButtonEvent?
  {
    if keys != [] {
      KeyEventsKinds(prev, cur, keys[..|keys| - 1], d);
    }
  }

  /** The wheel event fires exactly when the wheel moved and carries the
      difference; the move event fires exactly when the mouse moved. */
  lemma MouseEvents(prev: InputState, cur: InputState, keyboardKeys: seq<RawKey>, padKeys: seq<RawKey>, mouseKeys: seq<RawKey>, delta: int, m: MouseState)
    ensures MouseWheelEvent(delta, m) in Events(prev, cur, keyboardKeys, padKeys, mouseKeys)
            <==> cur.Mouse.ScrollWheelValue != prev.Mouse.ScrollWheelValue && delta == cur.Mouse.ScrollWheelValue - prev.Mouse.ScrollWheelValue && m == cur.Mouse
    ensures MouseMoveEvent(m) in Events(prev, cur, keyboardKeys, padKeys, mouseKeys)
            <==> (cur.Mouse.X != prev.Mouse.X || cur.Mouse.Y != prev.Mouse.Y) && m == cur.Mouse
  {
    KeyEventsKinds(prev, cur, keyboardKeys, Keyboard);
    KeyEventsKinds(prev, cur, padKeys, Pad);
    KeyEventsKinds(prev, cur, mouseKeys, Mouse);
  }

  /** Identical snapshots raise no event at all. */
  lemma {:induction false} NoChangeNoEvents(s: InputState, keys: seq<RawKey>, d: Device)
    ensures KeyEvents(s, s, keys, d) == []
  {
    if keys != [] {
      NoChangeNoEvents(s, keys[..|keys| - 1], d);
    }
  }

  /** The keyboard scenario of the input tests: B, A and C go down, then
      only C and D are down. The second snapshot raises a press of D and
      releases of A and B, and nothing for C. */
  lemma KeyPressScenario(keyboardKeys: seq<RawKey>, m: MouseState)
    requires forall k :: 65 <= k <= 68 ==> KeyboardKey(k) in keyboardKeys
    ensures var a, b, c, d := KeyboardKey(65), KeyboardKey(66), KeyboardKey(67), KeyboardKey(68);
            var s1, s2 := InputState({b, a, c}, m), InputState({c, d}, m);
            var first := KeyEvents(Blank.(Mouse := m), s1, keyboardKeys, Keyboard);
            var second := KeyEvents(s1, s2, keyboardKeys, Keyboard);
            && KeyboardEvent(a, true, s1) in first && KeyboardEvent(b, true, s1) in first && KeyboardEvent(c, true, s1) in first
            && KeyboardEvent(d, true, s2) in second && KeyboardEvent(a, false, s2) in second && KeyboardEvent(b, false, s2) in second
            && KeyboardEvent(c, true, s2) !in second && KeyboardEvent(c, false, s2) !in second
  {
    var a, b, c, d := KeyboardKey(65), KeyboardKey(66), KeyboardKey(67), KeyboardKey(68);
    var s0, s1, s2 := Blank.(Mouse := m), InputState({b, a, c}, m), InputState({c, d}, m);
    KeyEventsIffChanged(s0, s1, keyboardKeys, Keyboard, a, true);
    KeyEventsIffChanged(s0, s1, keyboardKeys, Keyboard, b, true);
    KeyEventsIffChanged(s0, s1, keyboardKeys, Keyboard, c, true);
    KeyEventsIffChanged(s1, s2, keyboardKeys, Keyboard, d, true);
    KeyEventsIffChanged(s1, s2, keyboardKeys, Keyboard, a, false);
    KeyEventsIffChanged(s1, s2, keyboardKeys, Keyboard, b, false);
    KeyEventsIffChanged(s1, s2, keyboardKeys, Keyboard, c, true);
    KeyEventsIffChanged(s1, s2, keyboardKeys, Keyboard, c, false);
  }

  class GUIEventManager {
    /** `KeyboardKey.KeyList`, `X360PadKey.KeyList` and `MouseKey.KeyList`. */
    const KeyboardKeys: seq<RawKey>
    const PadKeys: seq<RawKey>
    const MouseKeys: seq<RawKey>
    var PreviousState: InputState
    var CurrentState: InputState

    constructor (keyboardKeys: seq<RawKey>, padKeys: seq<RawKey>, mouseKeys: seq<RawKey>)
      ensures KeyboardKeys == keyboardKeys && PadKeys == padKeys && MouseKeys == mouseKeys
      ensures PreviousState == Blank && CurrentState == Blank
    {
      KeyboardKeys, PadKeys, MouseKeys := keyboardKeys, padKeys, mouseKeys;
      PreviousState, CurrentState := Blank, Blank;
    }

    method Flush()
      modifies this`PreviousState
      ensures PreviousState == Blank
    {
      PreviousState := Blank;
    }

    /** `Update(state)`: the events compare the new snapshot with the last
        one, so a `Flush` in between changes nothing. */
    method Update(state: InputState) returns (events: seq<GuiEvent>)
      modifies this`PreviousState, this`CurrentState
      ensures PreviousState == old(CurrentState) && CurrentState == state
      ensures events == Events(old(CurrentState), state, KeyboardKeys, PadKeys, MouseKeys)
    {
      PreviousState := CurrentState;
      CurrentState := state;
      var keyboard := RaiseKeyEvents(KeyboardKeys, Keyboard);
      var pads := RaiseKeyEvents(PadKeys, Pad);
      var mice := RaiseKeyEvents(MouseKeys, Mouse);
      events := keyboard + pads + mice;
      if CurrentState.Mouse.ScrollWheelValue != PreviousState.Mouse.ScrollWheelValue {
        events := events + [MouseWheelEvent(CurrentState.Mouse.ScrollWheelValue - PreviousState.Mouse.ScrollWheelValue, CurrentState.Mouse)];
      }
      if CurrentState.Mouse.X != PreviousState.Mouse.X || CurrentState.Mouse.Y != PreviousState.Mouse.Y {
        events := events + [MouseMoveEvent(CurrentState.Mouse)];
      }
    }

    method RaiseKeyEvents(keys: seq<RawKey>, d: Device) returns (events: seq<GuiEvent>)
      ensures events == KeyEvents(PreviousState, CurrentState, keys, d)
    {
      events := [];
      for i := 0 to |keys|
        invariant events == KeyEvents(PreviousState, CurrentState, keys[..i], d)
      {
        var key := keys[i];
        assert keys[..i + 1][..i] == keys[..i];
        if GetButtonState(CurrentState, key) != GetButtonState(PreviousState, key) {
          var pressed := GetButtonState(CurrentState, key) == Pressed;
          events := events + [DeviceEvent(d, key, pressed, CurrentState), RawKeyEvent(key, pressed)];
        }
      }
      assert keys[..|keys|] == keys;
    }
  }
}
