/** The device state the input managers observe: which raw keys are down
    and where the mouse is. */
module InputStates {
  import opened XnaKeys

  /** A keyboard key, a game-pad button of one controller, or a mouse
      button. */
  datatype RawKey = KeyboardKey(Key: Key) | X360PadKey(Controller: nat, Button: nat) | MouseKey(Button: nat)

  datatype ButtonState = Released | Pressed

  datatype MouseState = MouseState(X: int, Y: int, ScrollWheelValue: int)

  /** One snapshot of all devices, as the finite set of raw keys that are
      down. */
  datatype InputState = InputState(Down: set<RawKey>, Mouse: MouseState)

  /** `new InputState()`: nothing down, the mouse at rest at the origin. */
  const Blank := InputState({}, MouseState(0, 0, 0))

  function GetButtonState(s: InputState, key: RawKey): (r: ButtonState)
    ensures r == Pressed <==> key in s.Down
  {
    if key in s.Down then Pressed else Released
  }
}
