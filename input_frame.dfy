/** `InputFrame`: one bit per button of an enumeration, held in a bit array.
    Buttons are their enumeration ordinals `0 .. NumButtons - 1`. */
module InputFrames {

  /** The bits after setting each listed button in turn, starting from all
      released. */
  function FrameOf(numButtons: nat, buttons: seq<int>): (keys: seq<bool>)
    requires forall i :: 0 <= i < |buttons| ==> 0 <= buttons[i] < numButtons
    ensures |keys| == numButtons
    ensures forall b :: 0 <= b < numButtons ==> (keys[b] <==> b in buttons)
  {
    if buttons == [] then seq(numButtons, b => false)
    else
      var keys := FrameOf(numButtons, buttons[..|buttons| - 1]);
      keys[buttons[|buttons| - 1] := true]
  }

  /** Order and repetition of the listed buttons do not matter. */
  lemma FrameOfDependsOnlyOnMembers(numButtons: nat, xs: seq<int>, ys: seq<int>)
    requires forall i :: 0 <= i < |xs| ==> 0 <= xs[i] < numButtons
    requires forall i :: 0 <= i < |ys| ==> 0 <= ys[i] < numButtons
    requires forall b :: b in xs <==> b in ys
    ensures FrameOf(numButtons, xs) == FrameOf(numButtons, ys)
  {
    var fx := FrameOf(numButtons, xs);
    var fy := FrameOf(numButtons, ys);
    assert forall b :: 0 <= b < numButtons ==> fx[b] == fy[b];
  }

  class InputFrame {
    const NumButtons: nat
    const keys: array<bool>

    ghost predicate Valid()
      reads this
    {
      keys.Length == NumButtons
    }

    /** `new InputFrame(buttons)`: exactly the listed buttons are down. */
    constructor (numButtons: nat, buttons: seq<int>)
      requires forall i :: 0 <= i < |buttons| ==> 0 <= buttons[i] < numButtons
      ensures Valid() && NumButtons == numButtons && fresh(keys)
      ensures keys[..] == FrameOf(numButtons, buttons)
    {
      NumButtons := numButtons;
      var bits := new bool[numButtons](_ => false);
      for k := 0 to |buttons|
        invariant bits[..] == FrameOf(numButtons, buttons[..k])
      {
        assert buttons[..k + 1][..k] == buttons[..k];
        bits[buttons[k]] := true;
      }
      assert buttons[..|buttons|] == buttons;
      keys := bits;
    }

    method SetState(b: int, val: bool)
      requires Valid() && 0 <= b < NumButtons
      modifies keys
      ensures keys[..] == old(keys[..])[b := val]
    {
      keys[b] := val;
    }

    function IsDown(b: int): bool
      requires Valid() && 0 <= b < NumButtons
      reads this, keys
    {
      keys[b]
    }
  }
}
