/** `KeyModifiers`: a byte of flags folded from the keys held down. */
module KeyModifiers {
  import opened XnaKeys

  type Modifiers = bv8

  const NoModifiers: Modifiers := 0x00
  const Shift: Modifiers := 0x01
  const Ctrl: Modifiers := 0x02
  const Alt: Modifiers := 0x04

  /** The modifiers of a set of held keys, by membership alone. */
  function ModifiersOf(keys: seq<Key>): Modifiers {
    (if LeftShift in keys || RightShift in keys then Shift else NoModifiers) |
    (if LeftControl in keys || RightControl in keys then Ctrl else NoModifiers) |
    (if LeftAlt in keys || RightAlt in keys then Alt else NoModifiers)
  }

  /** Each flag is set exactly when one of its two keys is held, and no other
      bit is ever set. */
  lemma ModifiersOfFlags(keys: seq<Key>)
    ensures ModifiersOf(keys) & Shift != 0 <==> LeftShift in keys || RightShift in keys
    ensures ModifiersOf(keys) & Ctrl != 0 <==> LeftControl in keys || RightControl in keys
    ensures ModifiersOf(keys) & Alt != 0 <==> LeftAlt in keys || RightAlt in keys
    ensures ModifiersOf(keys) & 0xF8 == 0
    ensures ModifiersOf([]) == NoModifiers
  {
  }

  /** Order and repetition of the held keys do not matter. */
  lemma ModifiersOfDependsOnlyOnMembers(xs: seq<Key>, ys: seq<Key>)
    requires forall k :: k in xs <==> k in ys
    ensures ModifiersOf(xs) == ModifiersOf(ys)
  {
  }

  /** `KeyModifiersMethods.GetModifiers(keys)`. */
  method GetModifiers(keys: seq<Key>) returns (result: Modifiers)
    ensures result == ModifiersOf(keys)
  {
    result := NoModifiers;
    for i := 0 to |keys|
      invariant result == ModifiersOf(keys[..i])
    {
      var k := keys[i];
      assert forall x :: x in keys[..i + 1] <==> x in keys[..i] || x == k;
      if k == LeftShift || k == RightShift {
        result := result | Shift;
      } else if k == LeftControl || k == RightControl {
        result := result | Ctrl;
      } else if k == LeftAlt || k == RightAlt {
        result := result | Alt;
      }
    }
    assert keys[..|keys|] == keys;
  }
}
