/** `ConsoleKeyReader`: turns keyboard states into one typed key at a time,
    with an initial delay and then a faster repeat while a key is held. */
module ConsoleKeyReaders {
  import opened XnaKeys
  import KeyModifiers

  /** `Keys.None`. */
  const NoKey: Key := 0

  const DefaultInitialKeyRepeat: nat := 25
  const DefaultHeldKeyRepeat: nat := 2

  /** `a.Except(b)`: the distinct keys of `a` that are not in `b`, in order
      of first occurrence. */
  function Except(a: seq<Key>, b: seq<Key>): (r: seq<Key>)
    ensures forall k :: k in r <==> k in a && k !in b
    ensures forall i, j :: 0 <= i < j < |r| ==> r[i] != r[j]
  {
    if a == [] then []
    else
      var init := Except(a[..|a| - 1], b);
      var last := a[|a| - 1];
      assert forall k :: k in a <==> k in a[..|a| - 1] || k == last;
      if last in b || last in init then init else init + [last]
  }

  /** Keys that were already down are never new. */
  lemma {:induction false} ExceptCovered(a: seq<Key>, b: seq<Key>)
    requires forall i :: 0 <= i < |a| ==> a[i] in b
    ensures Except(a, b) == []
  {
    if a != [] {
      ExceptCovered(a[..|a| - 1], b);
    }
  }

  lemma ExceptSelf(a: seq<Key>)
    ensures Except(a, a) == []
  {
    ExceptCovered(a, a);
  }

  /** The reader's fields: the keys pressed at the last update, the focus
      key, how long it has been held since it last fired, and whether it is
      still waiting for its first repeat. */
  datatype ReaderState = ReaderState(LastState: seq<Key>, FocusKey: Key, FocusKeyHeldTime: nat, InitialPress: bool)

  /** `SetFocusKey(key)`. */
  function Focus(s: ReaderState, key: Key): ReaderState {
    s.(FocusKey := key, FocusKeyHeldTime := 0, InitialPress := true)
  }

  /** `Update(keys)` on the fields, for the given repeat delays. */
  function Next(s: ReaderState, initialKeyRepeat: nat, heldKeyRepeat: nat, pressed: seq<Key>): ReaderState {
    var diff := Except(pressed, s.LastState);
    var t :=
      if |diff| == 0 && s.FocusKey in pressed then
        var held := s.FocusKeyHeldTime + 1;
        if (s.InitialPress && held >= initialKeyRepeat) || (!s.InitialPress && held >= heldKeyRepeat) then
          s.(FocusKeyHeldTime := 0, InitialPress := false)
        else s.(FocusKeyHeldTime := held)
      else if |diff| == 1 then Focus(s, diff[0])
      else Focus(s, NoKey);
    t.(LastState := pressed)
  }

  /** `GetCurrentKey()`: the focus key on the updates where it fires. */
  function CurrentKey(s: ReaderState): Key {
    if s.FocusKeyHeldTime == 0 then s.FocusKey else NoKey
  }

  /** A single newly pressed key takes the focus and fires at once; a release
      of the focus key together with no new key, or two or more new keys at
      once, drop the focus. */
  lemma NewKeyTakesFocus(s: ReaderState, initialKeyRepeat: nat, heldKeyRepeat: nat, pressed: seq<Key>, k: Key)
    requires Except(pressed, s.LastState) == [k]
    ensures var t := Next(s, initialKeyRepeat, heldKeyRepeat, pressed);
            t.FocusKey == k && t.FocusKeyHeldTime == 0 && t.InitialPress && CurrentKey(t) == k && t.LastState == pressed
  {
  }

  lemma FocusDropped(s: ReaderState, initialKeyRepeat: nat, heldKeyRepeat: nat, pressed: seq<Key>)
    requires var diff := Except(pressed, s.LastState);
             (|diff| == 0 && s.FocusKey !in pressed) || |diff| >= 2
    ensures var t := Next(s, initialKeyRepeat, heldKeyRepeat, pressed);
            t.FocusKey == NoKey && CurrentKey(t) == NoKey
  {
  }

  /** `n` updates with the same keys. */
  function Hold(s: ReaderState, initialKeyRepeat: nat, heldKeyRepeat: nat, pressed: seq<Key>, n: nat): ReaderState {
    Iterate((t: ReaderState) => Next(t, initialKeyRepeat, heldKeyRepeat, pressed), s, n)
  }

  /** The last of `n` updates is one `Next` step. */
  lemma HoldStep(s: ReaderState, initialKeyRepeat: nat, heldKeyRepeat: nat, pressed: seq<Key>, n: nat)
    requires n > 0
    ensures Hold(s, initialKeyRepeat, heldKeyRepeat, pressed, n)
         == Next(Hold(s, initialKeyRepeat, heldKeyRepeat, pressed, n - 1), initialKeyRepeat, heldKeyRepeat, pressed)
  {
  }

  /** `n` applications of `step`. */
  function Iterate(step: ReaderState -> ReaderState, s: ReaderState, n: nat): ReaderState {
    if n == 0 then s else step(Iterate(step, s, n - 1))
  }

  /** After a fresh press the focus key stays silent for `initialKeyRepeat -
      1` updates and fires again on the `initialKeyRepeat`-th, after which
      the faster repeat applies. */
  lemma {:induction false} InitialDelay(s: ReaderState, initialKeyRepeat: nat, heldKeyRepeat: nat, n: nat)
    requires s.FocusKey in s.LastState && s.FocusKeyHeldTime == 0 && s.InitialPress
    requires 1 <= n <= initialKeyRepeat
    ensures var t := Hold(s, initialKeyRepeat, heldKeyRepeat, s.LastState, n);
            t.FocusKey == s.FocusKey && t.LastState == s.LastState &&
            (n < initialKeyRepeat ==> t.FocusKeyHeldTime == n && t.InitialPress && CurrentKey(t) == NoKey) &&
            (n == initialKeyRepeat ==> t.FocusKeyHeldTime == 0 && !t.InitialPress && CurrentKey(t) == s.FocusKey)
  {
    if n > 1 {
      InitialDelay(s, initialKeyRepeat, heldKeyRepeat, n - 1);
    }
    HoldStep(s, initialKeyRepeat, heldKeyRepeat, s.LastState, n);
    ExceptSelf(s.LastState);
  }

  /** Once repeating, the focus key fires every `heldKeyRepeat` updates:
      silent in between, and back in the same state at the end of each
      period. */
  lemma {:induction false} HeldRepeat(s: ReaderState, initialKeyRepeat: nat, heldKeyRepeat: nat, n: nat)
    requires s.FocusKey in s.LastState && s.FocusKeyHeldTime == 0 && !s.InitialPress
    requires 1 <= n <= heldKeyRepeat
    ensures var t := Hold(s, initialKeyRepeat, heldKeyRepeat, s.LastState, n);
            (n < heldKeyRepeat ==> t == s.(FocusKeyHeldTime := n) && CurrentKey(t) == NoKey) &&
            (n == heldKeyRepeat ==> t == s)
  {
    if n > 1 {
      HeldRepeat(s, initialKeyRepeat, heldKeyRepeat, n - 1);
    }
    HoldStep(s, initialKeyRepeat, heldKeyRepeat, s.LastState, n);
    ExceptSelf(s.LastState);
  }

  /** `m + n` updates are `m` updates and then `n` more. */
  lemma {:induction false} HoldAdd(s: ReaderState, initialKeyRepeat: nat, heldKeyRepeat: nat, pressed: seq<Key>, m: nat, n: nat)
    ensures Hold(s, initialKeyRepeat, heldKeyRepeat, pressed, m + n)
         == Hold(Hold(s, initialKeyRepeat, heldKeyRepeat, pressed, m), initialKeyRepeat, heldKeyRepeat, pressed, n)
  {
    IterateAdd((t: ReaderState) => Next(t, initialKeyRepeat, heldKeyRepeat, pressed), s, m, n);
  }

  lemma {:induction false} IterateAdd(step: ReaderState -> ReaderState, s: ReaderState, m: nat, n: nat)
    ensures Iterate(step, s, m + n) == Iterate(step, Iterate(step, s, m), n)
  {
    if n > 0 {
      IterateAdd(step, s, m, n - 1);
    }
  }

  /** The repeating key fires on every multiple of `heldKeyRepeat`. */
  lemma {:induction false} HeldRepeatPeriodic(s: ReaderState, initialKeyRepeat: nat, heldKeyRepeat: nat, j: nat)
    requires s.FocusKey in s.LastState && s.FocusKeyHeldTime == 0 && !s.InitialPress
    requires heldKeyRepeat >= 1
    ensures Hold(s, initialKeyRepeat, heldKeyRepeat, s.LastState, j * heldKeyRepeat) == s
    ensures CurrentKey(Hold(s, initialKeyRepeat, heldKeyRepeat, s.LastState, j * heldKeyRepeat)) == s.FocusKey
  {
    if j > 0 {
      HeldRepeatPeriodic(s, initialKeyRepeat, heldKeyRepeat, j - 1);
      assert j * heldKeyRepeat == (j - 1) * heldKeyRepeat + heldKeyRepeat;
      HoldAdd(s, initialKeyRepeat, heldKeyRepeat, s.LastState, (j - 1) * heldKeyRepeat, heldKeyRepeat);
      HeldRepeat(s, initialKeyRepeat, heldKeyRepeat, heldKeyRepeat);
    }
  }

  class ConsoleKeyReader {
    var InitialKeyRepeat: nat
    var HeldKeyRepeat: nat
    var lastState: seq<Key>
    var focusKey: Key
    var focusKeyHeldTime: nat
    var initialPress: bool

    function State(): ReaderState
      reads this
    {
      ReaderState(lastState, focusKey, focusKeyHeldTime, initialPress)
    }

    constructor ()
      ensures InitialKeyRepeat == DefaultInitialKeyRepeat && HeldKeyRepeat == DefaultHeldKeyRepeat
      ensures State() == ReaderState([], NoKey, 0, false)
    {
      InitialKeyRepeat := DefaultInitialKeyRepeat;
      HeldKeyRepeat := DefaultHeldKeyRepeat;
      lastState := [];
      focusKey := NoKey;
      focusKeyHeldTime := 0;
      initialPress := false;
    }

    /** `Update(keys)`, with the keyboard state as its pressed keys. */
    method Update(keys: seq<Key>)
      modifies this`lastState, this`focusKey, this`focusKeyHeldTime, this`initialPress
      ensures State() == Next(old(State()), InitialKeyRepeat, HeldKeyRepeat, keys)
    {
      var pressedKeys := keys;
      var mods := KeyModifiers.GetModifiers(pressedKeys);
      var diff := Except(pressedKeys, lastState);
      if |diff| == 0 && focusKey in pressedKeys {
        focusKeyHeldTime := focusKeyHeldTime + 1;
        if (initialPress && focusKeyHeldTime >= InitialKeyRepeat) || (!initialPress && focusKeyHeldTime >= HeldKeyRepeat) {
          focusKeyHeldTime := 0;
          initialPress := false;
        }
      } else if |diff| == 1 {
        SetFocusKey(diff[0]);
      } else {
        SetFocusKey(NoKey);
      }
      lastState := keys;
    }

    method GetCurrentKey() returns (k: Key)
      ensures k == CurrentKey(State())
    {
      k := if focusKeyHeldTime == 0 then focusKey else NoKey;
    }

    method IsInitialPress() returns (b: bool)
      ensures b == initialPress
    {
      b := initialPress;
    }

    /** `GetModifiers()`: the modifiers held at the last update. */
    method GetModifiers() returns (mods: KeyModifiers.Modifiers)
      ensures mods == KeyModifiers.ModifiersOf(lastState)
    {
      mods := KeyModifiers.GetModifiers(lastState);
    }

    method SetFocusKey(key: Key)
      modifies this`focusKey, this`focusKeyHeldTime, this`initialPress
      ensures State() == Focus(old(State()), key)
    {
      focusKey := key;
      focusKeyHeldTime := 0;
      initialPress := true;
    }
  }
}
