/** `HoldEventGenerator`: reports each change of one raw key's button
    state. */
module InputEventGenerators {
  import opened Wrappers
  import opened InputStates

  /** `HoldEventData`: the state the key changed to. */
  datatype HoldEventData = HoldEventData(State: ButtonState)

  /** One `Update` on the generator's state: the state toggles when the
      observed state differs, and the toggle is reported. */
  function Step(state: ButtonState, observed: ButtonState): (ButtonState, Option<HoldEventData>) {
    if observed != state then
      if state == Pressed then (Released, Some(HoldEventData(Released)))
      else (Pressed, Some(HoldEventData(Pressed)))
    else (state, None)
  }

  /** After a step the state is the observed one, an event is reported
      exactly when it changed, and the event carries the new state. */
  lemma StepFollowsInput(state: ButtonState, observed: ButtonState)
    ensures Step(state, observed).0 == observed
    ensures Step(state, observed).1.None? <==> observed == state
    ensures Step(state, observed).1.Some? ==> Step(state, observed).1.value.State == observed
  {
  }

  /** The same observation twice reports nothing the second time. */
  lemma StepTwiceIsQuiet(state: ButtonState, observed: ButtonState)
    ensures Step(Step(state, observed).0, observed).1 == None
  {
  }

  class HoldEventGenerator {
    var ListenKey: RawKey
    var State: ButtonState

    constructor (key: RawKey)
      ensures ListenKey == key && State == Released
    {
      ListenKey := key;
      State := Released;
    }

    /** `Update(state)`: `None` stands for the null result. */
    method Update(input: InputState) returns (data: Option<HoldEventData>)
      modifies this`State
      ensures (State, data) == Step(old(State), GetButtonState(input, ListenKey))
    {
      data := None;
      if GetButtonState(input, ListenKey) != State {
        if State == Pressed {
          State := Released;
          data := Some(HoldEventData(State));
        } else {
          State := Pressed;
          data := Some(HoldEventData(State));
        }
      }
    }

    method SetListenKey(key: RawKey)
      modifies this`ListenKey
      ensures ListenKey == key
    {
      ListenKey := key;
    }
  }

  /** Two updates with the same input: the second reports nothing. */
  method UpdateTwice(key: RawKey, input: InputState) returns (first: Option<HoldEventData>, second: Option<HoldEventData>)
    ensures first.Some? <==> key in input.Down
    ensures first.Some? ==> first.value.State == Pressed
    ensures second.None?
  {
    var g := new HoldEventGenerator(key);
    first := g.Update(input);
    StepFollowsInput(Released, GetButtonState(input, key));
    second := g.Update(input);
    StepTwiceIsQuiet(Released, GetButtonState(input, key));
  }
}
