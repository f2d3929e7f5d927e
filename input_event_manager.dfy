/** `InputEventManager`: routes the events of per-code generators to the
    listeners registered for the same codes. */
module InputEventManagers {
  import opened Wrappers
  import opened InputStates
  import opened InputEventGenerators
  import opened EventCodes

  /** A listener, by identity. */
  type Listener = nat

  /** One `InputEvent(code, data)` call on a listener. */
  datatype Call = Call(Listener: Listener, Code: EventKey, Data: HoldEventData)

  /** The call `RunInput` makes for a code, given the listeners, the keys the
      generators listen to and their states before the run: a call exactly
      when the code has a listener and its generator reports a change. */
  ghost predicate Fired(call: Call, listeners: map<EventKey, Listener>, keys: map<EventKey, RawKey>,
                        before: map<EventKey, ButtonState>, input: InputState)
  {
    && call.Code in keys && call.Code in listeners && call.Code in before
    && call.Listener == listeners[call.Code]
    && Step(before[call.Code], GetButtonState(input, keys[call.Code])).1 == Some(call.Data)
  }

  class InputEventManager {
    var Listeners: map<EventKey, Listener>
    var Generators: map<EventKey, HoldEventGenerator>

    constructor ()
      ensures Listeners == map[] && Generators == map[]
    {
      Listeners := map[];
      Generators := map[];
    }

    /** No generator object is registered under two codes, so the order in
        which the dictionary is walked does not matter. */
    predicate DistinctGenerators()
      reads this
    {
      forall c1, c2 :: c1 in Generators && c2 in Generators && c1 != c2 ==> Generators[c1] != Generators[c2]
    }

    method SetInputGenerator(code: EventKey, generator: HoldEventGenerator)
      modifies this`Generators
      ensures Generators == old(Generators)[code := generator]
    {
      Generators := Generators[code := generator];
    }

    method ClearInputGenerator(code: EventKey)
      modifies this`Generators
      ensures Generators == old(Generators) - {code}
    {
      if code in Generators {
        Generators := Generators - {code};
      }
    }

    method SetInputEventListener(code: EventKey, listener: Listener)
      modifies this`Listeners
      ensures Listeners == old(Listeners)[code := listener]
    {
      Listeners := Listeners[code := listener];
    }

    method ClearInputEventListener(code: EventKey)
      modifies this`Listeners
      ensures Listeners == old(Listeners) - {code}
    {
      if code in Listeners {
        Listeners := Listeners - {code};
      }
    }

    /** `RemoveInputEventListener(listener)`: every code mapped to the
        listener loses its mapping; the other mappings stay. */
    method RemoveInputEventListener(listener: Listener)
      modifies this`Listeners
      ensures forall c :: c in Listeners <==> c in old(Listeners) && old(Listeners)[c] != listener
      ensures forall c :: c in Listeners ==> Listeners[c] == old(Listeners)[c]
    {
      var snapshot := Listeners;
      var pending := Listeners.Keys;
      while pending != {}
        invariant snapshot == old(Listeners) && pending <= snapshot.Keys
        invariant forall c :: c in Listeners <==> c in old(Listeners) && (c in pending || old(Listeners)[c] != listener)
        invariant forall c :: c in Listeners ==> Listeners[c] == old(Listeners)[c]
        decreases |pending|
      {
        var code :| code in pending;
        if snapshot[code] == listener {
          Listeners := Listeners - {code};
        }
        pending := pending - {code};
      }
    }

    ghost function States(): map<EventKey, ButtonState>
      reads this, Generators.Values
    {
      map c | c in Generators :: Generators[c].State
    }

    ghost function ListenKeys(): map<EventKey, RawKey>
      reads this, Generators.Values
    {
      map c | c in Generators :: Generators[c].ListenKey
    }

    /** `RunInput(input)`: only generators whose code has a listener are
        updated, and each listener hears of each change of its generator
        exactly once. */
    method RunInput(input: InputState) returns (calls: seq<Call>)
      requires DistinctGenerators()
      modifies Generators.Values`State
      ensures forall c :: c in Generators && c in Listeners ==>
                Generators[c].State == Step(old(States())[c], GetButtonState(input, Generators[c].ListenKey)).0
      ensures forall c :: c in Generators && c !in Listeners ==> Generators[c].State == old(Generators[c].State)
      ensures forall call :: call in calls <==> Fired(call, Listeners, old(ListenKeys()), old(States()), input)
      ensures forall i, j :: 0 <= i < j < |calls| ==> calls[i].Code != calls[j].Code
    {
      ghost var before := States();
      ghost var keys := ListenKeys();
      calls := [];
      var pending := Generators.Keys;
      while pending != {}
        invariant pending <= Generators.Keys
        invariant forall c :: c in Generators && c !in pending && c in Listeners ==>
                    Generators[c].State == Step(before[c], GetButtonState(input, Generators[c].ListenKey)).0
        invariant forall c :: c in Generators && (c in pending || c !in Listeners) ==> Generators[c].State == before[c]
        invariant forall call :: call in calls <==> call.Code !in pending && Fired(call, Listeners, keys, before, input)
        invariant forall i, j :: 0 <= i < j < |calls| ==> calls[i].Code != calls[j].Code
        decreases |pending|
      {
        var code :| code in pending;
        if code in Listeners {
          var data := Generators[code].Update(input);
          assert (Generators[code].State, data) == Step(before[code], GetButtonState(input, keys[code]));
          if data.Some? {
            calls := calls + [Call(Listeners[code], code, data.value)];
          }
        }
        pending := pending - {code};
      }
    }
  }
}
