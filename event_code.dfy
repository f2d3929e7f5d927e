/** `EventCode`, `InputPlayerIndex` and the `EventKey` pair of them. */
module EventCodes {
  import opened Wrappers

  datatype EventCode = NoEvent | Left | Right | Jump

  datatype InputPlayerIndex = One | Two | Neither

  /** The number of names of `EventCode`. */
  const NumEventCodes := 4

  function CodeOrdinal(c: EventCode): (n: int)
    ensures 0 <= n < NumEventCodes
  {
    match c
    case NoEvent => 0
    case Left => 1
    case Right => 2
    case Jump => 3
  }

  function PlayerOrdinal(p: InputPlayerIndex): (n: int)
    ensures 0 <= n < 3
  {
    match p
    case One => 0
    case Two => 1
    case Neither => 2
  }

  datatype EventKey = EventKey(Code: EventCode, Player: InputPlayerIndex)

  /** `new EventKey(code)`: for neither player. */
  function ForCode(code: EventCode): (r: EventKey)
    ensures r.Code == code && r.Player == Neither
  {
    EventKey(code, Neither)
  }

  /** What `Equals(object)` may be handed: an `EventKey`, some other object,
      or null. */
  datatype Object = AnEventKey(key: EventKey) | OtherObject | Null

  /** `Equals(EventKey other)`, with `None` for null. */
  predicate EqualsKey(k: EventKey, other: Option<EventKey>) {
    other.Some? && k.Code == other.value.Code && k.Player == other.value.Player
  }

  /** `obj as EventKey`. */
  function AsEventKey(obj: Object): Option<EventKey> {
    if obj.AnEventKey? then Some(obj.key) else None
  }

  /** `Equals(object obj)`. */
  predicate EqualsObject(k: EventKey, obj: Object) {
    EqualsKey(k, AsEventKey(obj))
  }

  /** Equality is on both fields, is false for null and for any other kind of
      object, and the object overload agrees with the typed one. */
  lemma EqualsMeansSameKey(k: EventKey, other: EventKey, obj: Object)
    ensures EqualsKey(k, Some(other)) <==> k == other
    ensures !EqualsKey(k, None)
    ensures EqualsObject(k, obj) <==> obj == AnEventKey(k)
    ensures EqualsObject(k, AnEventKey(other)) == EqualsKey(k, Some(other))
  {
  }

  /** `GetHashCode`: the player's ordinal times the number of codes, plus the
      code's ordinal. */
  function HashCode(k: EventKey): int {
    PlayerOrdinal(k.Player) * NumEventCodes + CodeOrdinal(k.Code)
  }

  /** Equal keys hash equally and distinct keys hash distinctly. */
  lemma HashCodeInjective(a: EventKey, b: EventKey)
    ensures HashCode(a) == HashCode(b) <==> a == b
  {
    if HashCode(a) == HashCode(b) {
      var d := PlayerOrdinal(a.Player) - PlayerOrdinal(b.Player);
      assert d * NumEventCodes == CodeOrdinal(b.Code) - CodeOrdinal(a.Code);
      assert d == 0;
      assert CodeOrdinal(a.Code) == CodeOrdinal(b.Code);
    }
  }
}
