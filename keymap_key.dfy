/** `KeymapKey`: a key together with the modifiers held with it. */
module KeymapKeys {
  import opened XnaKeys
  import opened KeyModifiers

  datatype KeymapKey = KeymapKey(Modifiers: Modifiers, Key: Key)

  /** `new KeymapKey(key)`: no modifiers. */
  function Unmodified(key: Key): (r: KeymapKey)
    ensures r.Key == key && r.Modifiers == NoModifiers
  {
    KeymapKey(0x00, key)
  }

  /** `Equals`: both fields agree. */
  predicate Equals(a: KeymapKey, b: KeymapKey) {
    a.Modifiers == b.Modifiers && a.Key == b.Key
  }

  /** `GetHashCode`: the modifier byte plus 256 times the key code. */
  function HashCode(k: KeymapKey): int {
    k.Modifiers as int + k.Key * 256
  }

  /** `Equals` is value equality, so it is an equivalence and agrees with
      the hash. */
  lemma EqualsIsEquality(a: KeymapKey, b: KeymapKey)
    ensures Equals(a, b) <==> a == b
    ensures Equals(a, b) ==> HashCode(a) == HashCode(b)
  {
  }

  /** Since the modifiers fit in a byte, distinct keys hash distinctly. */
  lemma HashCodeInjective(a: KeymapKey, b: KeymapKey)
    requires HashCode(a) == HashCode(b)
    ensures a == b
  {
    ByteAndKey(a.Modifiers as int, a.Key, b.Modifiers as int, b.Key);
  }

  lemma ByteAndKey(m1: int, k1: int, m2: int, k2: int)
    requires 0 <= m1 < 256 && 0 <= m2 < 256 && m1 + k1 * 256 == m2 + k2 * 256
    ensures m1 == m2 && k1 == k2
  {
  }
}
