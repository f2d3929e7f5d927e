/** `KeyMap`: characters typed by modifier-and-key combinations, and the
    reverse lookup from a character to the combination that types it. */
module KeyMaps {
  import opened XnaKeys
  import opened KeyModifiers
  import opened KeymapKeys
  import opened Wrappers

  /** Keys kept out of the reverse lookup: those whose name contains
      "NumPad", and the keypad operators that duplicate main-keyboard
      characters. */
  predicate Excluded(key: Key) {
    (NumPad0 <= key <= NumPad9) || key == Divide || key == Add || key == Multiply || key == Subtract || key == Decimal
  }

  /** No character is typed by two different combinations that the reverse
      lookup keeps, so the lookup does not depend on iteration order. */
  ghost predicate Unambiguous(values: map<KeymapKey, char>) {
    forall k1, k2 :: k1 in values && k2 in values && !Excluded(k1.Key) && !Excluded(k2.Key) && values[k1] == values[k2] ==> k1 == k2
  }

  class KeyMap {
    const Values: map<KeymapKey, char>
    const ReverseLookup: map<char, KeymapKey>

    /** Every reverse entry names a kept combination typing that character,
        and every kept combination's character has an entry. */
    ghost predicate Valid() {
      (forall c :: c in ReverseLookup ==>
         ReverseLookup[c] in Values && Values[ReverseLookup[c]] == c && !Excluded(ReverseLookup[c].Key)) &&
      (forall k :: k in Values && !Excluded(k.Key) ==> Values[k] in ReverseLookup)
    }

    /** The private constructor: keeps the table and builds the reverse
        lookup, visiting the entries in an unspecified order. */
    constructor (values: map<KeymapKey, char>)
      ensures Values == values && Valid()
    {
      Values := values;
      var reverse: map<char, KeymapKey> := map[];
      var remaining := values.Keys;
      while remaining != {}
        invariant remaining <= values.Keys
        invariant forall c :: c in reverse ==>
          reverse[c] in values && reverse[c] !in remaining && values[reverse[c]] == c && !Excluded(reverse[c].Key)
        invariant forall k :: k in values && k !in remaining && !Excluded(k.Key) ==> values[k] in reverse
        decreases remaining
      {
        var pair :| pair in remaining;
        if !Excluded(pair.Key) {
          reverse := reverse[values[pair] := pair];
        }
        remaining := remaining - {pair};
      }
      ReverseLookup := reverse;
    }

    /** `GetCharacter(modifiers, key)`: the table entry, or '\0'. */
    function GetCharacter(modifiers: Modifiers, key: Key): (c: char)
      ensures KeymapKey(modifiers, key) in Values ==> c == Values[KeymapKey(modifiers, key)]
      ensures KeymapKey(modifiers, key) !in Values ==> c == '\0'
    {
      var k := KeymapKey(modifiers, key);
      if k in Values then Values[k] else '\0'
    }

    /** `GetCharacter(key)`: no modifiers. */
    function GetUnmodifiedCharacter(key: Key): (c: char)
      ensures c == GetCharacter(NoModifiers, key)
    {
      GetCharacter(NoModifiers, key)
    }

    /** `GetKeymapKey(c)`: the reverse entry, or null. */
    function GetKeymapKey(c: char): (r: Option<KeymapKey>)
      requires Valid()
      ensures r.Some? ==> GetCharacter(r.value.Modifiers, r.value.Key) == c && !Excluded(r.value.Key)
      ensures r.None? <==> forall k :: k in Values && !Excluded(k.Key) ==> Values[k] != c
    {
      if c in ReverseLookup then Some(ReverseLookup[c]) else None
    }

    /** With an unambiguous table the reverse lookup inverts the table on
        every kept combination, whatever order the constructor visited. */
    lemma ReverseInvertsTable(k: KeymapKey)
      requires Valid() && Unambiguous(Values)
      requires k in Values && !Excluded(k.Key)
      ensures GetKeymapKey(Values[k]) == Some(k)
    {
      var c := Values[k];
      assert c in ReverseLookup;
      var k2 := ReverseLookup[c];
      assert Values[k2] == c && !Excluded(k2.Key);
    }
  }

  /** The unmodified character of each key in the US layout. */
  function Plain(key: Key): Option<char> {
    if 65 <= key <= 90 then Some(('a' as int + (key - 65)) as char)
    else if 48 <= key <= 57 then Some(('0' as int + (key - 48)) as char)
    else if 96 <= key <= 105 then Some(('0' as int + (key - 96)) as char)
    else match key
      case 111 => Some('/') case 107 => Some('+') case 109 => Some('-') case 106 => Some('*') case 110 => Some('.')
      case 189 => Some('-') case 187 => Some('=') case 192 => Some('`') case 219 => Some('[') case 221 => Some(']')
      case 188 => Some(',') case 190 => Some('.') case 191 => Some('/') case 220 => Some('\\') case 186 => Some(';')
      case 222 => Some('\'')
      case _ => None
  }

  /** The shifted character of each key in the US layout. */
  function Shifted(key: Key): Option<char> {
    if 65 <= key <= 90 then Some(('A' as int + (key - 65)) as char)
    else match key
      case 48 => Some(')') case 49 => Some('!') case 50 => Some('@') case 51 => Some('#') case 52 => Some('$')
      case 53 => Some('%') case 54 => Some('^') case 55 => Some('&') case 56 => Some('*') case 57 => Some('(')
      case 189 => Some('_') case 187 => Some('+') case 192 => Some('~') case 219 => Some('{') case 221 => Some('}')
      case 188 => Some('<') case 190 => Some('>') case 191 => Some('?') case 220 => Some('|') case 186 => Some(':')
      case 222 => Some('"')
      case _ => None
  }

  function USCharacter(k: KeymapKey): Option<char> {
    if k.Modifiers == NoModifiers then Plain(k.Key) else if k.Modifiers == Shift then Shifted(k.Key) else None
  }

  /** The table of `KeyMap.USKeyboard`: letters, digits (main row and
      keypad), keypad operators and the OEM punctuation keys, each unshifted
      and (except the keypad) shifted. */
  const USKeyboardTable: map<KeymapKey, char> :=
    var domain := (set key: int | 0 <= key < 256 && Plain(key).Some? :: KeymapKey(NoModifiers, key)) +
                  (set key: int | 0 <= key < 256 && Shifted(key).Some? :: KeymapKey(Shift, key));
    map k | k in domain :: USCharacter(k).value

  lemma USKeyboardTableEntry(k: KeymapKey)
    ensures k in USKeyboardTable <==> 0 <= k.Key < 256 && USCharacter(k).Some?
    ensures k in USKeyboardTable ==> USKeyboardTable[k] == USCharacter(k).value
  {
    if 0 <= k.Key < 256 && USCharacter(k).Some? {
      if k.Modifiers == NoModifiers {
        assert KeymapKey(NoModifiers, k.Key) == k;
      } else {
        assert KeymapKey(Shift, k.Key) == k;
      }
    }
  }

  /** The combination that types `c` in the US layout, if a kept one does. */
  function USReverse(c: char): Option<KeymapKey> {
    if 'a' <= c <= 'z' then Some(KeymapKey(NoModifiers, 65 + (c as int - 'a' as int)))
    else if 'A' <= c <= 'Z' then Some(KeymapKey(Shift, 65 + (c as int - 'A' as int)))
    else if '0' <= c <= '9' then Some(KeymapKey(NoModifiers, 48 + (c as int - '0' as int)))
    else match c
      case ')' => Some(KeymapKey(Shift, 48)) case '!' => Some(KeymapKey(Shift, 49)) case '@' => Some(KeymapKey(Shift, 50))
      case '#' => Some(KeymapKey(Shift, 51)) case '$' => Some(KeymapKey(Shift, 52)) case '%' => Some(KeymapKey(Shift, 53))
      case '^' => Some(KeymapKey(Shift, 54)) case '&' => Some(KeymapKey(Shift, 55)) case '*' => Some(KeymapKey(Shift, 56))
      case '(' => Some(KeymapKey(Shift, 57))
      case '-' => Some(KeymapKey(NoModifiers, 189)) case '_' => Some(KeymapKey(Shift, 189))
      case '=' => Some(KeymapKey(NoModifiers, 187)) case '+' => Some(KeymapKey(Shift, 187))
      case '`' => Some(KeymapKey(NoModifiers, 192)) case '~' => Some(KeymapKey(Shift, 192))
      case '[' => Some(KeymapKey(NoModifiers, 219)) case '{' => Some(KeymapKey(Shift, 219))
      case ']' => Some(KeymapKey(NoModifiers, 221)) case '}' => Some(KeymapKey(Shift, 221))
      case ',' => Some(KeymapKey(NoModifiers, 188)) case '<' => Some(KeymapKey(Shift, 188))
      case '.' => Some(KeymapKey(NoModifiers, 190)) case '>' => Some(KeymapKey(Shift, 190))
      case '/' => Some(KeymapKey(NoModifiers, 191)) case '?' => Some(KeymapKey(Shift, 191))
      case '\\' => Some(KeymapKey(NoModifiers, 220)) case '|' => Some(KeymapKey(Shift, 220))
      case ';' => Some(KeymapKey(NoModifiers, 186)) case ':' => Some(KeymapKey(Shift, 186))
      case '\'' => Some(KeymapKey(NoModifiers, 222)) case '"' => Some(KeymapKey(Shift, 222))
      case _ => None
  }

  lemma PlainReverse(key: Key)
    requires Plain(key).Some? && !Excluded(key)
    ensures USReverse(Plain(key).value) == Some(KeymapKey(NoModifiers, key))
  {
    if 65 <= key <= 90 {
    } else if 48 <= key <= 57 {
    } else {
    }
  }

  lemma ShiftedReverse(key: Key)
    requires Shifted(key).Some?
    ensures USReverse(Shifted(key).value) == Some(KeymapKey(Shift, key))
  {
    if 65 <= key <= 90 {
    } else {
    }
  }

  /** Every kept combination of the US table is the one `USReverse` names
      for its character. */
  lemma USReverseOfEntry(k: KeymapKey)
    requires k in USKeyboardTable && !Excluded(k.Key)
    ensures USReverse(USKeyboardTable[k]) == Some(k)
  {
    USKeyboardTableEntry(k);
    if k.Modifiers == NoModifiers {
      PlainReverse(k.Key);
    } else {
      ShiftedReverse(k.Key);
    }
  }

  /** In the US table each character has at most one kept source. */
  lemma USKeyboardUnambiguous()
    ensures Unambiguous(USKeyboardTable)
  {
    forall k1, k2 | k1 in USKeyboardTable && k2 in USKeyboardTable && !Excluded(k1.Key) && !Excluded(k2.Key) &&
                    USKeyboardTable[k1] == USKeyboardTable[k2]
      ensures k1 == k2
    {
      USReverseOfEntry(k1);
      USReverseOfEntry(k2);
    }
  }

  /** On a key map built from the US table, a kept combination is what the
      reverse lookup returns for its character. */
  lemma USReverseLookup(km: KeyMap, k: KeymapKey)
    requires km.Valid() && km.Values == USKeyboardTable
    requires 0 <= k.Key < 256 && USCharacter(k).Some? && !Excluded(k.Key)
    ensures km.GetKeymapKey(USCharacter(k).value) == Some(k)
  {
    USKeyboardUnambiguous();
    USKeyboardTableEntry(k);
    km.ReverseInvertsTable(k);
  }

  /** Reverse lookups on the US key map: 'a' is A, and '5' is D5 rather than
      NumPad5. */
  lemma USKeyboardReverseLookups(km: KeyMap)
    requires km.Valid() && km.Values == USKeyboardTable
    ensures km.GetKeymapKey('a') == Some(KeymapKey(NoModifiers, A))
    ensures km.GetKeymapKey('5') == Some(KeymapKey(NoModifiers, D5))
  {
    USReverseLookup(km, KeymapKey(NoModifiers, A));
    USReverseLookup(km, KeymapKey(NoModifiers, D5));
  }

  /** The keypad operators are never the answer of a reverse lookup: '*' is
      Shift+D8 (not Multiply), '+' is Shift+OemPlus (not Add), '-' is
      OemMinus (not Subtract). */
  lemma USKeypadOperatorsSkipped(km: KeyMap)
    requires km.Valid() && km.Values == USKeyboardTable
    ensures km.GetKeymapKey('*') == Some(KeymapKey(Shift, D8))
    ensures km.GetKeymapKey('+') == Some(KeymapKey(Shift, OemPlus))
    ensures km.GetKeymapKey('-') == Some(KeymapKey(NoModifiers, OemMinus))
  {
    USReverseLookup(km, KeymapKey(Shift, D8));
    USReverseLookup(km, KeymapKey(Shift, OemPlus));
    USReverseLookup(km, KeymapKey(NoModifiers, OemMinus));
  }

  /** Character lookups on the US key map: A types 'a', Shift+A types 'A',
      the keypad's Multiply types '*', and Ctrl+A types nothing. */
  lemma USKeyboardCharacters(km: KeyMap)
    requires km.Values == USKeyboardTable
    ensures km.GetCharacter(NoModifiers, A) == 'a' && km.GetCharacter(Shift, A) == 'A'
    ensures km.GetCharacter(NoModifiers, Multiply) == '*'
    ensures km.GetCharacter(Ctrl, A) == '\0'
  {
    USKeyboardTableEntry(KeymapKey(NoModifiers, A));
    USKeyboardTableEntry(KeymapKey(Shift, A));
    USKeyboardTableEntry(KeymapKey(NoModifiers, Multiply));
    USKeyboardTableEntry(KeymapKey(Ctrl, A));
  }
}
