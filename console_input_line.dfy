/** `ConsoleInputLine`: the console's editable command line, a text and a
    caret that every edit keeps inside the text. */
module ConsoleInputLines {
  import opened Wrappers
  import opened XnaKeys
  import NumTools
  import KeyModifiers
  import KeyMaps

  /** `Char.IsControl`: the C0 and C1 control characters. */
  predicate IsControl(c: char) {
    c as int <= 0x1F || 0x7F <= c as int <= 0x9F
  }

  /** `String.Remove(index, 1)`. */
  function Remove(s: string, index: nat): (r: string)
    requires index < |s|
    ensures |r| == |s| - 1
    ensures forall i :: 0 <= i < index ==> r[i] == s[i]
    ensures forall i :: index <= i < |r| ==> r[i] == s[i + 1]
  {
    s[..index] + s[index + 1..]
  }

  /** `String.Insert(index, value)`. */
  function Insert(s: string, index: nat, value: string): (r: string)
    requires index <= |s|
    ensures |r| == |s| + |value|
    ensures r[..index] == s[..index] && r[index..index + |value|] == value && r[index + |value|..] == s[index..]
  {
    s[..index] + value + s[index..]
  }

  /** The two fields behind the `Text` and `CaretPosition` properties. */
  datatype Line = Line(Text: string, Caret: int)

  predicate CaretInRange(l: Line) {
    0 <= l.Caret <= |l.Text|
  }

  /** What the `CaretPosition` setter stores: the value clamped into the text. */
  function ClampCaret(value: int, text: string): (r: int)
    ensures 0 <= r <= |text|
    ensures 0 <= value <= |text| ==> r == value
    ensures value < 0 ==> r == 0
    ensures value > |text| ==> r == |text|
  {
    NumTools.MaxInt(0, NumTools.MinInt(value, |text|))
  }

  /** The `CaretPosition` setter. */
  function WithCaret(l: Line, value: int): (r: Line)
    ensures CaretInRange(r) && r.Text == l.Text
  {
    l.(Caret := ClampCaret(value, l.Text))
  }

  /** The `Text` setter (`null` stands for `None`): the old caret re-clamped
      into the new text. */
  function WithText(l: Line, value: Option<string>): (r: Line)
    ensures CaretInRange(r)
    ensures r.Text == if value.Some? then value.value else ""
  {
    var text := if value.Some? then value.value else "";
    Line(text, ClampCaret(l.Caret, text))
  }

  function DeleteAtCaret(l: Line): Line
    requires CaretInRange(l)
  {
    if l.Caret < |l.Text| then WithText(l, Some(Remove(l.Text, l.Caret))) else l
  }

  function BackspaceAtCaret(l: Line): Line
    requires CaretInRange(l)
  {
    if l.Caret > 0 then
      var m := WithCaret(l, l.Caret - 1);
      WithText(m, Some(Remove(m.Text, m.Caret)))
    else l
  }

  function InsertAtCaret(l: Line, c: char): Line
    requires CaretInRange(l)
  {
    var m := WithText(l, Some(Insert(l.Text, l.Caret, [c])));
    WithCaret(m, m.Caret + 1)
  }

  /** `Update(modifiers, inputKey)`, where `c` is the character the current
      key map gives for the pair. */
  function Edited(l: Line, key: Key, c: char): (r: Line)
    requires CaretInRange(l)
    ensures CaretInRange(r)
  {
    if key == Home then WithCaret(l, 0)
    else if key == End then WithCaret(l, |l.Text|)
    else if key == Left then WithCaret(l, l.Caret - 1)
    else if key == Right then WithCaret(l, l.Caret + 1)
    else if key == Back then BackspaceAtCaret(l)
    else if key == Delete then DeleteAtCaret(l)
    else if key == Space then InsertAtCaret(l, ' ')
    else if !IsControl(c) then InsertAtCaret(l, c)
    else l
  }

  /** The keys `Update` handles itself rather than typing them. */
  predicate EditingKey(key: Key) {
    key in {Home, End, Left, Right, Back, Delete, Space}
  }

  /** Home and End move the caret to either end; Left and Right move it by
      one within the text; none of them changes the text. */
  lemma CaretMoves(l: Line, c: char)
    requires CaretInRange(l)
    ensures Edited(l, Home, c) == l.(Caret := 0)
    ensures Edited(l, End, c) == l.(Caret := |l.Text|)
    ensures Edited(l, Left, c) == l.(Caret := if l.Caret > 0 then l.Caret - 1 else 0)
    ensures Edited(l, Right, c) == l.(Caret := if l.Caret < |l.Text| then l.Caret + 1 else |l.Text|)
  {
  }

  /** Back removes the character before the caret and moves the caret onto
      its place; at the start of the line it does nothing. */
  lemma BackspaceRemovesBefore(l: Line, c: char)
    requires CaretInRange(l)
    ensures var r := Edited(l, Back, c);
            if l.Caret > 0 then r == Line(l.Text[..l.Caret - 1] + l.Text[l.Caret..], l.Caret - 1) else r == l
  {
  }

  /** Delete removes the character at the caret and leaves the caret where
      it is; at the end of the line it does nothing. */
  lemma DeleteRemovesAt(l: Line, c: char)
    requires CaretInRange(l)
    ensures var r := Edited(l, Delete, c);
            if l.Caret < |l.Text| then r == Line(l.Text[..l.Caret] + l.Text[l.Caret + 1..], l.Caret) else r == l
  {
  }

  /** Space and every printable character are inserted at the caret, which
      moves past them; a control character (`'\0'` for an unmapped key)
      changes nothing. */
  lemma TypingInserts(l: Line, key: Key, c: char)
    requires CaretInRange(l) && !EditingKey(key)
    ensures var r := Edited(l, key, c);
            if IsControl(c) then r == l else r == Line(l.Text[..l.Caret] + [c] + l.Text[l.Caret..], l.Caret + 1)
  {
  }

  lemma SpaceInserts(l: Line, c: char)
    requires CaretInRange(l)
    ensures Edited(l, Space, c) == Line(l.Text[..l.Caret] + [' '] + l.Text[l.Caret..], l.Caret + 1)
  {
  }

  /** Back right after typing a character takes it out again, and so do
      Left followed by Delete. */
  lemma BackspaceUndoesTyping(l: Line, key: Key, c: char, d: char)
    requires CaretInRange(l) && !EditingKey(key) && !IsControl(c)
    ensures Edited(Edited(l, key, c), Back, d) == l
  {
    var t := Edited(l, key, c);
    assert t.Text[..l.Caret] + t.Text[l.Caret + 1..] == l.Text;
  }

  lemma LeftDeleteUndoesTyping(l: Line, key: Key, c: char, d: char, e: char)
    requires CaretInRange(l) && !EditingKey(key) && !IsControl(c)
    ensures Edited(Edited(Edited(l, key, c), Left, d), Delete, e) == l
  {
    var t := Edited(l, key, c);
    assert t.Text[..l.Caret] + t.Text[l.Caret + 1..] == l.Text;
  }

  class ConsoleInputLine {
    var CurrentKeyMap: KeyMaps.KeyMap
    var text: string
    var caretPosition: int

    function State(): Line
      reads this
    {
      Line(text, caretPosition)
    }

    ghost predicate Valid()
      reads this
    {
      CaretInRange(State())
    }

    /** The default line: empty, caret at 0, typing through `keyMap` (the
        US keyboard table in the game). */
    constructor (keyMap: KeyMaps.KeyMap)
      ensures State() == Line("", 0) && CurrentKeyMap == keyMap
    {
      CurrentKeyMap := keyMap;
      text := "";
      caretPosition := 0;
    }

    method SetCaretPosition(value: int)
      modifies this`caretPosition
      ensures State() == WithCaret(old(State()), value)
    {
      caretPosition := NumTools.MaxInt(0, NumTools.MinInt(value, |text|));
    }

    method SetText(value: Option<string>)
      modifies this`text, this`caretPosition
      ensures State() == WithText(old(State()), value)
    {
      text := if value.Some? then value.value else "";
      SetCaretPosition(caretPosition);
    }

    method Update(modifiers: KeyModifiers.Modifiers, inputKey: Key)
      requires Valid()
      modifies this`text, this`caretPosition
      ensures State() == Edited(old(State()), inputKey, CurrentKeyMap.GetCharacter(modifiers, inputKey))
      ensures Valid()
    {
      if inputKey == Home {
        SetCaretPosition(0);
      } else if inputKey == End {
        SetCaretPosition(|text|);
      } else if inputKey == Left {
        SetCaretPosition(caretPosition - 1);
      } else if inputKey == Right {
        SetCaretPosition(caretPosition + 1);
      } else if inputKey == Back {
        BackspaceCharAtCaret();
      } else if inputKey == Delete {
        DeleteCharAtCaret();
      } else if inputKey == Space {
        InsertSpaceAtCaret();
      } else {
        InsertCharAtCaret(CurrentKeyMap.GetCharacter(modifiers, inputKey));
      }
    }

    method DeleteCharAtCaret()
      requires Valid()
      modifies this`text, this`caretPosition
      ensures State() == DeleteAtCaret(old(State()))
    {
      if caretPosition < |text| {
        SetText(Some(Remove(text, caretPosition)));
      }
    }

    method BackspaceCharAtCaret()
      requires Valid()
      modifies this`text, this`caretPosition
      ensures State() == BackspaceAtCaret(old(State()))
    {
      if caretPosition > 0 {
        SetCaretPosition(caretPosition - 1);
        SetText(Some(Remove(text, caretPosition)));
      }
    }

    method InsertSpaceAtCaret()
      requires Valid()
      modifies this`text, this`caretPosition
      ensures State() == InsertAtCaret(old(State()), ' ')
    {
      SetText(Some(Insert(text, caretPosition, " ")));
      SetCaretPosition(caretPosition + 1);
    }

    method InsertCharAtCaret(value: char)
      requires Valid()
      modifies this`text, this`caretPosition
      ensures State() == if IsControl(value) then old(State()) else InsertAtCaret(old(State()), value)
    {
      if !IsControl(value) {
        SetText(Some(Insert(text, caretPosition, [value])));
        SetCaretPosition(caretPosition + 1);
      }
    }
  }
}
