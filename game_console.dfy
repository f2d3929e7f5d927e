/** `GameConsole`: the drop-down console. It reads the keyboard through a
    key reader, edits the input line, and keeps the echo and command
    history. */
module GameConsoles {
  import opened Wrappers
  import opened XnaKeys
  import opened NumTools
  import KeyModifiers
  import KeyMaps
  import ConsoleHistories
  import ConsoleInputLines
  import ConsoleKeyReaders

  const OpenConsoleKey: Key := OemTilde
  const CloseConsoleKey: Key := Escape
  const IssueCommandKey: Key := Enter
  const PreviousCommandKey: Key := Up
  const NextCommandKey: Key := Down
  const ScrollUpKey: Key := PageUp
  const ScrollDownKey: Key := PageDown
  const DefaultCaretBlinkRate: nat := 30
  const DefaultNumVisibleLines: int := 8
  const DefaultScrollAmount: int := 1
  const MaxVisibleLines: int := 15

  /** What one update does, decided by whether the console is open and by
      the key the key reader reports. */
  datatype ConsoleAction = Open | Close | IssueCommand | PreviousCommand | NextCommand | ScrollUp | ScrollDown | EditLine | Ignore

  function ActionFor(isOpen: bool, key: Key): (a: ConsoleAction)
    ensures !isOpen ==> (a == Open <==> key == OpenConsoleKey) && (a == Open || a == Ignore)
    ensures isOpen ==> a != Open && a != Ignore
    ensures isOpen ==> (a == EditLine <==> key !in {CloseConsoleKey, IssueCommandKey, PreviousCommandKey, NextCommandKey, ScrollUpKey, ScrollDownKey})
  {
    if !isOpen then (if key == OpenConsoleKey then Open else Ignore)
    else if key == CloseConsoleKey then Close
    else if key == IssueCommandKey then IssueCommand
    else if key == PreviousCommandKey then PreviousCommand
    else if key == NextCommandKey then NextCommand
    else if key == ScrollUpKey then ScrollUp
    else if key == ScrollDownKey then ScrollDown
    else EditLine
  }

  /** The blinking caret: a counter of editing updates and whether the
      caret is drawn. */
  datatype Caret = Caret(Counter: nat, On: bool)

  /** One editing update's effect on the caret. */
  function Blink(c: Caret, rate: nat): Caret {
    var counter := c.Counter + 1;
    if counter >= rate then Caret(0, !c.On) else c.(Counter := counter)
  }

  function Blinks(c: Caret, rate: nat, n: nat): Caret {
    if n == 0 then c else Blink(Blinks(c, rate, n - 1), rate)
  }

  /** From a reset counter the caret keeps its state for `rate - 1` editing
      updates and toggles on the `rate`-th. */
  lemma {:induction false} BlinkPeriod(c: Caret, rate: nat, n: nat)
    requires c.Counter == 0 && 1 <= n <= rate
    ensures n < rate ==> Blinks(c, rate, n) == Caret(n, c.On)
    ensures n == rate ==> Blinks(c, rate, n) == Caret(0, !c.On)
  {
    if n > 1 {
      BlinkPeriod(c, rate, n - 1);
    }
  }

  /** With a rate of 0 or 1 the caret toggles on every editing update. */
  lemma BlinkEveryUpdate(c: Caret, rate: nat)
    requires rate <= 1
    ensures Blink(c, rate) == Caret(0, !c.On)
  {
  }

  class GameConsole {
    const history: ConsoleHistories.ConsoleHistory
    const inputLine: ConsoleInputLines.ConsoleInputLine
    const keyReader: ConsoleKeyReaders.ConsoleKeyReader
    var IsOpen: bool
    var CaretBlinkRate: nat
    var ScrollAmount: int
    var caretBlinkCounter: nat
    var caretOn: bool

    ghost predicate Valid()
      reads this, history, inputLine
    {
      history.Valid() && inputLine.Valid()
    }

    function CaretState(): Caret
      reads this
    {
      Caret(caretBlinkCounter, caretOn)
    }

    /** A closed console with the default settings, an empty history and
        input line, and the US keyboard layout. */
    constructor ()
      ensures Valid() && fresh(history) && fresh(inputLine) && fresh(keyReader)
      ensures !IsOpen && CaretBlinkRate == DefaultCaretBlinkRate && ScrollAmount == DefaultScrollAmount
      ensures history.historyWindowSize == DefaultNumVisibleLines && history.allHistory == [] && history.pastCommands == []
      ensures inputLine.State() == ConsoleInputLines.Line("", 0) && inputLine.CurrentKeyMap.Values == KeyMaps.USKeyboardTable
      ensures keyReader.State() == ConsoleKeyReaders.ReaderState([], ConsoleKeyReaders.NoKey, 0, false)
    {
      CaretBlinkRate := DefaultCaretBlinkRate;
      IsOpen := false;
      var h := new ConsoleHistories.ConsoleHistory();
      history := h;
      var usKeyboard := new KeyMaps.KeyMap(KeyMaps.USKeyboardTable);
      inputLine := new ConsoleInputLines.ConsoleInputLine(usKeyboard);
      h.SetHistoryWindowSize(ClampInt(DefaultNumVisibleLines, 0, MaxVisibleLines));
      keyReader := new ConsoleKeyReaders.ConsoleKeyReader();
      ScrollAmount := DefaultScrollAmount;
    }

    /** The `NumVisibleLines` setter: the history window, clamped to
        `[0, 15]`. */
    method SetNumVisibleLines(value: int)
      requires Valid()
      modifies history`historyWindowSize
      ensures Valid()
      ensures history.historyWindowSize == ClampInt(value, 0, MaxVisibleLines)
    {
      history.SetHistoryWindowSize(ClampInt(value, 0, MaxVisibleLines));
    }

    method PrintLine(line: string)
      requires Valid()
      modifies history`allHistory, history`historyLocation
      ensures Valid()
      ensures history.allHistory == old(history.allHistory) + ConsoleHistories.Split(line, '\n')
      ensures history.historyLocation == MaxInt(0, |history.allHistory| - history.historyWindowSize)
    {
      history.InsertEcho(line);
    }

    method ClearScreen()
      requires Valid()
      modifies history`allHistory, history`historyLocation
      ensures Valid()
      ensures history.allHistory == [] && history.historyLocation == 0
    {
      history.ClearEchoHistory();
    }

    /** `Update(keys)`: feeds the key reader, then acts on the key it
        reports. `entered` is the text raised through `CommandEntered`, if
        any. */
    method Update(keys: seq<Key>) returns (entered: Option<string>)
      requires Valid()
      modifies this, history, inputLine`text, inputLine`caretPosition
      modifies keyReader`lastState, keyReader`focusKey, keyReader`focusKeyHeldTime, keyReader`initialPress
      ensures Valid()
      ensures keyReader.State() == ConsoleKeyReaders.Next(old(keyReader.State()), keyReader.InitialKeyRepeat, keyReader.HeldKeyRepeat, keys)
      ensures var key := ConsoleKeyReaders.CurrentKey(keyReader.State());
              var a := ActionFor(old(IsOpen), key);
              && IsOpen == (a == Open || (old(IsOpen) && a != Close))
              && entered == (if a == IssueCommand then Some(old(inputLine.text)) else None)
              && (a in {Ignore, Close} ==> unchanged(history, inputLine) && CaretState() == old(CaretState()))
              && (a == Open ==> Opened(old(history.allHistory), old(history.pastCommands), old(history.currentCommand), old(history.historyWindowSize)) && unchanged(inputLine))
              && (a == IssueCommand ==> Issued(old(inputLine.text), old(history.allHistory), old(history.pastCommands), old(history.historyWindowSize)) && CaretState() == old(CaretState()))
              && (a in {PreviousCommand, NextCommand} ==> Recalled(if a == PreviousCommand then -1 else 1, old(history.allHistory), old(history.pastCommands), old(history.currentCommand), old(history.historyLocation), old(history.historyWindowSize)) && CaretState() == old(CaretState()))
              && (a in {ScrollUp, ScrollDown} ==> Scrolled(if a == ScrollUp then -ScrollAmount else ScrollAmount, old(history.allHistory), old(history.pastCommands), old(history.currentCommand), old(history.historyLocation), old(history.historyWindowSize)) && unchanged(inputLine) && CaretState() == old(CaretState()))
              && (a == EditLine ==> unchanged(history) && CaretState() == Blink(old(CaretState()), CaretBlinkRate))
              && (a == EditLine ==> inputLine.State() == ConsoleInputLines.Edited(old(inputLine.State()), key, inputLine.CurrentKeyMap.GetCharacter(KeyModifiers.ModifiersOf(keys), key)))
      ensures CaretBlinkRate == old(CaretBlinkRate) && ScrollAmount == old(ScrollAmount)
    {
      keyReader.Update(keys);
      var key := keyReader.GetCurrentKey();
      entered := None;
      if IsOpen {
        if key == CloseConsoleKey {
          IsOpen := false;
        } else if key == IssueCommandKey {
          entered := IssueInput();
        } else if key == PreviousCommandKey {
          RecallCommand(-1);
        } else if key == NextCommandKey {
          RecallCommand(1);
        } else if key == ScrollUpKey {
          history.SetHistoryLocation(history.historyLocation - ScrollAmount);
        } else if key == ScrollDownKey {
          history.SetHistoryLocation(history.historyLocation + ScrollAmount);
        } else {
          var mods := keyReader.GetModifiers();
          inputLine.Update(mods, key);
          caretBlinkCounter := caretBlinkCounter + 1;
          if caretBlinkCounter >= CaretBlinkRate {
            caretOn := !caretOn;
            caretBlinkCounter := 0;
          }
        }
      } else if key == OpenConsoleKey {
        IsOpen := true;
        history.ScrollToMostRecent();
        caretOn := false;
        caretBlinkCounter := 0;
      }
    }

    /** The console was opened: the history scrolled to its newest lines and
        the caret reset, nothing else changed. */
    ghost predicate Opened(allHistory: seq<string>, pastCommands: seq<string>, currentCommand: int, windowSize: int)
      reads this, history
    {
      && history.allHistory == allHistory && history.pastCommands == pastCommands
      && history.currentCommand == currentCommand && history.historyWindowSize == windowSize
      && history.historyLocation == MaxInt(0, |allHistory| - windowSize)
      && CaretState() == Caret(0, false)
    }

    /** The input text was entered as a command, echoed, and cleared from
        the input line. */
    ghost predicate Issued(text: string, allHistory: seq<string>, pastCommands: seq<string>, windowSize: int)
      reads this, history, inputLine
    {
      && history.pastCommands == pastCommands + [text] && history.currentCommand == |history.pastCommands|
      && history.allHistory == allHistory + ConsoleHistories.Split("> " + text, '\n')
      && history.historyWindowSize == windowSize
      && history.historyLocation == MaxInt(0, |history.allHistory| - windowSize)
      && inputLine.State() == ConsoleInputLines.Line("", 0)
    }

    /** The command cursor moved by `delta` (clamped) and the command under
        it was loaded into the input line with the caret at its end. */
    ghost predicate Recalled(delta: int, allHistory: seq<string>, pastCommands: seq<string>, currentCommand: int, location: int, windowSize: int)
      reads this, history, inputLine
    {
      && history.allHistory == allHistory && history.pastCommands == pastCommands
      && history.historyLocation == location && history.historyWindowSize == windowSize
      && history.currentCommand == ClampInt(currentCommand + delta, 0, |pastCommands|)
      && history.Valid()
      && inputLine.State() == ConsoleInputLines.Line(history.GetCurrentCommand(), |history.GetCurrentCommand()|)
    }

    /** The history window moved by `delta` lines, clamped by the history. */
    ghost predicate Scrolled(delta: int, allHistory: seq<string>, pastCommands: seq<string>, currentCommand: int, location: int, windowSize: int)
      reads history
    {
      && history.allHistory == allHistory && history.pastCommands == pastCommands
      && history.currentCommand == currentCommand && history.historyWindowSize == windowSize
      && history.historyLocation == ClampInt(location + delta, 0, |allHistory| - windowSize)
    }

    method IssueInput() returns (entered: Option<string>)
      requires Valid()
      modifies history, inputLine`text, inputLine`caretPosition
      ensures Valid()
      ensures entered == Some(old(inputLine.text))
      ensures Issued(old(inputLine.text), old(history.allHistory), old(history.pastCommands), old(history.historyWindowSize))
    {
      var text := inputLine.text;
      history.InsertCommand(text);
      entered := Some(text);
      inputLine.SetText(Some(""));
    }

    method RecallCommand(delta: int)
      requires Valid()
      modifies history`currentCommand, inputLine`text, inputLine`caretPosition
      ensures Valid()
      ensures Recalled(delta, old(history.allHistory), old(history.pastCommands), old(history.currentCommand), old(history.historyLocation), old(history.historyWindowSize))
    {
      history.SetCurrentCommand(history.currentCommand + delta);
      inputLine.SetText(Some(history.GetCurrentCommand()));
      inputLine.SetCaretPosition(|inputLine.text|);
    }
  }
}
