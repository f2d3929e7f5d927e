/** `ConsoleHistory`: the scrollback of echoed lines with a window onto it,
    and the buffer of entered commands with a cursor into it. */
module ConsoleHistories {
  import opened NumTools

  /** `Join(pieces, sep)`: the pieces with `sep` between neighbours. */
  function Join(pieces: seq<string>, sep: char): string
    requires |pieces| >= 1
  {
    if |pieces| == 1 then pieces[0] else Join(pieces[..|pieces| - 1], sep) + [sep] + pieces[|pieces| - 1]
  }

  /** `s.Split(sep)`: the maximal `sep`-free pieces, at least one. */
  function Split(s: string, sep: char): (pieces: seq<string>)
    ensures |pieces| >= 1
    ensures forall i :: 0 <= i < |pieces| ==> sep !in pieces[i]
    ensures Join(pieces, sep) == s
  {
    if s == [] then [""]
    else
      var ps := Split(s[..|s| - 1], sep);
      var last := s[|s| - 1];
      assert s == s[..|s| - 1] + [last];
      if last == sep then ps + [""]
      else
        var grown := ps[..|ps| - 1] + [ps[|ps| - 1] + [last]];
        assert grown[..|grown| - 1] == ps[..|ps| - 1];
        assert |ps| > 1 ==> ps[..|ps| - 1][..|ps| - 2] == ps[..|ps| - 2];
        grown
  }

  /** A string without the separator is a single piece. */
  lemma SplitWithoutSeparator(s: string, sep: char)
    requires sep !in s
    ensures Split(s, sep) == [s]
  {
    var ps := Split(s, sep);
    if |ps| > 1 {
      JoinContainsSeparator(ps, sep);
    }
  }

  lemma JoinContainsSeparator(ps: seq<string>, sep: char)
    requires |ps| > 1
    ensures sep in Join(ps, sep)
  {
    var j := Join(ps[..|ps| - 1], sep);
    assert (j + [sep] + ps[|ps| - 1])[|j|] == sep;
  }

  class ConsoleHistory {
    var allHistory: seq<string>
    var pastCommands: seq<string>
    var currentCommand: int
    var historyLocation: int
    var historyWindowSize: int

    /** The cursors stay inside their buffers and the window is never
        negative. */
    ghost predicate Valid()
      reads this
    {
      CursorsValid() && 0 <= historyLocation <= |allHistory|
    }

    /** `Valid()` short of the location, which the setter re-establishes. */
    ghost predicate CursorsValid()
      reads this
    {
      0 <= currentCommand <= |pastCommands| && historyWindowSize >= 0
    }

    constructor ()
      ensures Valid()
      ensures allHistory == [] && pastCommands == [] && currentCommand == 0 && historyLocation == 0 && historyWindowSize == 1
    {
      currentCommand := 0;
      historyLocation := 0;
      historyWindowSize := 1;
      allHistory := [];
      pastCommands := [];
    }

    /** The `CurrentCommand` setter: clamped to `[0, CommandBufferSize]`. */
    method SetCurrentCommand(value: int)
      requires Valid()
      modifies this`currentCommand
      ensures Valid()
      ensures currentCommand == ClampInt(value, 0, |pastCommands|)
    {
      currentCommand := ClampInt(value, 0, |pastCommands|);
    }

    /** The `HistoryLocation` setter: clamped to `[0, HistorySize -
        HistoryWindowSize]`, and to 0 when that bound is negative. */
    method SetHistoryLocation(value: int)
      requires CursorsValid()
      modifies this`historyLocation
      ensures Valid()
      ensures historyLocation == ClampInt(value, 0, |allHistory| - historyWindowSize)
    {
      historyLocation := ClampInt(value, 0, |allHistory| - historyWindowSize);
    }

    /** The `HistoryWindowSize` setter: never below 0; the location is left
        as it is. */
    method SetHistoryWindowSize(value: int)
      requires Valid()
      modifies this`historyWindowSize
      ensures Valid()
      ensures historyWindowSize == MaxInt(0, value)
    {
      historyWindowSize := MaxInt(0, value);
    }

    /** `GetCurrentCommand()`: the command under the cursor, or "" past the
        newest one. */
    function GetCurrentCommand(): (r: string)
      requires Valid()
      reads this
      ensures currentCommand == |pastCommands| ==> r == ""
      ensures currentCommand < |pastCommands| ==> r == pastCommands[currentCommand]
    {
      if currentCommand >= |pastCommands| then "" else pastCommands[currentCommand]
    }

    /** `GetHistoryWindow()`: up to `HistoryWindowSize` consecutive lines
        from the location on, never past the end. */
    function GetHistoryWindow(): (r: seq<string>)
      requires Valid()
      reads this
      ensures |r| == MinInt(|allHistory| - historyLocation, historyWindowSize)
      ensures forall i :: 0 <= i < |r| ==> r[i] == allHistory[historyLocation + i]
    {
      allHistory[historyLocation .. historyLocation + MinInt(|allHistory| - historyLocation, historyWindowSize)]
    }

    method ScrollToMostRecent()
      requires CursorsValid()
      modifies this`historyLocation
      ensures Valid()
      ensures historyLocation == MaxInt(0, |allHistory| - historyWindowSize)
    {
      SetHistoryLocation(|allHistory| - historyWindowSize);
    }

    /** `InsertEcho(s)`: each newline-separated piece becomes a line, and the
        window moves to the newest lines. */
    method InsertEcho(echoString: string)
      requires Valid()
      modifies this`allHistory, this`historyLocation
      ensures Valid()
      ensures allHistory == old(allHistory) + Split(echoString, '\n')
      ensures historyLocation == MaxInt(0, |allHistory| - historyWindowSize)
    {
      allHistory := allHistory + Split(echoString, '\n');
      ScrollToMostRecent();
    }

    /** `InsertCommand(s)`: the command is stored, the cursor moves past it,
        and "> " followed by it is echoed. */
    method InsertCommand(commandString: string)
      requires Valid()
      modifies this
      ensures Valid()
      ensures pastCommands == old(pastCommands) + [commandString] && currentCommand == |pastCommands|
      ensures allHistory == old(allHistory) + Split("> " + commandString, '\n')
      ensures historyLocation == MaxInt(0, |allHistory| - historyWindowSize)
      ensures historyWindowSize == old(historyWindowSize)
    {
      pastCommands := pastCommands + [commandString];
      SetCurrentCommand(|pastCommands|);
      InsertEcho("> " + commandString);
    }

    /** `ClearEchoHistory()`: the lines go, the commands stay. */
    method ClearEchoHistory()
      requires Valid()
      modifies this`allHistory, this`historyLocation
      ensures Valid()
      ensures allHistory == [] && historyLocation == 0
    {
      allHistory := [];
      ScrollToMostRecent();
    }
  }

  /** With a window of 5, echoing lines one at a time leaves the window on
      the last five, scrolling back by one moves it up one, scrolling forward
      again stops at the newest lines, and clearing empties the history. */
  method HistoryScroll(echoes: seq<string>) returns (afterEchoes: int, afterBack: int, afterForward: int, afterClear: int)
    requires |echoes| >= 6
    requires forall i :: 0 <= i < |echoes| ==> '\n' !in echoes[i]
    ensures afterEchoes == |echoes| - 5 && afterBack == |echoes| - 6 && afterForward == |echoes| - 5 && afterClear == 0
  {
    var history := new ConsoleHistory();
    history.SetHistoryWindowSize(5);
    for i := 0 to |echoes|
      invariant history.Valid() && history.historyWindowSize == 5 && |history.allHistory| == i
      invariant history.historyLocation == MaxInt(0, i - 5)
    {
      SplitWithoutSeparator(echoes[i], '\n');
      history.InsertEcho(echoes[i]);
    }
    afterEchoes := history.historyLocation;
    history.SetHistoryLocation(history.historyLocation - 1);
    afterBack := history.historyLocation;
    for i := 0 to 20
      invariant history.Valid() && history.historyWindowSize == 5 && |history.allHistory| == |echoes|
      invariant |echoes| - 6 <= history.historyLocation <= |echoes| - 5
      invariant i >= 1 ==> history.historyLocation == |echoes| - 5
    {
      history.SetHistoryLocation(history.historyLocation + 1);
    }
    afterForward := history.historyLocation;
    history.ClearEchoHistory();
    afterClear := history.historyLocation;
  }
}
