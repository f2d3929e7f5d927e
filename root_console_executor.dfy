/** `RootConsoleExecutor`: the game's own console commands. A line is split
    into tokens and the first token, ignoring case, picks the command. */
module RootConsoleExecutors {
  import opened Wrappers
  import ConsoleParser
  import opened IgnoreCase

  datatype Command = StartGame | EditMap | Exit | Close | Clear

  /** The command table's keys. */
  function Name(c: Command): string {
    match c
    case StartGame => "startgame"
    case EditMap => "editmap"
    case Exit => "exit"
    case Close => "close"
    case Clear => "clear"
  }

  /** What a handler does to the game root and its console. */
  datatype Effect = SwitchToGame | SwitchToEditor | ExitGame | CloseConsole | ClearScreen | Echo(line: string)

  /** The handlers `RunGame`, `RunMapEdtior`, `ExitGame`, `CloseConsole` and
      `ClearConsole`, in the order they act. */
  function Handler(c: Command): seq<Effect> {
    match c
    case StartGame => [SwitchToGame, Echo("Game Started Successfully.")]
    case EditMap => [SwitchToEditor, Echo("Editor Initialized.")]
    case Exit => [Echo("Exiting..."), ExitGame]
    case Close => [CloseConsole]
    case Clear => [ClearScreen]
  }

  /** `Commands.ContainsKey(token)` and the key it matches. */
  function Lookup(token: string): (r: Option<Command>)
    ensures r.Some? ==> EqualsIgnoreCase(token, Name(r.value))
    ensures r.None? <==> forall c: Command :: !EqualsIgnoreCase(token, Name(c))
  {
    if EqualsIgnoreCase(token, Name(StartGame)) then Some(StartGame)
    else if EqualsIgnoreCase(token, Name(EditMap)) then Some(EditMap)
    else if EqualsIgnoreCase(token, Name(Exit)) then Some(Exit)
    else if EqualsIgnoreCase(token, Name(Close)) then Some(Close)
    else if EqualsIgnoreCase(token, Name(Clear)) then Some(Clear)
    else None
  }

  /** No token matches two commands, so the table's keys are distinct even
      ignoring case. */
  lemma NamesDistinctIgnoringCase(token: string, c1: Command, c2: Command)
    requires EqualsIgnoreCase(token, Name(c1)) && EqualsIgnoreCase(token, Name(c2))
    ensures c1 == c2
  {
    var n1, n2 := Name(c1), Name(c2);
    assert Fold(n1[0]) == Fold(token[0]) == Fold(n2[0]);
    assert Fold(n1[2]) == Fold(token[2]) == Fold(n2[2]);
  }

  /** A token matches a command regardless of the case of its letters. */
  lemma LookupIgnoresCase(token: string, c: Command)
    requires |token| == |Name(c)|
    requires forall i :: 0 <= i < |token| ==> token[i] == Name(c)[i] || token[i] as int == Name(c)[i] as int - 32
    ensures Lookup(token) == Some(c)
  {
    assert EqualsIgnoreCase(token, Name(c));
    NamesDistinctIgnoringCase(token, Lookup(token).value, c);
  }

  /** What `RunCommand` reports and what it made happen. */
  datatype Outcome = Outcome(Accepted: bool, Effects: seq<Effect>)

  /** `RunCommand(inputLine)`: a malformed line fails as the parser does;
      otherwise the line is accepted exactly when its first token names a
      command, and then that command's handler, and nothing else, runs. */
  function RunCommand(inputLine: string): (r: Result<Outcome>)
    ensures r.Failure? <==> ConsoleParser.Parse(inputLine).Failure?
    ensures r.Success? ==>
              var args := ConsoleParser.Parse(inputLine).value;
              && (r.value.Accepted <==> |args| > 0 && exists c: Command :: EqualsIgnoreCase(args[0], Name(c)))
              && (!r.value.Accepted ==> r.value.Effects == [])
              && (r.value.Accepted ==> exists c: Command :: EqualsIgnoreCase(args[0], Name(c)) && r.value.Effects == Handler(c))
  {
    match ConsoleParser.Parse(inputLine)
    case Failure(e) => Failure(e)
    case Success(args) =>
      if |args| > 0 && Lookup(args[0]).Some? then Success(Outcome(true, Handler(Lookup(args[0]).value)))
      else Success(Outcome(false, []))
  }

  /** `close` only closes the console and `clear` only clears its screen. */
  lemma CloseAndClear(inputLine: string)
    requires ConsoleParser.Parse(inputLine).Success?
    requires var args := ConsoleParser.Parse(inputLine).value; |args| > 0
    ensures var args := ConsoleParser.Parse(inputLine).value;
            && (EqualsIgnoreCase(args[0], "close") ==> RunCommand(inputLine) == Success(Outcome(true, [CloseConsole])))
            && (EqualsIgnoreCase(args[0], "clear") ==> RunCommand(inputLine) == Success(Outcome(true, [ClearScreen])))
  {
    var args := ConsoleParser.Parse(inputLine).value;
    if EqualsIgnoreCase(args[0], "close") {
      NamesDistinctIgnoringCase(args[0], Lookup(args[0]).value, Close);
    }
    if EqualsIgnoreCase(args[0], "clear") {
      NamesDistinctIgnoringCase(args[0], Lookup(args[0]).value, Clear);
    }
  }
}
