/** `ConsoleParser.ParseCommandLine`: splits a console line into tokens at
    unquoted spaces, with single and double quotes and backslash escapes. */
module ConsoleParser {
  import opened Wrappers

  /** The scanner state between characters. */
  datatype Lexer = Lexer(Tokens: seq<string>, Current: string, Escaped: bool, InSingleQuotes: bool, InDoubleQuotes: bool)

  const Start := Lexer([], "", false, false, false)

  /** The character a backslash followed by `c` stands for, if any. */
  function Unescape(c: char): Option<char> {
    match c
    case 'n' => Some('\n')
    case 't' => Some('\t')
    case '\\' => Some('\\')
    case '"' => Some('"')
    case '\'' => Some('\'')
    case ' ' => Some(' ')
    case _ => None
  }

  /** One character of the loop; `None` for a malformed escape. */
  function Step(st: Lexer, c: char): Option<Lexer> {
    if st.Escaped then
      match Unescape(c)
      case None => None
      case Some(u) => Some(st.(Current := st.Current + [u], Escaped := false))
    else if c == '\\' then Some(st.(Escaped := true))
    else if c == ' ' && !st.InSingleQuotes && !st.InDoubleQuotes then
      if |st.Current| > 0 then Some(st.(Tokens := st.Tokens + [st.Current], Current := "")) else Some(st)
    else if c == '"' && !st.InSingleQuotes then Some(st.(InDoubleQuotes := !st.InDoubleQuotes))
    else if c == '\'' && !st.InDoubleQuotes then Some(st.(InSingleQuotes := !st.InSingleQuotes))
    else Some(st.(Current := st.Current + [c]))
  }

  /** The state after the whole of `s`, or `None` once an escape is
      malformed. */
  function Run(s: string): Option<Lexer> {
    if s == [] then Some(Start)
    else
      match Run(s[..|s| - 1])
      case None => None
      case Some(st) => Step(st, s[|s| - 1])
  }

  /** The tokens once the line is over: a pending token is kept, a pending
      backslash is dropped. */
  function Finish(st: Lexer): seq<string> {
    if |st.Current| > 0 then st.Tokens + [st.Current] else st.Tokens
  }

  function MalformedMessage(line: string): string {
    "Malformed console command: " + line
  }

  function Parse(line: string): Result<seq<string>> {
    match Run(line)
    case None => Failure(MalformedMessage(line))
    case Some(st) => Success(Finish(st))
  }

  /** `ParseCommandLine(line)`; the exception becomes `Failure`. */
  method ParseCommandLine(line: string) returns (r: Result<seq<string>>)
    ensures r == Parse(line)
  {
    var tokens: seq<string> := [];
    var currentToken: string := "";
    var escaped := false;
    var inSingleQuotes := false;
    var inDoubleQuotes := false;
    for i := 0 to |line|
      invariant Run(line[..i]) == Some(Lexer(tokens, currentToken, escaped, inSingleQuotes, inDoubleQuotes))
    {
      var current := line[i];
      assert line[..i + 1][..i] == line[..i];
      if escaped {
        match current {
          case 'n' => currentToken := currentToken + ['\n'];
          case 't' => currentToken := currentToken + ['\t'];
          case '\\' => currentToken := currentToken + ['\\'];
          case '"' => currentToken := currentToken + ['"'];
          case '\'' => currentToken := currentToken + ['\''];
          case ' ' => currentToken := currentToken + [' '];
          case _ =>
            FailurePersists(line, i + 1);
            return Failure(MalformedMessage(line));
        }
        escaped := false;
      } else {
        if current == '\\' {
          escaped := true;
        } else if current == ' ' && !inSingleQuotes && !inDoubleQuotes {
          if |currentToken| > 0 {
            tokens := tokens + [currentToken];
            currentToken := "";
          }
        } else if current == '"' && !inSingleQuotes {
          inDoubleQuotes := !inDoubleQuotes;
        } else if current == '\'' && !inDoubleQuotes {
          inSingleQuotes := !inSingleQuotes;
        } else {
          currentToken := currentToken + [current];
        }
      }
    }
    assert line[..|line|] == line;
    if |currentToken| > 0 {
      tokens := tokens + [currentToken];
    }
    return Success(tokens);
  }

  /** One more character is one more step. */
  lemma RunSnoc(s: string, c: char)
    ensures Run(s + [c]) == match Run(s) case None => None case Some(st) => Step(st, c)
  {
    assert (s + [c])[..|s|] == s;
  }

  lemma {:induction false} FailurePersists(line: string, k: int)
    requires 0 <= k <= |line| && Run(line[..k]).None?
    ensures Run(line).None?
    decreases |line| - k
  {
    if k < |line| {
      assert line[..k + 1][..k] == line[..k];
      FailurePersists(line, k + 1);
    } else {
      assert line[..k] == line;
    }
  }

  /** Tokens are only ever closed when non-empty. */
  lemma {:induction false} RunTokensNonEmpty(s: string)
    requires Run(s).Some?
    ensures forall t :: t in Run(s).value.Tokens ==> |t| > 0
  {
    if s != [] {
      RunTokensNonEmpty(s[..|s| - 1]);
    }
  }

  /** The result never holds an empty token. */
  lemma NoEmptyTokens(line: string)
    requires Parse(line).Success?
    ensures forall t :: t in Parse(line).value ==> |t| > 0
  {
    RunTokensNonEmpty(line);
  }

  lemma {:induction false} SpacesLeaveStart(s: string)
    requires forall i :: 0 <= i < |s| ==> s[i] == ' '
    ensures Run(s) == Some(Start)
  {
    if s != [] {
      SpacesLeaveStart(s[..|s| - 1]);
    }
  }

  /** An empty or all-space line has no tokens. */
  lemma SpacesOnlyGiveNothing(line: string)
    requires forall i :: 0 <= i < |line| ==> line[i] == ' '
    ensures Parse(line) == Success([])
  {
    SpacesLeaveStart(line);
  }

  /** No backslash and no quote character. */
  predicate Plain(s: string) {
    forall i :: 0 <= i < |s| ==> s[i] != '\\' && s[i] != '"' && s[i] != '\''
  }

  function Concat(ts: seq<string>): string {
    if ts == [] then "" else Concat(ts[..|ts| - 1]) + ts[|ts| - 1]
  }

  /** `s` with its spaces removed. */
  function Unspaced(s: string): string {
    if s == [] then "" else Unspaced(s[..|s| - 1]) + (if s[|s| - 1] == ' ' then "" else [s[|s| - 1]])
  }

  lemma ConcatAppend(ts: seq<string>, t: string)
    ensures Concat(ts + [t]) == Concat(ts) + t
  {
    assert (ts + [t])[..|ts|] == ts;
  }

  lemma {:induction false} RunPlain(s: string)
    requires Plain(s)
    ensures Run(s).Some?
    ensures var st := Run(s).value;
      !st.Escaped && !st.InSingleQuotes && !st.InDoubleQuotes &&
      Concat(st.Tokens) + st.Current == Unspaced(s) &&
      (forall t :: t in st.Tokens ==> ' ' !in t) && ' ' !in st.Current
  {
    if s != [] {
      RunPlain(s[..|s| - 1]);
      var st := Run(s[..|s| - 1]).value;
      if s[|s| - 1] == ' ' && |st.Current| > 0 {
        ConcatAppend(st.Tokens, st.Current);
      }
    }
  }

  /** Without quotes or escapes, the tokens are the maximal space-free runs:
      they hold exactly the line's other characters, in order. */
  lemma PlainLineSplitsAtSpaces(line: string)
    requires Plain(line)
    ensures Parse(line).Success?
    ensures Concat(Parse(line).value) == Unspaced(line)
    ensures forall t :: t in Parse(line).value ==> ' ' !in t && |t| > 0
  {
    RunPlain(line);
    RunTokensNonEmpty(line);
    var st := Run(line).value;
    if |st.Current| > 0 {
      ConcatAppend(st.Tokens, st.Current);
    }
  }

  lemma {:induction false} RunDoubleQuoted(s: string)
    requires forall i :: 0 <= i < |s| ==> s[i] != '\\' && s[i] != '"'
    ensures Run(['"'] + s) == Some(Lexer([], s, false, false, true))
  {
    if s != [] {
      RunDoubleQuoted(s[..|s| - 1]);
      assert ['"'] + s == (['"'] + s[..|s| - 1]) + [s[|s| - 1]];
      RunSnoc(['"'] + s[..|s| - 1], s[|s| - 1]);
      assert s[..|s| - 1] + [s[|s| - 1]] == s;
    } else {
      RunSnoc([], '"');
      assert [] + ['"'] == ['"'] + s;
    }
  }

  /** Between double quotes spaces and single quotes are ordinary
      characters: the quoted text is one token, the quotes are dropped. */
  lemma DoubleQuotedIsOneToken(s: string)
    requires forall i :: 0 <= i < |s| ==> s[i] != '\\' && s[i] != '"'
    ensures Parse(['"'] + s + ['"']) == Success(if s == [] then [] else [s])
  {
    RunDoubleQuoted(s);
    RunSnoc(['"'] + s, '"');
    assert Finish(Lexer([], s, false, false, false)) == (if s == [] then [] else [s]);
  }

  lemma {:induction false} RunSingleQuoted(s: string)
    requires forall i :: 0 <= i < |s| ==> s[i] != '\\' && s[i] != '\''
    ensures Run(['\''] + s) == Some(Lexer([], s, false, true, false))
  {
    if s != [] {
      RunSingleQuoted(s[..|s| - 1]);
      assert ['\''] + s == (['\''] + s[..|s| - 1]) + [s[|s| - 1]];
      RunSnoc(['\''] + s[..|s| - 1], s[|s| - 1]);
      assert s[..|s| - 1] + [s[|s| - 1]] == s;
    } else {
      RunSnoc([], '\'');
      assert [] + ['\''] == ['\''] + s;
    }
  }

  /** Between single quotes spaces and double quotes are ordinary
      characters: the quoted text is one token, the quotes are dropped. */
  lemma SingleQuotedIsOneToken(s: string)
    requires forall i :: 0 <= i < |s| ==> s[i] != '\\' && s[i] != '\''
    ensures Parse(['\''] + s + ['\'']) == Success(if s == [] then [] else [s])
  {
    RunSingleQuoted(s);
    RunSnoc(['\''] + s, '\'');
    assert Finish(Lexer([], s, false, false, false)) == (if s == [] then [] else [s]);
  }

  /** A backslash followed by n, t, backslash, either quote or a space stands
      for newline, tab, backslash, that quote or a space; followed by any
      other character it is malformed. */
  lemma EscapeSequences(c: char)
    ensures Parse(['\\', c]) == match Unescape(c)
      case Some(u) => Success([[u]])
      case None => Failure(MalformedMessage(['\\', c]))
  {
    RunSnoc([], '\\');
    assert [] + ['\\'] == ['\\'];
    RunSnoc(['\\'], c);
    assert ['\\'] + [c] == ['\\', c];
    assert Run(['\\']) == Some(Start.(Escaped := true));
    if Unescape(c).Some? {
      var u := Unescape(c).value;
      assert Start.Current + [u] == [u];
      assert Run(['\\', c]) == Some(Lexer([], [u], false, false, false));
      assert Finish(Lexer([], [u], false, false, false)) == [[u]];
    }
  }

  /** A trailing lone backslash is dropped silently. */
  lemma TrailingBackslashDropped(line: string)
    requires Run(line).Some? && !Run(line).value.Escaped
    ensures Parse(line + ['\\']) == Parse(line)
  {
    RunSnoc(line, '\\');
  }

  /** The character at `i` follows an unescaped backslash and has no escape
      meaning. */
  predicate MalformedAt(line: string, i: int)
    requires 0 <= i < |line|
  {
    Run(line[..i]).Some? && Run(line[..i]).value.Escaped && Unescape(line[i]).None?
  }

  lemma StepFails(st: Lexer, c: char)
    ensures Step(st, c).None? <==> st.Escaped && Unescape(c).None?
  {
  }

  lemma {:induction false} RunFailsIffMalformed(line: string)
    ensures Run(line).None? <==> exists i :: 0 <= i < |line| && MalformedAt(line, i)
  {
    if line != [] {
      var n := |line| - 1;
      var init := line[..n];
      RunFailsIffMalformed(init);
      forall i | 0 <= i < n
        ensures MalformedAt(line, i) == MalformedAt(init, i)
      {
        assert line[..i] == init[..i];
      }
      if Run(init).None? {
        var i :| 0 <= i < n && MalformedAt(init, i);
        assert MalformedAt(line, i);
      } else {
        StepFails(Run(init).value, line[n]);
        assert line[..n] == init;
        if Run(line).None? {
          assert MalformedAt(line, n);
        } else {
          forall i | 0 <= i < |line|
            ensures !MalformedAt(line, i)
          {
          }
        }
      }
    }
  }

  /** Parsing fails exactly when some backslash that is not itself escaped
      is followed by a character with no escape meaning. */
  lemma FailsIffMalformedEscape(line: string)
    ensures Parse(line).Failure? <==> exists i :: 0 <= i < |line| && MalformedAt(line, i)
  {
    RunFailsIffMalformed(line);
  }
}
