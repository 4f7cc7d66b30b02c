/** The shell's command line reader. An argument that is NULL in the source is None here. */
module CommandParser {
  import opened Wrappers

  const MAX_PROG_LENGTH := 16

  predicate Blank(c: char) {
    c == ' ' || c == '\t' || c == '\n'
  }

  ghost predicate AllBlank(s: string) {
    forall i :: 0 <= i < |s| ==> s[i] == ' ' || s[i] == '\t' || s[i] == '\n'
  }

  /** A word: not empty, no blanks. */
  ghost predicate Word(w: string) {
    w != "" && forall i :: 0 <= i < |w| ==> w[i] != ' ' && w[i] != '\t' && w[i] != '\n'
  }

  ghost predicate AllWords(ws: seq<string>) {
    forall i :: 0 <= i < |ws| ==> Word(ws[i])
  }

  /** The position of the first blank, or the end. */
  function Break(s: string): (n: nat)
    ensures n <= |s| && (forall i :: 0 <= i < n ==> !Blank(s[i])) && (n < |s| ==> Blank(s[n]))
  {
    if s == "" || Blank(s[0]) then 0 else 1 + Break(s[1..])
  }

  /** The non-empty pieces between blanks, in order. */
  function Words(s: string): (ws: seq<string>)
    ensures AllWords(ws)
    decreases |s|
  {
    var n := Break(s);
    (if n == 0 then [] else [s[..n]]) + (if n == |s| then [] else Words(s[n + 1..]))
  }

  // ----- What a line means -----

  datatype Command = Command(args: seq<string>, runsInBackground: bool, redirectFileName: Option<string>)

  function Detach(ws: seq<string>): (r: (seq<string>, bool)) {
    if |ws| >= 2 && ws[|ws| - 1] == "&" then (ws[..|ws| - 1], true) else (ws, false)
  }

  function Redirect(ws: seq<string>): (r: (seq<string>, Option<string>)) {
    if |ws| >= 3 && ws[|ws| - 2] == ">" then (ws[..|ws| - 2], Some(ws[|ws| - 1])) else (ws, None)
  }

  /** First the background mark is taken off the end, then the redirection. */
  function Interpret(ws: seq<string>): Command {
    var (foreground, runsInBackground) := Detach(ws);
    var (args, redirectFileName) := Redirect(foreground);
    Command(args, runsInBackground, redirectFileName)
  }

  datatype Reading = BlankLine | NameTooLong | Read(command: Command)

  function ReadLine(input: string): Reading {
    var ws := Words(input);
    if ws == [] then BlankLine else if |ws[0]| > MAX_PROG_LENGTH then NameTooLong else Read(Interpret(ws))
  }

  /** The words of a command as a user would type them. */
  function Typed(c: Command): seq<string> {
    c.args
    + (if c.redirectFileName.Some? then [">", c.redirectFileName.value] else [])
    + (if c.runsInBackground then ["&"] else [])
  }

  /** A command can be told from its words: nothing at the end looks like a mark that is not meant. */
  predicate Unambiguous(c: Command)
    requires c.args != []
  {
    var n := |c.args|;
    && (c.redirectFileName.Some? || n < 3 || c.args[n - 2] != ">")
    && (c.runsInBackground || if c.redirectFileName.Some? then c.redirectFileName.value != "&" else n < 2 || c.args[n - 1] != "&")
  }

  /** Reading undoes typing exactly for the unambiguous commands. */
  lemma InterpretUndoesTyping(c: Command)
    requires c.args != []
    ensures Interpret(Typed(c)) == c <==> Unambiguous(c)
  {
    var redirected := c.args + if c.redirectFileName.Some? then [">", c.redirectFileName.value] else [];
    if c.runsInBackground {
      assert Typed(c) == redirected + ["&"];
      assert Detach(Typed(c)).0 == redirected;
    } else {
      assert Typed(c) == redirected;
    }
    if c.redirectFileName.Some? {
      assert redirected[|redirected| - 2] == ">" && redirected[..|redirected| - 2] == c.args;
    } else {
      assert redirected == c.args;
    }
  }

  // ----- Tokens and blanks -----

  /** A line: the words, with blanks before, between (at least one) and after them. */
  ghost predicate Gaps(ws: seq<string>, gaps: seq<string>) {
    && |gaps| == |ws| + 1 && (forall i :: 0 <= i < |gaps| ==> AllBlank(gaps[i]))
    && forall i :: 0 < i < |ws| ==> gaps[i] != ""
  }

  function Spread(ws: seq<string>, gaps: seq<string>): string
    requires |gaps| == |ws| + 1
  {
    if ws == [] then gaps[0] else gaps[0] + ws[0] + Spread(ws[1..], gaps[1..])
  }

  lemma {:induction false} WordsAfterBlanks(g: string, s: string)
    requires AllBlank(g)
    ensures Words(g + s) == Words(s)
  {
    if g == "" {
      assert g + s == s;
    } else {
      assert Break(g + s) == 0 && (g + s)[1..] == g[1..] + s;
      WordsAfterBlanks(g[1..], s);
    }
  }

  lemma {:induction false} BreakAfterWord(w: string, s: string)
    requires forall i :: 0 <= i < |w| ==> !Blank(w[i])
    requires s == "" || Blank(s[0])
    ensures Break(w + s) == |w|
  {
    if w == "" {
      assert w + s == s;
    } else {
      assert (w + s)[1..] == w[1..] + s;
      BreakAfterWord(w[1..], s);
    }
  }

  lemma WordIsUnbroken(w: string)
    requires Word(w)
    ensures w != "" && forall i :: 0 <= i < |w| ==> !Blank(w[i])
  {
  }

  lemma WordsAfterWord(w: string, s: string)
    requires Word(w) && (s == "" || Blank(s[0]))
    ensures Words(w + s) == [w] + Words(s)
  {
    hide Word, AllWords, Blank;
    WordIsUnbroken(w);
    BreakAfterWord(w, s);
    assert (w + s)[..|w|] == w;
    if s == "" {
      assert w + s == w;
      assert Words(w) == [w] + [];
    } else {
      AfterBlank(s);
      assert (w + s)[|w| + 1..] == s[1..];
    }
  }

  lemma AfterBlank(s: string)
    requires s != "" && Blank(s[0])
    ensures Break(s) == 0 && Words(s) == Words(s[1..])
  {
  }

  /** The words of a spread-out line are the words it was made of, whatever the blanks. */
  lemma {:induction false} SpreadThenSplit(ws: seq<string>, gaps: seq<string>)
    requires AllWords(ws) && Gaps(ws, gaps)
    ensures Words(Spread(ws, gaps)) == ws
  {
    if ws == [] {
      assert gaps[0] + "" == gaps[0];
      WordsAfterBlanks(gaps[0], "");
    } else {
      var rest := Spread(ws[1..], gaps[1..]);
      SpreadThenSplit(ws[1..], gaps[1..]);
      SpreadStartsBlank(ws[1..], gaps[1..]);
      OneMore(ws, gaps[0], rest);
    }
  }

  lemma SpreadStartsBlank(ws: seq<string>, gaps: seq<string>)
    requires |gaps| == |ws| + 1 && AllBlank(gaps[0]) && (ws != [] ==> gaps[0] != "")
    ensures var s := Spread(ws, gaps); s == "" || Blank(s[0])
  {
  }

  lemma OneMore(ws: seq<string>, gap: string, rest: string)
    requires ws != [] && Word(ws[0]) && AllBlank(gap) && (rest == "" || Blank(rest[0])) && Words(rest) == ws[1..]
    ensures Words(gap + ws[0] + rest) == ws
  {
    hide Words, Break;
    assert gap + ws[0] + rest == gap + (ws[0] + rest);
    WordsAfterBlanks(gap, ws[0] + rest);
    WordsAfterWord(ws[0], rest);
    assert [ws[0]] + ws[1..] == ws;
  }

  /** And every line is its own words, spread out in some way: nothing but blanks is dropped. */
  lemma {:induction false} SplitThenSpread(s: string) returns (gaps: seq<string>)
    ensures Gaps(Words(s), gaps) && Spread(Words(s), gaps) == s
    decreases |s|
  {
    if Break(s) == |s| {
      gaps := if s == "" then [""] else ["", ""];
      OneWordLine(s);
    } else {
      var tail := SplitThenSpread(s[Break(s) + 1..]);
      gaps := MoreSpread(s, tail);
    }
  }

  lemma OneWordLine(s: string)
    requires Break(s) == |s|
    ensures var gaps := if s == "" then [""] else ["", ""]; Gaps(Words(s), gaps) && Spread(Words(s), gaps) == s
  {
    if s != "" {
      assert s[..|s|] == s;
      assert Words(s) == [s];
      assert Spread([s], ["", ""]) == "" + s + "";
    }
  }

  lemma MoreSpread(s: string, tail: seq<string>) returns (gaps: seq<string>)
    requires Break(s) < |s|
    requires Gaps(Words(s[Break(s) + 1..]), tail) && Spread(Words(s[Break(s) + 1..]), tail) == s[Break(s) + 1..]
    ensures Gaps(Words(s), gaps) && Spread(Words(s), gaps) == s
  {
    hide Spread, Gaps, AllBlank;
    var n := Break(s);
    var ws := Words(s[n + 1..]);
    BlankAlone(s[n]);
    gaps := JoinGap(ws, tail, [s[n]]);
    assert s == s[..n] + ([s[n]] + s[n + 1..]);
    if n == 0 {
      assert Words(s) == [] + ws == ws;
      assert s == [s[n]] + s[n + 1..];
    } else {
      FrontWord(s[..n], ws, gaps);
      gaps := [""] + gaps;
    }
  }

  lemma BlankAlone(c: char)
    requires Blank(c)
    ensures AllBlank([c])
  {
  }

  lemma FrontWord(w: string, ws: seq<string>, gaps: seq<string>)
    requires Gaps(ws, gaps) && gaps[0] != ""
    ensures Gaps([w] + ws, [""] + gaps) && Spread([w] + ws, [""] + gaps) == w + Spread(ws, gaps)
  {
    assert ([w] + ws)[1..] == ws && ([""] + gaps)[1..] == gaps;
    assert "" + w == w;
  }

  lemma JoinGap(ws: seq<string>, gaps: seq<string>, g: string) returns (r: seq<string>)
    requires Gaps(ws, gaps) && AllBlank(g) && g != ""
    ensures Gaps(ws, r) && r[0] != "" && Spread(ws, r) == g + Spread(ws, gaps)
  {
    r := [g + gaps[0]] + gaps[1..];
    if ws != [] {
      assert r[1..] == gaps[1..];
    }
  }

  /** Only a blank line has no words. */
  lemma NoWordsExactly(s: string)
    ensures Words(s) == [] <==> AllBlank(s)
  {
    if Words(s) == [] {
      var gaps := SplitThenSpread(s);
      assert s == gaps[0];
    }
    if AllBlank(s) {
      WordsAfterBlanks(s, "");
      assert s + "" == s;
    }
  }

  // ----- The program -----

  /** Cut the next piece off; None stands for the pointer that ran off the end. */
  method StrSep(input: string) returns (token: string, rest: Option<string>)
    ensures token == input[..Break(input)]
    ensures rest == if Break(input) == |input| then None else Some(input[Break(input) + 1..])
  {
    var n := 0;
    while n < |input| && !Blank(input[n])
      invariant n <= |input| && forall i :: 0 <= i < n ==> !Blank(input[i])
    {
      n := n + 1;
    }
    token := input[..n];
    rest := if n == |input| then None else Some(input[n + 1..]);
  }

  ghost function Remaining(rest: Option<string>): seq<string> {
    if rest.Some? then Words(rest.value) else []
  }

  lemma NextToken(all: seq<string>, done: seq<string>, s: string, token: string, next: Option<string>)
    requires all == done + Words(s)
    requires token == s[..Break(s)] && next == if Break(s) == |s| then None else Some(s[Break(s) + 1..])
    ensures next.Some? ==> |next.value| < |s|
    ensures token == "" ==> all == done + Remaining(next)
    ensures token != "" ==> |done| < |all| && all[|done|] == token && all == done + [token] + Remaining(next)
  {
    hide Words, Break, Remaining;
    NextWord(s, token, next);
    var more := Remaining(next);
    if token == "" {
      assert [] + more == more;
    } else {
      assert done + ([token] + more) == done + [token] + more;
    }
  }

  lemma NextWord(s: string, token: string, next: Option<string>)
    requires token == s[..Break(s)] && next == if Break(s) == |s| then None else Some(s[Break(s) + 1..])
    ensures Words(s) == (if token == "" then [] else [token]) + Remaining(next)
    ensures next.Some? ==> |next.value| < |s|
  {
  }

  class CommandStruct {
    var name: Option<string>
    var argc: nat
    const argv: array<Option<string>>
    var runsInBackground: bool
    var redirectFileName: Option<string>

    constructor (capacity: nat)
      requires capacity > 0
      ensures argv.Length == capacity && fresh(argv)
    {
      name, argc, runsInBackground, redirectFileName := None, 0, false, None;
      argv := new Option<string>[capacity](_ => None);
    }

    /** The arguments are these words, and the list ends there. */
    ghost predicate Holds(ws: seq<string>)
      reads this, argv
    {
      && argc == |ws| < argv.Length && argv[argc] == None
      && forall i :: 0 <= i < |ws| ==> argv[i] == Some(ws[i])
    }

    /** The words of the line, in order, with the list closed; or -2 as soon as the first is too long.
        The last slot written is the one after the closing None. `overrun`: the source would now write
        behind the end of argv, which it does not check; the model stops there. */
    method ParseCommand(input: string) returns (result: int, overrun: bool)
      requires argv.Length > 0
      modifies this`argc, this`name, argv
      ensures var ws := Words(input);
              if ws != [] && |ws[0]| > MAX_PROG_LENGTH then !overrun && result == -2
              else
                && (overrun <==> |ws| + 2 > argv.Length)
                && (!overrun ==> result == 1 && Holds(ws) && name == if ws == [] then None else Some(ws[0]))
    {
      hide Words, Break;
      var n := 0;
      var rest := Some(input);
      ghost var all, done: seq<string> := Words(input), [];
      assert [] + all == all;
      while rest.Some?
        invariant n == |done| <= |all| && n < argv.Length && forall i :: 0 <= i < n ==> argv[i] == Some(done[i])
        invariant all == done + Remaining(rest)
        invariant n > 0 ==> |all[0]| <= MAX_PROG_LENGTH
        decreases if rest.Some? then |rest.value| + 1 else 0
      {
        var token, next := StrSep(rest.value);
        NextToken(all, done, rest.value, token, next);
        argv[n] := Some(token);
        if n == 0 && |token| > MAX_PROG_LENGTH {
          return -2, false;
        }
        if token != "" {
          done := done + [token];
          n := n + 1;
          if n == argv.Length {
            return 0, true;
          }
          argv[n] := None;
        }
        rest := next;
      }
      assert all == done;
      argv[n] := None;
      n := n + 1;
      if n == argv.Length {
        return 0, true;
      }
      argv[n] := None;
      argc := n - 1;
      name := argv[0];
      return 1, false;
    }

    method DeleteLastArgument(ghost ws: seq<string>)
      requires Holds(ws) && ws != []
      modifies this`argc, argv
      ensures Holds(ws[..|ws| - 1])
    {
      argc := argc - 1;
      argv[argc] := None;
    }

    method CheckAndSetRunsInBackground(ghost ws: seq<string>)
      requires Holds(ws)
      modifies this`argc, this`runsInBackground, argv
      ensures Holds(Detach(ws).0) && runsInBackground == Detach(ws).1
    {
      if argc < 2 || argv[argc - 1] != Some("&") {
        runsInBackground := false;
      } else {
        DeleteLastArgument(ws);
        runsInBackground := true;
      }
    }

    method CheckAndSetRedirect(ghost ws: seq<string>)
      requires Holds(ws)
      modifies this`argc, this`redirectFileName, argv
      ensures Holds(Redirect(ws).0) && redirectFileName == Redirect(ws).1
    {
      redirectFileName := None;
      if argc >= 3 {
        if argv[argc - 2] == Some(">") {
          redirectFileName := argv[argc - 1];
          DeleteLastArgument(ws);
          DeleteLastArgument(ws[..|ws| - 1]);
          assert ws[..|ws| - 1][..|ws| - 2] == ws[..|ws| - 2];
        }
      }
    }

    /** -1 for a blank line, -2 for a name that is too long; otherwise the line's command, in place,
        provided that its words and two more entries fit in argv. */
    method ReadCommand(input: string) returns (result: int, overrun: bool)
      requires argv.Length > 0
      modifies this, argv
      ensures overrun <==> ReadLine(input).Read? && |Words(input)| + 2 > argv.Length
      ensures !overrun ==>
                match ReadLine(input)
                case BlankLine => result == -1
                case NameTooLong => result == -2
                case Read(c) => result == 1 && Holds(c.args) && c.args != [] && name == Some(c.args[0])
                                && runsInBackground == c.runsInBackground && redirectFileName == c.redirectFileName
    {
      NoWordsExactly(input);
      overrun := false;
      var blank := SpanIsAll(input);
      if !blank {
        var parsed;
        parsed, overrun := ParseCommand(input);
        if overrun {
          return 0, true;
        }
        if parsed == 1 {
          CheckAndSetRunsInBackground(Words(input));
          CheckAndSetRedirect(Detach(Words(input)).0);
          TypingUndoesInterpret(Words(input));
          return 1, false;
        } else if parsed == -2 {
          return -2, false;
        }
      }
      return -1, false;
    }
  }

  method SpanIsAll(s: string) returns (blank: bool)
    ensures blank <==> AllBlank(s)
  {
    var n := 0;
    while n < |s| && Blank(s[n])
      invariant n <= |s| && forall i :: 0 <= i < n ==> Blank(s[i])
    {
      n := n + 1;
    }
    blank := n == |s|;
  }

  /** A command typed with any blanks is read back exactly, if and only if its name is short enough and
      nothing at its end looks like a mark that is not meant. */
  lemma ParserUndoesPrinter(c: Command, gaps: seq<string>)
    requires c.args != [] && AllWords(Typed(c)) && Gaps(Typed(c), gaps)
    ensures ReadLine(Spread(Typed(c), gaps)) == Read(c) <==> |c.args[0]| <= 16 && Unambiguous(c)
  {
    SpreadThenSplit(Typed(c), gaps);
    InterpretUndoesTyping(c);
    assert Typed(c)[0] == c.args[0];
  }

  /** Every line that is read is some command typed with some blanks, and an unambiguous one. */
  lemma ReadLinesAreTyped(input: string) returns (gaps: seq<string>)
    requires ReadLine(input).Read?
    ensures var c := ReadLine(input).command;
            && c.args != [] && |c.args[0]| <= 16 && Unambiguous(c)
            && Gaps(Typed(c), gaps) && input == Spread(Typed(c), gaps)
  {
    gaps := SplitThenSpread(input);
    TypingUndoesInterpret(Words(input));
    InterpretUndoesTyping(Interpret(Words(input)));
  }

  lemma TypingUndoesInterpret(ws: seq<string>)
    requires ws != []
    ensures var c := Interpret(ws); c.args != [] && c.args[0] == ws[0] && Typed(c) == ws
  {
    var (foreground, background) := Detach(ws);
    var (args, file) := Redirect(foreground);
    assert file.Some? ==> foreground == args + [">", file.value];
    assert background ==> ws == foreground + ["&"];
  }
}
