/** Exactly where the Go lexer (splitCommandWords of
    internal/server/cloud_kubeconfig.go) and the JavaScript lexer (shellWords of
    webembed/src/app/51-connection-imports.js) agree, for every command. */
module LexerAgreement {
  import opened Text
  import opened Wrappers
  import opened ShellWords

  /** JavaScript splits here and Go does not. */
  predicate OneSided(c: char) {
    JsBlank(c) && !GoBlank(c)
  }

  /** U+0085: Go trims it at the ends, and it is no blank for either lexer. */
  predicate NextLine(c: char) {
    c == '\U{85}'
  }

  predicate Plainly(s: Lexer) {
    s.quote == Unquoted && !s.escaped
  }

  /** A character outside quotes and escapes at which only one lexer splits. */
  ghost predicate Divided(core: string) {
    exists i :: 0 <= i < |core| && Plainly(Run(START, core[..i], GoBlank)) && OneSided(core[i])
  }

  function Core(command: string): string {
    TrimSpace(JoinLines(command))
  }

  function LeftEnd(text: string): string {
    if text != "" && IsSpace(text[0]) then [text[0]] + LeftEnd(text[1..]) else ""
  }

  function RightEnd(text: string): string {
    if text != "" && IsSpace(text[|text| - 1]) then RightEnd(text[..|text| - 1]) + [text[|text| - 1]] else ""
  }

  /** What Go trims from the end of a command. */
  function Tail(command: string): string {
    RightEnd(TrimLeft(JoinLines(command)))
  }

  /** Go trims a character that JavaScript makes part of a word. */
  predicate TrimsWord(command: string) {
    (exists i :: 0 <= i < |LeftEnd(JoinLines(command))| && NextLine(LeftEnd(JoinLines(command))[i]))
    || (exists i :: 0 <= i < |Tail(command)| && NextLine(Tail(command)[i]))
  }

  /** The trimmed command ends inside quotes or after a backslash. */
  predicate Dangling(command: string) {
    !Plainly(Run(START, Core(command), GoBlank))
  }

  /** White space that Go trims completes an escape outside quotes. */
  predicate EscapedEnd(command: string) {
    var s := Run(START, Core(command), GoBlank);
    s.escaped && s.quote == Unquoted && Tail(command) != ""
  }

  // ------------------------------------------------------------ what is trimmed

  predicate AllSpace(s: string) {
    forall i :: 0 <= i < |s| ==> IsSpace(s[i])
  }

  lemma {:induction false} LeftEndSplits(text: string)
    ensures text == LeftEnd(text) + TrimLeft(text) && AllSpace(LeftEnd(text))
  {
    if text != "" && IsSpace(text[0]) { LeftEndSplits(text[1..]); }
  }

  lemma {:induction false} RightEndSplits(text: string)
    ensures text == TrimRight(text) + RightEnd(text) && AllSpace(RightEnd(text))
  {
    if text != "" && IsSpace(text[|text| - 1]) { RightEndSplits(text[..|text| - 1]); }
  }

  /** A command's text is what is trimmed around its core. */
  lemma CommandSplits(command: string)
    ensures JoinLines(command) == LeftEnd(JoinLines(command)) + (Core(command) + Tail(command))
    ensures AllSpace(LeftEnd(JoinLines(command))) && AllSpace(Tail(command))
  {
    LeftEndSplits(JoinLines(command));
    RightEndSplits(TrimLeft(JoinLines(command)));
  }

  // ------------------------------------------------- counting characters of words

  function Count(s: string, p: char -> bool): nat {
    if s == "" then 0 else Count(s[..|s| - 1], p) + if p(s[|s| - 1]) then 1 else 0
  }

  function CountWords(words: seq<string>, p: char -> bool): nat {
    if words == [] then 0 else CountWords(words[..|words| - 1], p) + Count(words[|words| - 1], p)
  }

  /** The characters of one kind in all words so far. */
  function Weight(s: Lexer, p: char -> bool): nat {
    CountWords(s.words, p) + Count(s.current, p)
  }

  lemma CountLast(s: string, c: char, p: char -> bool)
    ensures Count(s + [c], p) == Count(s, p) + if p(c) then 1 else 0
  {
    assert (s + [c])[..|s|] == s;
  }

  lemma FlushWeight(s: Lexer, p: char -> bool)
    ensures Weight(Flush(s), p) == Weight(s, p)
  {
    assert (s.words + [s.current])[..|s.words|] == s.words;
  }

  /** The step makes c part of a word. */
  predicate Appends(s: Lexer, c: char, blank: char -> bool) {
    s.escaped
    || (!(c == '\\' && s.quote != Single)
        && if s.quote != Unquoted then c != QuoteMark(s.quote) else c != '\'' && c != '"' && !blank(c))
  }

  lemma StepWeight(s: Lexer, c: char, blank: char -> bool, p: char -> bool)
    ensures Weight(Step(s, c, blank), p) == Weight(s, p) + if Appends(s, c, blank) && p(c) then 1 else 0
  {
    hide Count, CountWords;
    CountLast(s.current, c, p);
    FlushWeight(s, p);
  }

  /** How many characters of a kind only Go keeps in a word. */
  function Splits(s: Lexer, text: string, p: char -> bool): nat
    decreases |text|
  {
    if text == "" then 0
    else
      (if Plainly(s) && OneSided(text[0]) && p(text[0]) then 1 else 0) + Splits(Step(s, text[0], GoBlank), text[1..], p)
  }

  predicate SameMode(s: Lexer, t: Lexer) {
    s.quote == t.quote && s.escaped == t.escaped
  }

  /** The two lexers quote and escape alike, and JavaScript's words lack exactly
      the characters it splits at alone. */
  lemma {:induction false} RunWeight(s: Lexer, t: Lexer, text: string, p: char -> bool)
    requires SameMode(s, t)
    ensures SameMode(Run(s, text, GoBlank), Run(t, text, JsBlank))
    ensures Weight(Run(t, text, JsBlank), p) + Weight(s, p) + Splits(s, text, p)
      == Weight(Run(s, text, GoBlank), p) + Weight(t, p)
    decreases |text|
  {
    hide Weight;
    if text != "" {
      StepWeight(s, text[0], GoBlank, p);
      StepWeight(t, text[0], JsBlank, p);
      RunWeight(Step(s, text[0], GoBlank), Step(t, text[0], JsBlank), text[1..], p);
    }
  }

  /** Without such characters they take the same steps. */
  lemma {:induction false} SameRun(s: Lexer, text: string)
    requires Splits(s, text, OneSided) == 0
    ensures Run(s, text, GoBlank) == Run(s, text, JsBlank)
    decreases |text|
  {
    if text != "" {
      SameStep(s, text[0]);
      SameRun(Step(s, text[0], GoBlank), text[1..]);
    }
  }

  lemma SameStep(s: Lexer, c: char)
    requires !(Plainly(s) && OneSided(c))
    ensures Step(s, c, GoBlank) == Step(s, c, JsBlank)
  {
  }

  lemma DividedSplits(core: string)
    ensures Divided(core) <==> Splits(START, core, OneSided) > 0
  {
    SplitsSomewhere(START, "", core);
    assert "" + core == core;
    forall i | 0 <= i <= |core| ensures core[..i] == ("" + core)[..i] {}
  }

  /** Some character ahead divides. */
  ghost predicate DividedFrom(text: string, from: nat) {
    exists i :: from <= i < |text| && Plainly(Run(START, text[..i], GoBlank)) && OneSided(text[i])
  }

  lemma {:induction false} SplitsSomewhere(s: Lexer, done: string, ahead: string)
    requires s == Run(START, done, GoBlank)
    ensures Splits(s, ahead, OneSided) > 0 <==> DividedFrom(done + ahead, |done|)
    decreases |ahead|
  {
    hide Run, Step, OneSided;
    var text := done + ahead;
    if ahead != "" {
      assert done + [ahead[0]] + ahead[1..] == text && text[..|done|] == done;
      RunOne(done, ahead[0]);
      SplitsSomewhere(Step(s, ahead[0], GoBlank), done + [ahead[0]], ahead[1..]);
      if Plainly(s) && OneSided(ahead[0]) {
        assert text[|done|] == ahead[0];
        assert DividedFrom(text, |done|);
      } else if i :| |done| <= i < |text| && Plainly(Run(START, text[..i], GoBlank)) && OneSided(text[i]) {
        assert i != |done|;
      }
    }
  }

  lemma RunOne(done: string, c: char)
    ensures Run(START, done + [c], GoBlank) == Step(Run(START, done, GoBlank), c, GoBlank)
  {
    RunAppend(START, done, [c], GoBlank);
    assert [c][1..] == "";
  }

  // ---------------------------------------------------------- white space at the ends

  /** White space outside quotes adds only the characters that are no blanks. */
  lemma {:induction false} SpaceWeight(s: Lexer, space: string, p: char -> bool)
    requires AllSpace(space) && Plainly(s)
    ensures Plainly(Run(s, space, JsBlank))
    ensures (forall c :: p(c) ==> JsBlank(c)) ==> Weight(Run(s, space, JsBlank), p) == Weight(s, p)
    ensures Weight(Run(s, space, JsBlank), NextLine) >= Weight(s, NextLine)
    ensures (exists i :: 0 <= i < |space| && NextLine(space[i])) ==>
      Weight(Run(s, space, JsBlank), NextLine) > Weight(s, NextLine)
    decreases |space|
  {
    hide Weight;
    if space != "" {
      StepWeight(s, space[0], JsBlank, p);
      StepWeight(s, space[0], JsBlank, NextLine);
      SpaceStep(s, space[0]);
      SpaceWeight(Step(s, space[0], JsBlank), space[1..], p);
      if i :| 0 <= i < |space| && NextLine(space[i]) {
        if i > 0 { assert space[1..][i - 1] == space[i]; }
      }
    }
  }

  lemma SpaceStep(s: Lexer, c: char)
    requires IsSpace(c) && Plainly(s)
    ensures Plainly(Step(s, c, JsBlank))
    ensures NextLine(c) ==> Appends(s, c, JsBlank)
    ensures !NextLine(c) ==> JsBlank(c) && Step(s, c, JsBlank) == Flush(s)
  {
  }

  /** Where every character is a blank the words are only finished. */
  lemma {:induction false} BlankRun(s: Lexer, space: string)
    requires AllSpace(space) && Plainly(s) && !exists i :: 0 <= i < |space| && NextLine(space[i])
    ensures Run(s, space, JsBlank) == if space == "" then s else Flush(s)
    decreases |space|
  {
    if space != "" {
      assert !NextLine(space[0]);
      SpaceStep(s, space[0]);
      forall i | 0 <= i < |space[1..]| ensures !NextLine(space[1..][i]) {
        assert space[1..][i] == space[i + 1];
      }
      BlankRun(Flush(s), space[1..]);
    }
  }

  /** White space does not end a quote; it completes an escape outside quotes. */
  lemma {:induction false} OpenTail(s: Lexer, space: string)
    requires AllSpace(space) && !Plainly(s)
    ensures Finish(Run(s, space, JsBlank)).Ok? <==> s.escaped && s.quote == Unquoted && space != ""
    decreases |space|
  {
    if space != "" {
      assert IsSpace(space[0]);
      var t := Step(s, space[0], JsBlank);
      if s.quote == Unquoted {
        SpaceWeight(t, space[1..], NextLine);
      } else {
        OpenTail(t, space[1..]);
      }
    }
  }

  lemma FinishWeight(s: Lexer, p: char -> bool)
    requires Plainly(s)
    ensures Finish(s) == Ok(Flush(s).words) && CountWords(Flush(s).words, p) == Weight(s, p)
  {
    FlushWeight(s, p);
  }

  // ------------------------------------------------------------------ the theorem

  /** The JavaScript lexer's state before and after the trimmed tail. */
  lemma JsStates(command: string)
    ensures var u := Run(Run(START, LeftEnd(JoinLines(command)), JsBlank), Core(command), JsBlank);
      JsWords(command) == Finish(Run(u, Tail(command), JsBlank))
  {
    var left := LeftEnd(JoinLines(command));
    CommandSplits(command);
    RunAppend(START, left, Core(command) + Tail(command), JsBlank);
    RunAppend(Run(START, left, JsBlank), Core(command), Tail(command), JsBlank);
  }

  lemma GoState(command: string)
    ensures GoWords(command) ==
      if Core(command) == "" then Err(CommandRequired) else Finish(Run(START, Core(command), GoBlank))
  {
    JoinLinesSame(command);
  }

  /** A dangling command: Go refuses it, and so does JavaScript unless white
      space completes the escape. */
  lemma DanglingAgree(command: string)
    requires Core(command) != "" && Dangling(command)
    ensures GoWords(command) == JsWords(command) <==> !EscapedEnd(command)
  {
    var left := LeftEnd(JoinLines(command));
    var t := Run(START, left, JsBlank);
    CommandSplits(command);
    SpaceWeight(START, left, NextLine);
    RunWeight(START, t, Core(command), NextLine);
    JsStates(command);
    GoState(command);
    OpenTail(Run(t, Core(command), JsBlank), Tail(command));
  }

  /** The words of a finished command differ if Go trims a word character or one
      lexer splits where the other does not. */
  lemma FinishedDiffer(command: string)
    requires Core(command) != "" && !Dangling(command) && (TrimsWord(command) || Divided(Core(command)))
    ensures GoWords(command) != JsWords(command)
  {
    hide Weight, CountWords, Divided, Splits;
    var left, core := LeftEnd(JoinLines(command)), Core(command);
    var t, s := Run(START, left, JsBlank), Run(START, core, GoBlank);
    var u := Run(t, core, JsBlank);
    CommandSplits(command);
    JsStates(command);
    GoState(command);
    DividedSplits(core);
    var p := if TrimsWord(command) then NextLine else OneSided;
    SpaceWeight(START, left, OneSided);
    RunWeight(START, t, core, NextLine);
    RunWeight(START, t, core, OneSided);
    NextLineNeverSplits(START, core);
    SpaceWeight(u, Tail(command), OneSided);
    FinishWeight(s, p);
    FinishWeight(Run(u, Tail(command), JsBlank), p);
  }

  lemma {:induction false} NextLineNeverSplits(s: Lexer, text: string)
    ensures Splits(s, text, NextLine) == 0
    decreases |text|
  {
    if text != "" { NextLineNeverSplits(Step(s, text[0], GoBlank), text[1..]); }
  }

  /** Otherwise they are the same. */
  lemma FinishedSame(command: string)
    requires Core(command) != "" && !Dangling(command) && !TrimsWord(command) && !Divided(Core(command))
    ensures GoWords(command) == JsWords(command)
  {
    hide Divided;
    var left, core := LeftEnd(JoinLines(command)), Core(command);
    CommandSplits(command);
    JsStates(command);
    GoState(command);
    DividedSplits(core);
    BlankRun(START, left);
    SameRun(START, core);
    BlankRun(Run(START, core, JsBlank), Tail(command));
  }

  lemma BlankCommandDiffers(command: string)
    requires Core(command) == ""
    ensures GoWords(command) != JsWords(command)
  {
    GoState(command);
  }

  /** For every command, the two lexers give the same words or the same refusal
      exactly when the command is not blank and either stays dangling for both,
      or is finished and no character is white space for one of them only: none
      divides its core, and none that Go trims is part of a JavaScript word. */
  lemma LexersAgree(command: string)
    ensures GoWords(command) == JsWords(command) <==>
      Core(command) != "" &&
      if Dangling(command) then !EscapedEnd(command) else !TrimsWord(command) && !Divided(Core(command))
  {
    hide GoWords, JsWords, Divided, TrimsWord, Dangling, EscapedEnd;
    if Core(command) == "" {
      BlankCommandDiffers(command);
    } else if Dangling(command) {
      DanglingAgree(command);
    } else if TrimsWord(command) || Divided(Core(command)) {
      FinishedDiffer(command);
    } else {
      FinishedSame(command);
    }
  }

  const NO_BREAK := "a\U{A0}b"

  lemma NoBreakCore()
    ensures JoinLines(NO_BREAK) == NO_BREAK && Core(NO_BREAK) == NO_BREAK
  {
    hide TrimSpace;
    assert NO_BREAK[1..] == "\U{A0}b" && "\U{A0}b"[1..] == "b" && "b"[1..] == "";
    assert JoinLines("b") == "b" && JoinLines("\U{A0}b") == "\U{A0}b";
    TrimKeeps(NO_BREAK);
  }

  lemma NoBreakRun(blank: char -> bool)
    requires !blank('a') && !blank('b')
    ensures Run(START, NO_BREAK, blank) ==
      if blank('\U{A0}') then Lexer(["a"], "b", Unquoted, false) else Lexer([], NO_BREAK, Unquoted, false)
  {
    var a := Lexer([], "a", Unquoted, false);
    assert Step(START, 'a', blank) == a;
    assert NO_BREAK[1..] == "\U{A0}b" && "\U{A0}b"[1..] == "b" && "b"[1..] == "";
    var t := Step(a, '\U{A0}', blank);
    assert t == if blank('\U{A0}') then Lexer(["a"], "", Unquoted, false) else Lexer([], "a\U{A0}", Unquoted, false);
    assert Run(t, "b", blank) == Step(t, 'b', blank);
    assert Run(a, "\U{A0}b", blank) == Run(t, "b", blank);
  }

  /** A no-break space is part of a word for Go and splits for JavaScript. */
  lemma NoBreakSpaceDivides()
    ensures GoWords(NO_BREAK) == Ok([NO_BREAK]) && JsWords(NO_BREAK) == Ok(["a", "b"])
  {
    hide Run, JoinLines, Core, GoWords, JsWords, TrimSpace;
    NoBreakCore();
    GoState(NO_BREAK);
    NoBreakRun(GoBlank);
    NoBreakRun(JsBlank);
    assert Run(START, NO_BREAK, GoBlank) == Lexer([], NO_BREAK, Unquoted, false);
    assert Run(START, NO_BREAK, JsBlank) == Lexer(["a"], "b", Unquoted, false);
    FinishIs([], NO_BREAK);
    FinishIs(["a"], "b");
    JsState(NO_BREAK);
    assert GoWords(NO_BREAK) == Finish(Run(START, NO_BREAK, GoBlank));
    assert ["a"] + ["b"] == ["a", "b"] && [] + [NO_BREAK] == [NO_BREAK];
  }

  const ESCAPED_BLANK := "a\\ "

  /** White space after a backslash is a word for JavaScript, and Go trims it and
      misses it. A command of white space is no command for Go and no words for
      JavaScript. */
  lemma TrimmingDivides()
    ensures GoWords(ESCAPED_BLANK) == Err(Unfinished) && JsWords(ESCAPED_BLANK) == Ok(["a "])
    ensures GoWords(" ") == Err(CommandRequired) && JsWords(" ") == Ok([])
  {
    hide GoWords, JsWords;
    assert ESCAPED_BLANK[1..] == "\\ " && "\\ "[1..] == " " && " "[1..] == "";
    assert JoinLines(" ") == " " && JoinLines("\\ ") == "\\ " && JoinLines(ESCAPED_BLANK) == ESCAPED_BLANK;
    assert ESCAPED_BLANK[..2] == "a\\" && "a\\"[1..] == "\\" && "\\"[1..] == "";
    assert TrimLeft(ESCAPED_BLANK) == ESCAPED_BLANK && TrimRight(ESCAPED_BLANK) == "a\\" == TrimRight("a\\");
    assert Core(ESCAPED_BLANK) == "a\\" && Core(" ") == "";
    GoState(ESCAPED_BLANK);
    GoState(" ");
    JsState(ESCAPED_BLANK);
    JsState(" ");
    EscapedBlankRun();
    FinishIs([], "a ");
    assert [] + ["a "] == ["a "];
    assert Finish(Run(START, ESCAPED_BLANK, JsBlank)) == Ok(["a "]);
  }

  lemma EscapedBlankRun()
    ensures Run(START, "a\\", GoBlank) == Lexer([], "a", Unquoted, true)
    ensures Run(START, ESCAPED_BLANK, JsBlank) == Lexer([], "a ", Unquoted, false)
    ensures Run(START, " ", JsBlank) == START
  {
    var a, e := Lexer([], "a", Unquoted, false), Lexer([], "a", Unquoted, true);
    assert ESCAPED_BLANK[1..] == "\\ " && "\\ "[1..] == " " && " "[1..] == "";
    assert "a\\"[1..] == "\\" && "\\"[1..] == "";
    assert Step(START, 'a', GoBlank) == a == Step(START, 'a', JsBlank);
    assert Step(a, '\\', GoBlank) == e == Step(a, '\\', JsBlank);
    assert Run(a, "\\", GoBlank) == e;
    assert Run(e, " ", JsBlank) == Step(e, ' ', JsBlank) == Lexer([], "a ", Unquoted, false);
    assert Run(a, "\\ ", JsBlank) == Run(e, " ", JsBlank);
    assert Run(START, " ", JsBlank) == Step(START, ' ', JsBlank);
  }

  lemma FinishIs(words: seq<string>, current: string)
    requires current != ""
    ensures Finish(Lexer(words, current, Unquoted, false)) == Ok(words + [current])
  {
  }

  lemma JsState(command: string)
    ensures JsWords(command) == Finish(Run(START, JoinLines(command), JsBlank))
  {
  }
}
