/** Shell words: the lexers splitCommandWords (internal/server/cloud_kubeconfig.go)
    and shellWords (webembed/src/app/51-connection-imports.js), and the quoters
    commandShellQuote (same file) and shellQuote (internal/sshx/ssh.go). */
module ShellWords {
  import opened Text
  import opened Sorting
  import opened Wrappers

  datatype LexError = CommandRequired | Unfinished
  type Words = Result<seq<string>, LexError>

  // ------------------------------------------------------------------- lexing

  datatype Quote = Unquoted | Single | Double
  datatype Lexer = Lexer(words: seq<string>, current: string, quote: Quote, escaped: bool)

  /** The separators of the Go lexer. */
  predicate GoBlank(c: char) {
    c in {' ', '\t', '\r', '\n'}
  }

  /** The class \s of JavaScript regular expressions. */
  predicate JsBlank(c: char) {
    c == '\U{FEFF}' || (IsSpace(c) && c != '\U{85}')
  }

  function Flush(s: Lexer): Lexer {
    if s.current == "" then s else s.(words := s.words + [s.current], current := "")
  }

  function QuoteMark(q: Quote): char
    requires q != Unquoted
  {
    if q.Single? then '\'' else '"'
  }

  function Step(s: Lexer, c: char, blank: char -> bool): Lexer {
    if s.escaped then s.(current := s.current + [c], escaped := false)
    else if c == '\\' && s.quote != Single then s.(escaped := true)
    else if s.quote != Unquoted then
      if c == QuoteMark(s.quote) then s.(quote := Unquoted) else s.(current := s.current + [c])
    else if c == '\'' then s.(quote := Single)
    else if c == '"' then s.(quote := Double)
    else if blank(c) then Flush(s)
    else s.(current := s.current + [c])
  }

  function Run(s: Lexer, text: string, blank: char -> bool): Lexer
    decreases |text|
  {
    if text == "" then s else Run(Step(s, text[0], blank), text[1..], blank)
  }

  function Finish(s: Lexer): Words {
    if s.escaped || s.quote != Unquoted then Err(Unfinished) else Ok(Flush(s).words)
  }

  const START := Lexer([], "", Unquoted, false)

  /** strings.ReplaceAll */
  function ReplaceAll(s: string, find: string, put: string): string
    requires find != ""
    decreases |s|
  {
    if s == "" then ""
    else if HasPrefix(s, find) then put + ReplaceAll(s[|find|..], find, put)
    else [s[0]] + ReplaceAll(s[1..], find, put)
  }

  /** Line continuations in Go: two replacements, one after the other. */
  function GoJoinLines(s: string): string {
    ReplaceAll(ReplaceAll(s, "\\\r\n", " "), "\\\n", " ")
  }

  predicate LfAt(s: string) {
    |s| >= 2 && s[0] == '\\' && s[1] == '\n'
  }

  predicate CrLfAt(s: string) {
    |s| >= 3 && s[0] == '\\' && s[1] == '\r' && s[2] == '\n'
  }

  /** Line continuations in JavaScript: one pass with an optional CR. */
  function JoinLines(s: string): string {
    if s == "" then ""
    else if LfAt(s) then " " + JoinLines(s[2..])
    else if CrLfAt(s) then " " + JoinLines(s[3..])
    else [s[0]] + JoinLines(s[1..])
  }

  function GoWords(command: string): Words {
    var text := TrimSpace(GoJoinLines(command));
    if text == "" then Err(CommandRequired) else Finish(Run(START, text, GoBlank))
  }

  function JsWords(command: string): Words {
    Finish(Run(START, JoinLines(command), JsBlank))
  }

  /** splitCommandWords */
  method SplitCommandWords(command: string) returns (r: Words)
    ensures r == GoWords(command)
  {
    var text := TrimSpace(ReplaceAll(ReplaceAll(command, "\\\r\n", " "), "\\\n", " "));
    if text == "" { return Err(CommandRequired); }
    var words: seq<string>, current := [], "";
    var quote, escaped := Unquoted, false;
    for i := 0 to |text|
      invariant Run(START, text, GoBlank) == Run(Lexer(words, current, quote, escaped), text[i..], GoBlank)
    {
      var character := text[i];
      if escaped {
        current := current + [character];
        escaped := false;
      } else if character == '\\' && quote != Single {
        escaped := true;
      } else if quote != Unquoted {
        if character == QuoteMark(quote) { quote := Unquoted; } else { current := current + [character]; }
      } else if character == '\'' || character == '"' {
        quote := if character == '\'' then Single else Double;
      } else if character == ' ' || character == '\t' || character == '\r' || character == '\n' {
        if |current| > 0 { words, current := words + [current], ""; }
      } else {
        current := current + [character];
      }
      assert text[i..][1..] == text[i + 1..];
    }
    if escaped || quote != Unquoted { return Err(Unfinished); }
    if |current| > 0 { words := words + [current]; }
    return Ok(words);
  }

  /** shellWords */
  method ShellWords(command: string) returns (r: Words)
    ensures r == JsWords(command)
  {
    var text := JoinLines(command);
    var words: seq<string>, current := [], "";
    var quote, escaped := Unquoted, false;
    for i := 0 to |text|
      invariant Run(START, text, JsBlank) == Run(Lexer(words, current, quote, escaped), text[i..], JsBlank)
    {
      var character := text[i];
      if escaped {
        current := current + [character];
        escaped := false;
      } else if character == '\\' && quote != Single {
        escaped := true;
      } else if quote != Unquoted {
        if character == QuoteMark(quote) { quote := Unquoted; } else { current := current + [character]; }
      } else if character == '\'' || character == '"' {
        quote := if character == '\'' then Single else Double;
      } else if JsBlank(character) {
        if current != "" { words, current := words + [current], ""; }
      } else {
        current := current + [character];
      }
      assert text[i..][1..] == text[i + 1..];
    }
    if escaped || quote != Unquoted { return Err(Unfinished); }
    if current != "" { words := words + [current]; }
    return Ok(words);
  }

  // ------------------------------------------------------------------ quoting

  predicate SafeChar(c: char) {
    'A' <= c <= 'Z' || 'a' <= c <= 'z' || '0' <= c <= '9' || c in {'_', '.', '/', ':', '@', '~', '+', '=', ',', '-'}
  }

  predicate SafeText(s: string) {
    s != "" && forall i :: 0 <= i < |s| ==> SafeChar(s[i])
  }

  /** Words of letters, digits and the characters that no shell minds stay as they
      are, and all others are put in quotes. */
  lemma QuotesOnlyIfNeeded(s: string)
    ensures CommandShellQuote(s) == s <==>
      s != "" && forall i :: 0 <= i < |s| ==>
        'A' <= s[i] <= 'Z' || 'a' <= s[i] <= 'z' || '0' <= s[i] <= '9' || s[i] in "_./:@~+=,-"
  {
    assert forall i :: 0 <= i < |s| ==> (SafeChar(s[i]) <==>
      'A' <= s[i] <= 'Z' || 'a' <= s[i] <= 'z' || '0' <= s[i] <= '9' || s[i] in "_./:@~+=,-");
    QuotingGrows(s, JS_MARK);
  }

  lemma {:induction false} ReplacingGrows(s: string, put: string)
    requires put != ""
    ensures |ReplaceAll(s, "'", put)| >= |s|
  {
    if s != "" { ReplacingGrows(s[1..], put); }
  }

  lemma QuotingGrows(s: string, mark: string)
    requires mark != ""
    ensures |QuoteWith(s, mark)| > |s|
  {
    ReplacingGrows(s, mark);
  }

  function QuoteWith(s: string, mark: string): string {
    "'" + ReplaceAll(s, "'", mark) + "'"
  }

  const JS_MARK := "'\\''"
  const GO_MARK := "'\"'\"'"

  /** commandShellQuote */
  function CommandShellQuote(s: string): string {
    if SafeText(s) then s else QuoteWith(s, JS_MARK)
  }

  /** shellQuote */
  function ShellQuote(s: string): string {
    QuoteWith(s, GO_MARK)
  }

  // --------------------------------- the two ways of joining lines are the same

  lemma {:induction false} JoinLinesSame(s: string)
    ensures GoJoinLines(s) == JoinLines(s)
  {
    if s != "" {
      var t := ReplaceAll(s, "\\\r\n", " ");
      if CrLfAt(s) {
        assert s[..3] == "\\\r\n";
        JoinLinesSame(s[3..]);
        assert t[1..] == ReplaceAll(s[3..], "\\\r\n", " ");
        assert t[0] == ' ';
        assert !HasPrefix(t, "\\\n") by { if |t| >= 2 { assert t[..2][0] == ' '; } }
      } else {
        assert !HasPrefix(s, "\\\r\n") by {
          if |s| >= 3 { assert s[..3][0] == s[0] && s[..3][1] == s[1] && s[..3][2] == s[2]; }
        }
        var u := ReplaceAll(s[1..], "\\\r\n", " ");
        assert t == [s[0]] + u && t[1..] == u;
        if LfAt(s) {
          assert s[1..][0] == '\n';
          assert !HasPrefix(s[1..], "\\\r\n") by { if |s[1..]| >= 3 { assert s[1..][..3][0] == '\n'; } }
          assert s[1..][1..] == s[2..];
          assert t[..2] == "\\\n" && t[2..] == ReplaceAll(s[2..], "\\\r\n", " ");
          JoinLinesSame(s[2..]);
        } else {
          JoinLinesSame(s[1..]);
          assert !HasPrefix(t, "\\\n") by {
            if |t| >= 2 { assert t[..2][0] == s[0] && t[..2][1] == u[0]; FirstReplaced(s[1..]); }
          }
        }
      }
    }
  }

  lemma FirstReplaced(s: string)
    requires s != ""
    ensures var u := ReplaceAll(s, "\\\r\n", " "); u != "" && (u[0] == s[0] || u[0] == ' ')
  {
  }

  // ------------------------------------------------------- quoted text, lexed

  /** One part of a command line: bare text that no lexer treats specially, or
      text in single quotes with embedded quotes spelt by the mark. */
  datatype Part = Bare(text: string) | Quoted(text: string, mark: string)

  function Render(p: Part): string {
    match p
    case Bare(text) => text
    case Quoted(text, mark) => QuoteWith(text, mark)
  }

  function RenderAll(ps: seq<Part>): seq<string> {
    seq(|ps|, i requires 0 <= i < |ps| => Render(ps[i]))
  }

  predicate PlainChar(c: char) {
    !IsSpace(c) && !JsBlank(c) && c !in {'\'', '"', '\\'}
  }

  predicate Good(p: Part) {
    match p
    case Bare(text) => text != "" && forall i :: 0 <= i < |text| ==> PlainChar(text[i])
    case Quoted(_, mark) => mark == JS_MARK || mark == GO_MARK
  }

  ghost predicate AllGood(ps: seq<Part>) {
    forall i :: 0 <= i < |ps| ==> Good(ps[i])
  }

  /** The part that is left once line continuations are joined. */
  function Joined(p: Part): Part {
    match p
    case Bare(text) => p
    case Quoted(text, mark) => Quoted(JoinLines(text), mark)
  }

  function JoinedAll(ps: seq<Part>): seq<Part> {
    if ps == [] then [] else [Joined(ps[0])] + JoinedAll(ps[1..])
  }

  /** The parts rendered and separated by single blanks. */
  function CommandText(ps: seq<Part>): string {
    if ps == [] then ""
    else if |ps| == 1 then Render(ps[0])
    else Render(ps[0]) + " " + CommandText(ps[1..])
  }

  lemma {:induction false} CommandTextIsJoin(ps: seq<Part>)
    ensures CommandText(ps) == Join(RenderAll(ps), " ")
  {
    if |ps| > 1 {
      CommandTextIsJoin(ps[1..]);
      assert RenderAll(ps)[1..] == RenderAll(ps[1..]);
    }
  }

  function WordOf(p: Part): seq<string> {
    if p.text == "" then [] else [p.text]
  }

  /** The words the parts stand for: empty ones vanish. */
  function WordsOf(ps: seq<Part>): seq<string> {
    if ps == [] then []
    else WordOf(ps[0]) + WordsOf(ps[1..])
  }

  lemma JoinCons(c: char, rest: string)
    requires c != '\\' || (!LfAt([c] + rest) && !CrLfAt([c] + rest))
    ensures JoinLines([c] + rest) == [c] + JoinLines(rest)
  {
    assert ([c] + rest)[1..] == rest;
  }

  lemma Regroup(a: string, b: string, c: string)
    ensures (a + b) + c == a + (b + c)
  {
  }

  lemma {:induction false} JoinPlain(text: string, rest: string)
    requires forall i :: 0 <= i < |text| ==> text[i] != '\\'
    ensures JoinLines(text + rest) == text + JoinLines(rest)
  {
    hide JoinLines;
    if text == "" {
      assert text + rest == rest;
    } else {
      JoinPlain(text[1..], rest);
      assert text == [text[0]] + text[1..];
      JoinCons(text[0], text[1..] + rest);
      Regroup([text[0]], text[1..], rest);
      Regroup([text[0]], text[1..], JoinLines(rest));
    }
  }

  function Escape(s: string, mark: string): string {
    ReplaceAll(s, "'", mark)
  }

  lemma EscapeCons(c: char, rest: string, mark: string)
    ensures Escape([c] + rest, mark) == (if c == '\'' then mark else [c]) + Escape(rest, mark)
  {
    var s := [c] + rest;
    assert s[..1] == [c] && s[1..] == rest;
  }

  lemma JoinMark(mark: string, rest: string)
    requires mark == JS_MARK || mark == GO_MARK
    ensures JoinLines(mark + rest) == mark + JoinLines(rest)
  {
    if mark == GO_MARK {
      JoinPlain(mark, rest);
    } else {
      JoinPlain("''", rest);
      JoinCons('\\', "''" + rest);
      JoinCons('\'', "\\" + ("''" + rest));
      assert mark + rest == "'" + ("\\" + ("''" + rest));
    }
  }

  predicate Closing(tail: string) {
    tail != "" && tail[0] == '\''
  }

  /** Escaping does not change what a backslash is followed by, as far as line
      continuations are concerned. */
  lemma EscapeHead(s: string, mark: string, tail: string)
    requires (mark == JS_MARK || mark == GO_MARK) && Closing(tail)
    ensures var e := Escape(s, mark) + tail;
      && e != "" && e[0] == (if s == "" then '\'' else s[0])
      && (s != "" && s[0] != '\'' ==> e == [s[0]] + (Escape(s[1..], mark) + tail))
  {
    if s != "" {
      assert s == [s[0]] + s[1..];
      EscapeCons(s[0], s[1..], mark);
    }
  }

  lemma EscapeContinuations(s: string, mark: string, tail: string)
    requires (mark == JS_MARK || mark == GO_MARK) && Closing(tail)
    requires s != "" && s[0] == '\\'
    ensures LfAt(Escape(s, mark) + tail) <==> LfAt(s)
    ensures CrLfAt(Escape(s, mark) + tail) <==> CrLfAt(s)
    ensures LfAt(s) ==> (Escape(s, mark) + tail)[2..] == Escape(s[2..], mark) + tail
    ensures CrLfAt(s) ==> (Escape(s, mark) + tail)[3..] == Escape(s[3..], mark) + tail
  {
    EscapeHead(s, mark, tail);
    var t := s[1..];
    EscapeHead(t, mark, tail);
    if t != "" && t[0] != '\'' {
      assert t[1..] == s[2..];
      EscapeHead(t[1..], mark, tail);
      if t[1..] != "" { assert t[1..][1..] == s[3..]; }
    }
  }

  lemma JoinEscapedBreak(s: string, mark: string, tail: string)
    requires (mark == JS_MARK || mark == GO_MARK) && Closing(tail)
    requires LfAt(s) || CrLfAt(s)
    ensures var rest := if LfAt(s) then s[2..] else s[3..];
      && JoinLines(s) == " " + JoinLines(rest)
      && JoinLines(Escape(s, mark) + tail) == " " + JoinLines(Escape(rest, mark) + tail)
  {
    EscapeContinuations(s, mark, tail);
  }

  lemma {:induction false} JoinEscaped(s: string, mark: string, tail: string)
    requires (mark == JS_MARK || mark == GO_MARK) && Closing(tail)
    ensures JoinLines(Escape(s, mark) + tail) == Escape(JoinLines(s), mark) + JoinLines(tail)
    decreases |s|
  {
    if s == "" {
      assert Escape(s, mark) + tail == tail;
    } else if LfAt(s) || CrLfAt(s) {
      var rest := if LfAt(s) then s[2..] else s[3..];
      JoinEscaped(rest, mark, tail);
      JoinEscapedBreak(s, mark, tail);
      EscapeCons(' ', JoinLines(rest), mark);
      Regroup(" ", Escape(JoinLines(rest), mark), JoinLines(tail));
    } else {
      JoinEscaped(s[1..], mark, tail);
      JoinEscapedHead(s, mark, tail);
      EscapeCons(s[0], JoinLines(s[1..]), mark);
      Regroup(if s[0] == '\'' then mark else [s[0]], Escape(JoinLines(s[1..]), mark), JoinLines(tail));
    }
  }

  lemma JoinEscapedHead(s: string, mark: string, tail: string)
    requires (mark == JS_MARK || mark == GO_MARK) && Closing(tail)
    requires s != "" && !LfAt(s) && !CrLfAt(s)
    ensures JoinLines(Escape(s, mark) + tail)
      == (if s[0] == '\'' then mark else [s[0]]) + JoinLines(Escape(s[1..], mark) + tail)
  {
    var rest := Escape(s[1..], mark) + tail;
    assert s == [s[0]] + s[1..];
    EscapeCons(s[0], s[1..], mark);
    if s[0] == '\'' {
      JoinMark(mark, rest);
      assert Escape(s, mark) + tail == mark + rest;
    } else {
      if s[0] == '\\' { EscapeContinuations(s, mark, tail); }
      assert Escape(s, mark) + tail == [s[0]] + rest;
      JoinCons(s[0], rest);
    }
  }

  /** Joining lines works part by part. */
  lemma JoinPart(p: Part, rest: string)
    requires Good(p)
    ensures JoinLines(Render(p) + rest) == Render(Joined(p)) + JoinLines(rest)
  {
    match p
    case Bare(text) => JoinPlain(text, rest);
    case Quoted(text, mark) =>
      var e := Escape(text, mark) + ("'" + rest);
      assert Render(p) + rest == "'" + e;
      JoinCons('\'', e);
      JoinCons('\'', rest);
      JoinEscaped(text, mark, "'" + rest);
  }

  lemma JoinedTail(ps: seq<Part>)
    requires ps != []
    ensures JoinedAll(ps)[1..] == JoinedAll(ps[1..]) && JoinedAll(ps)[0] == Joined(ps[0]) && |JoinedAll(ps)| == |ps|
  {
    if |ps| > 1 { JoinedTail(ps[1..]); }
  }

  lemma {:induction false} JoinCommand(ps: seq<Part>)
    requires AllGood(ps)
    ensures JoinLines(CommandText(ps)) == CommandText(JoinedAll(ps))
  {
    if ps != [] {
      JoinedTail(ps);
      if |ps| == 1 {
        JoinPart(ps[0], "");
        assert Render(ps[0]) + "" == Render(ps[0]);
      } else {
        var rest := CommandText(ps[1..]);
        JoinCommand(ps[1..]);
        JoinPart(ps[0], " " + rest);
        JoinCons(' ', rest);
        Regroup(Render(ps[0]), " ", rest);
        Regroup(Render(Joined(ps[0])), " ", CommandText(JoinedAll(ps[1..])));
      }
    }
  }

  /** A blank predicate both lexers are instances of, as far as parts matter. */
  ghost predicate LexerBlank(blank: char -> bool) {
    blank(' ') && forall c :: PlainChar(c) ==> !blank(c)
  }

  lemma {:induction false} RunAppend(s: Lexer, a: string, b: string, blank: char -> bool)
    ensures Run(s, a + b, blank) == Run(Run(s, a, blank), b, blank)
    decreases |a|
  {
    if a == "" {
      assert a + b == b;
    } else {
      RunAppend(Step(s, a[0], blank), a[1..], b, blank);
      assert (a + b)[1..] == a[1..] + b;
    }
  }

  lemma {:induction false} RunPlain(s: Lexer, text: string, blank: char -> bool)
    requires LexerBlank(blank) && s.quote == Unquoted && !s.escaped
    requires forall i :: 0 <= i < |text| ==> PlainChar(text[i])
    ensures Run(s, text, blank) == s.(current := s.current + text)
    decreases |text|
  {
    if text != "" {
      RunPlain(s.(current := s.current + [text[0]]), text[1..], blank);
      assert s.current + [text[0]] + text[1..] == s.current + text;
    } else {
      assert s.current + text == s.current;
    }
  }

  lemma RunMark(s: Lexer, mark: string, blank: char -> bool)
    requires (mark == JS_MARK || mark == GO_MARK) && s.quote == Single && !s.escaped
    ensures Run(s, mark, blank) == s.(current := s.current + "'")
  {
    if mark == JS_MARK {
      var a := s.(quote := Unquoted);
      var b := s.(quote := Unquoted, escaped := true);
      var c := s.(quote := Unquoted, current := s.current + "'");
      assert Step(s, '\'', blank) == a && Step(a, '\\', blank) == b && Step(b, '\'', blank) == c;
      assert mark[1..][1..][1..] == "'";
      assert Run(c, "'", blank) == c.(quote := Single);
      assert Run(s, mark, blank) == Run(a, mark[1..], blank);
      assert Run(a, mark[1..], blank) == Run(b, mark[1..][1..], blank);
    } else {
      var a := s.(quote := Unquoted);
      var b := s.(quote := Double);
      var c := s.(quote := Double, current := s.current + "'");
      var d := s.(quote := Unquoted, current := s.current + "'");
      assert mark[1..][1..][1..][1..] == "'";
      assert Run(s, mark, blank) == Run(a, mark[1..], blank);
      assert Run(a, mark[1..], blank) == Run(b, mark[1..][1..], blank);
      assert Run(b, mark[1..][1..], blank) == Run(c, mark[1..][1..][1..], blank);
      assert Run(c, mark[1..][1..][1..], blank) == Run(d, "'", blank);
      assert Run(d, "'", blank) == d.(quote := Single);
    }
  }

  lemma {:induction false} RunEscaped(s: Lexer, text: string, mark: string, blank: char -> bool)
    requires (mark == JS_MARK || mark == GO_MARK) && s.quote == Single && !s.escaped
    ensures Run(s, Escape(text, mark), blank) == s.(current := s.current + text)
    decreases |text|
  {
    if text == "" {
      assert s.current + text == s.current;
    } else {
      var s' := s.(current := s.current + [text[0]]);
      assert text == [text[0]] + text[1..];
      EscapeCons(text[0], text[1..], mark);
      RunEscaped(s', text[1..], mark, blank);
      assert s.current + [text[0]] + text[1..] == s.current + text;
      if text[0] == '\'' {
        RunMark(s, mark, blank);
        RunAppend(s, mark, Escape(text[1..], mark), blank);
      } else {
        assert ([text[0]] + Escape(text[1..], mark))[1..] == Escape(text[1..], mark);
        assert Step(s, text[0], blank) == s';
      }
    }
  }

  /** A rendered part adds its text to the current word. */
  lemma RunPart(s: Lexer, p: Part, blank: char -> bool)
    requires LexerBlank(blank) && s.quote == Unquoted && !s.escaped && Good(p)
    ensures Run(s, Render(p), blank) == s.(current := s.current + p.text)
  {
    match p
    case Bare(text) => RunPlain(s, text, blank);
    case Quoted(text, mark) =>
      var q := s.(quote := Single);
      var e := Escape(text, mark);
      assert Render(p) == "'" + (e + "'");
      assert ("'" + (e + "'"))[1..] == e + "'";
      assert Run(s, Render(p), blank) == Run(q, e + "'", blank);
      RunAppend(q, e, "'", blank);
      RunEscaped(q, text, mark, blank);
  }

  function At(words: seq<string>): Lexer {
    Lexer(words, "", Unquoted, false)
  }

  lemma RunBlank(t: Lexer, rest: string, blank: char -> bool)
    requires LexerBlank(blank) && t.quote == Unquoted && !t.escaped
    ensures Run(t, " " + rest, blank) == Run(Flush(t), rest, blank)
  {
    assert (" " + rest)[1..] == rest;
  }

  lemma RunFirst(words: seq<string>, p: Part, rest: string, blank: char -> bool)
    requires LexerBlank(blank) && Good(p)
    ensures Run(At(words), Render(p) + " " + rest, blank) == Run(At(words + WordOf(p)), rest, blank)
  {
    hide Run, Step, Render, Good;
    RunPart(At(words), p, blank);
    assert "" + p.text == p.text;
    RunAppend(At(words), Render(p), " " + rest, blank);
    Regroup(Render(p), " ", rest);
    RunBlank(Lexer(words, p.text, Unquoted, false), rest, blank);
    assert words + [] == words;
  }

  lemma RunLast(words: seq<string>, p: Part, blank: char -> bool)
    requires LexerBlank(blank) && Good(p)
    ensures Finish(Run(At(words), Render(p), blank)) == Ok(words + WordOf(p))
  {
    RunPart(At(words), p, blank);
    assert "" + p.text == p.text;
    assert words + [] == words;
  }

  lemma RunNothing(words: seq<string>, blank: char -> bool)
    ensures Finish(Run(At(words), "", blank)) == Ok(words)
  {
  }

  lemma WordsOfLast(p: Part)
    ensures WordsOf([p]) == WordOf(p)
  {
    assert [p][1..] == [];
  }

  lemma {:induction false} RunCommand(ps: seq<Part>, words: seq<string>, blank: char -> bool)
    requires LexerBlank(blank) && AllGood(ps)
    ensures Finish(Run(At(words), CommandText(ps), blank)) == Ok(words + WordsOf(ps))
    decreases |ps|
  {
    hide Run, Step, Render, Good, Finish, WordOf, LexerBlank;
    if ps == [] {
      RunNothing(words, blank);
      assert words + [] == words;
    } else if |ps| == 1 {
      assert ps == [ps[0]];
      RunLast(words, ps[0], blank);
      WordsOfLast(ps[0]);
    } else {
      RunFirst(words, ps[0], CommandText(ps[1..]), blank);
      RunCommand(ps[1..], words + WordOf(ps[0]), blank);
      assert WordsOf(ps) == WordOf(ps[0]) + WordsOf(ps[1..]);
      assert (words + WordOf(ps[0])) + WordsOf(ps[1..]) == words + (WordOf(ps[0]) + WordsOf(ps[1..]));
    }
  }

  // -------------------------------------------------- nothing for Go to trim

  lemma RenderEnds(p: Part)
    requires Good(p)
    ensures var t := Render(p); t != "" && !IsSpace(t[0]) && !IsSpace(t[|t| - 1])
  {
  }

  lemma {:induction false} CommandEnds(ps: seq<Part>)
    requires ps != [] && AllGood(ps)
    ensures var t := CommandText(ps); t != "" && !IsSpace(t[0]) && !IsSpace(t[|t| - 1])
  {
    RenderEnds(ps[0]);
    if |ps| > 1 { CommandEnds(ps[1..]); }
  }

  lemma {:induction false} JoinedGood(ps: seq<Part>)
    requires AllGood(ps)
    ensures AllGood(JoinedAll(ps)) && (ps != [] ==> JoinedAll(ps) != [])
  {
    if ps != [] { JoinedGood(ps[1..]); }
  }

  // ------------------------------------------------------------- main theorems

  /** The words a rendered command stands for. */
  function Meant(ps: seq<Part>): seq<string> {
    WordsOf(JoinedAll(ps))
  }

  /** The JavaScript lexer undoes rendering, for every command of good parts. */
  lemma JsLexesParts(ps: seq<Part>)
    requires AllGood(ps)
    ensures JsWords(Join(RenderAll(ps), " ")) == Ok(Meant(ps))
  {
    CommandTextIsJoin(ps);
    JoinCommand(ps);
    JoinedGood(ps);
    RunCommand(JoinedAll(ps), [], JsBlank);
    assert [] + Meant(ps) == Meant(ps);
  }

  /** So does the Go lexer, which refuses a blank command. */
  lemma GoLexesParts(ps: seq<Part>)
    requires AllGood(ps)
    ensures GoWords(Join(RenderAll(ps), " ")) == if ps == [] then Err(CommandRequired) else Ok(Meant(ps))
  {
    var command := CommandText(ps);
    CommandTextIsJoin(ps);
    JoinLinesSame(command);
    JoinCommand(ps);
    JoinedGood(ps);
    if ps != [] {
      CommandEnds(JoinedAll(ps));
      TrimKeeps(JoinLines(command));
      RunCommand(JoinedAll(ps), [], GoBlank);
      assert [] + Meant(ps) == Meant(ps);
    }
  }

  /** Somewhere a backslash stands directly before a line break. */
  predicate HasContinuation(s: string) {
    s != "" && (LfAt(s) || CrLfAt(s) || HasContinuation(s[1..]))
  }

  /** Joining lines changes exactly the texts with a continuation, and shortens
      them. */
  lemma {:induction false} JoinLinesExact(s: string)
    ensures |JoinLines(s)| <= |s|
    ensures HasContinuation(s) <==> |JoinLines(s)| < |s|
    ensures !HasContinuation(s) <==> JoinLines(s) == s
    ensures s == "" <==> JoinLines(s) == ""
    decreases |s|
  {
    if s == "" {
    } else if LfAt(s) {
      JoinLinesExact(s[2..]);
    } else if CrLfAt(s) {
      JoinLinesExact(s[3..]);
    } else {
      JoinLinesExact(s[1..]);
      assert s == [s[0]] + s[1..];
    }
  }

  /** The parts commandShellQuote makes of words. */
  function JsParts(words: seq<string>): seq<Part> {
    seq(|words|, i requires 0 <= i < |words| => if SafeText(words[i]) then Bare(words[i])
      else Quoted(words[i], JS_MARK))
  }

  function QuoteAll(words: seq<string>): seq<string> {
    seq(|words|, i requires 0 <= i < |words| => CommandShellQuote(words[i]))
  }

  /** The command line that the browser builds from words. */
  function QuotedCommand(words: seq<string>): string {
    Join(QuoteAll(words), " ")
  }

  lemma JsPartsRender(words: seq<string>)
    ensures AllGood(JsParts(words)) && RenderAll(JsParts(words)) == QuoteAll(words)
  {
    forall i | 0 <= i < |words| ensures Good(JsParts(words)[i]) {
      forall j | 0 <= j < |words[i]| && SafeText(words[i]) ensures PlainChar(words[i][j]) {
        assert SafeChar(words[i][j]);
      }
    }
  }

  /** The words a lexer returns for the words that were quoted: continuations
      are joined and empty words vanish. */
  function Surviving(words: seq<string>): seq<string> {
    if words == [] then []
    else (if words[0] == "" then [] else [JoinLines(words[0])]) + Surviving(words[1..])
  }

  lemma {:induction false} MeantIsSurviving(words: seq<string>)
    ensures Meant(JsParts(words)) == Surviving(words)
  {
    if words != [] {
      JoinedTail(JsParts(words));
      assert JsParts(words)[1..] == JsParts(words[1..]);
      MeantIsSurviving(words[1..]);
      JoinLinesExact(words[0]);
      if SafeText(words[0]) {
        assert forall i :: 0 <= i < |words[0]| ==> SafeChar(words[0][i]);
        JoinPlain(words[0], "");
        assert words[0] + "" == words[0];
      }
    }
  }

  predicate Intact(word: string) {
    word != "" && !HasContinuation(word)
  }

  lemma {:induction false} SurvivingExact(words: seq<string>)
    ensures |Surviving(words)| <= |words|
    ensures Surviving(words) == words <==> forall i :: 0 <= i < |words| ==> Intact(words[i])
  {
    if words != [] {
      SurvivingExact(words[1..]);
      JoinLinesExact(words[0]);
      assert words == [words[0]] + words[1..];
      if words[0] != "" {
        assert Surviving(words)[0] == JoinLines(words[0]) && Surviving(words)[1..] == Surviving(words[1..]);
      }
    }
  }

  /** Quoting and lexing, for every list of words: what comes back, in both
      lexers, and exactly when it is the list itself. */
  lemma QuoteLexInverse(words: seq<string>)
    ensures JsWords(QuotedCommand(words)) == Ok(Surviving(words))
    ensures GoWords(QuotedCommand(words)) == if words == [] then Err(CommandRequired) else Ok(Surviving(words))
    ensures JsWords(QuotedCommand(words)) == Ok(words) <==> forall i :: 0 <= i < |words| ==> Intact(words[i])
    ensures GoWords(QuotedCommand(words)) == Ok(words)
      <==> words != [] && forall i :: 0 <= i < |words| ==> Intact(words[i])
  {
    JsPartsRender(words);
    JsLexesParts(JsParts(words));
    GoLexesParts(JsParts(words));
    MeantIsSurviving(words);
    SurvivingExact(words);
  }

  // ------------------------------------------------------- the remote command

  function Binding(environment: map<string, string>, key: string): string {
    key + "=" + if key in environment then environment[key] else ""
  }

  function Bindings(environment: map<string, string>, keys: seq<string>): seq<string> {
    seq(|keys|, i requires 0 <= i < |keys| => Binding(environment, keys[i]))
  }

  /** The words remoteCommand is given: env with its sorted bindings, then the
      arguments. */
  ghost function RemoteWords(environment: map<string, string>, args: seq<string>): seq<string> {
    (if environment == map[] then [] else ["env"] + Bindings(environment, SortedKeys(environment.Keys))) + args
  }

  function ShellQuoteAll(words: seq<string>): seq<string> {
    seq(|words|, i requires 0 <= i < |words| => ShellQuote(words[i]))
  }

  ghost function RemoteText(environment: map<string, string>, args: seq<string>): string {
    Join((if environment == map[] then []
      else ["env"] + ShellQuoteAll(Bindings(environment, SortedKeys(environment.Keys))))
         + ShellQuoteAll(args), " ")
  }

  method QuoteBindings(environment: map<string, string>, keys: seq<string>) returns (parts: seq<string>)
    requires forall k :: k in keys ==> k in environment
    ensures parts == ShellQuoteAll(Bindings(environment, keys))
  {
    parts := [];
    for i := 0 to |keys|
      invariant |parts| == i
      invariant forall j :: 0 <= j < i ==> parts[j] == ShellQuote(Binding(environment, keys[j]))
    {
      parts := parts + [ShellQuote(keys[i] + "=" + environment[keys[i]])];
    }
  }

  method QuoteArguments(args: seq<string>) returns (parts: seq<string>)
    ensures parts == ShellQuoteAll(args)
  {
    parts := [];
    for i := 0 to |args|
      invariant |parts| == i
      invariant forall j :: 0 <= j < i ==> parts[j] == ShellQuote(args[j])
    {
      parts := parts + [ShellQuote(args[i])];
    }
  }

  method SortedKeysOf(environment: map<string, string>) returns (keys: seq<string>)
    ensures keys == SortedKeys(environment.Keys)
    ensures forall k :: k in keys ==> k in environment
  {
    var collected := CollectKeys(environment.Keys);
    var a := new string[|collected|](i requires 0 <= i < |collected| => collected[i]);
    assert a[..] == collected;
    SortStrings(a);
    keys := a[..];
    SortedKeysUnique(environment.Keys, collected);
    SortedKeysWithin(environment.Keys);
  }

  /** remoteCommand */
  method RemoteCommand(environment: map<string, string>, args: seq<string>) returns (text: string)
    ensures text == RemoteText(environment, args)
  {
    var parts: seq<string> := [];
    if |environment| > 0 {
      var keys := SortedKeysOf(environment);
      var bindings := QuoteBindings(environment, keys);
      parts := ["env"] + bindings;
    }
    var quoted := QuoteArguments(args);
    text := Join(parts + quoted, " ");
  }

  function GoParts(words: seq<string>): seq<Part> {
    seq(|words|, i requires 0 <= i < |words| => Quoted(words[i], GO_MARK))
  }

  lemma {:induction false} MeantOfQuoted(words: seq<string>)
    ensures Meant(GoParts(words)) == Surviving(words)
  {
    if words != [] {
      JoinedTail(GoParts(words));
      assert GoParts(words)[1..] == GoParts(words[1..]);
      MeantOfQuoted(words[1..]);
      JoinLinesExact(words[0]);
    }
  }

  ghost function RemoteParts(environment: map<string, string>, args: seq<string>): seq<Part> {
    if environment == map[] then GoParts(args)
    else [Bare("env")] + GoParts(Bindings(environment, SortedKeys(environment.Keys)) + args)
  }

  lemma RenderGoParts(words: seq<string>)
    ensures AllGood(GoParts(words)) && RenderAll(GoParts(words)) == ShellQuoteAll(words)
  {
  }

  lemma RenderBareFirst(text: string, ps: seq<Part>)
    requires Good(Bare(text)) && AllGood(ps)
    ensures AllGood([Bare(text)] + ps) && RenderAll([Bare(text)] + ps) == [text] + RenderAll(ps)
  {
  }

  lemma ShellQuoteAppend(a: seq<string>, b: seq<string>)
    ensures ShellQuoteAll(a + b) == ShellQuoteAll(a) + ShellQuoteAll(b)
  {
  }

  lemma RemotePartsRender(environment: map<string, string>, args: seq<string>)
    ensures AllGood(RemoteParts(environment, args))
    ensures RemoteText(environment, args) == Join(RenderAll(RemoteParts(environment, args)), " ")
  {
    hide Join, Render, SortedKeys, RenderAll, ShellQuoteAll, AllGood;
    if environment == map[] {
      RenderGoParts(args);
      assert [] + ShellQuoteAll(args) == ShellQuoteAll(args);
    } else {
      var bindings := Bindings(environment, SortedKeys(environment.Keys));
      RenderGoParts(bindings + args);
      RenderBareFirst("env", GoParts(bindings + args));
      ShellQuoteAppend(bindings, args);
      assert ["env"] + ShellQuoteAll(bindings) + ShellQuoteAll(args)
        == ["env"] + (ShellQuoteAll(bindings) + ShellQuoteAll(args));
    }
  }

  lemma RemotePartsMeant(environment: map<string, string>, args: seq<string>)
    ensures Meant(RemoteParts(environment, args)) == Surviving(RemoteWords(environment, args))
  {
    if environment == map[] {
      assert RemoteWords(environment, args) == args;
      MeantOfQuoted(args);
    } else {
      var words := Bindings(environment, SortedKeys(environment.Keys)) + args;
      assert RemoteWords(environment, args) == ["env"] + words;
      EnvFirst(words);
    }
  }

  lemma EnvFirst(words: seq<string>)
    ensures Meant([Bare("env")] + GoParts(words)) == Surviving(["env"] + words)
  {
    var ps := [Bare("env")] + GoParts(words);
    assert ps[1..] == GoParts(words) && (["env"] + words)[1..] == words;
    JoinedTail(ps);
    MeantOfQuoted(words);
    JoinPlain("env", "");
    assert "env" + "" == "env";
  }

  /** Lexing a remote command gives back the words it was made of, with
      continuations joined and empty arguments gone. */
  lemma RemoteCommandLexes(environment: map<string, string>, args: seq<string>)
    ensures GoWords(RemoteText(environment, args))
      == if environment == map[] && args == [] then Err(CommandRequired)
        else Ok(Surviving(RemoteWords(environment, args)))
    ensures JsWords(RemoteText(environment, args)) == Ok(Surviving(RemoteWords(environment, args)))
  {
    RemotePartsRender(environment, args);
    RemotePartsMeant(environment, args);
    GoLexesParts(RemoteParts(environment, args));
    JsLexesParts(RemoteParts(environment, args));
  }

  // ------------------------------------------- escapes, double quotes and white space

  /** Every character after a backslash. */
  function Escaped(text: string): string {
    if text == "" then "" else ['\\', text[0]] + Escaped(text[1..])
  }

  /** Double quotes and backslashes after a backslash. */
  function DoubleEscaped(text: string): string {
    if text == "" then ""
    else (if text[0] == '"' || text[0] == '\\' then ['\\', text[0]] else [text[0]]) + DoubleEscaped(text[1..])
  }

  predicate Outside(s: Lexer) {
    s.quote == Unquoted && !s.escaped
  }

  lemma RunTwo(s: Lexer, c: char, d: char, rest: string, blank: char -> bool)
    ensures Run(s, [c, d] + rest, blank) == Run(Step(Step(s, c, blank), d, blank), rest, blank)
    ensures Run(s, [c] + rest, blank) == Run(Step(s, c, blank), rest, blank)
  {
    var text := [c, d] + rest;
    assert text[1..][1..] == rest && text[1..][0] == d;
    assert ([c] + rest)[1..] == rest;
  }

  /** An escaped character outside single quotes is that character, whatever it is:
      a blank, a quote or a backslash. */
  lemma {:induction false} EscapesMean(s: Lexer, text: string, blank: char -> bool)
    requires !s.escaped && s.quote != Single
    ensures Run(s, Escaped(text), blank) == s.(current := s.current + text)
    decreases |text|
  {
    if text == "" {
      assert s.current + "" == s.current;
    } else {
      RunTwo(s, '\\', text[0], Escaped(text[1..]), blank);
      EscapesMean(s.(current := s.current + [text[0]]), text[1..], blank);
      assert s.current + [text[0]] + text[1..] == s.current + text;
    }
  }

  lemma {:induction false} DoubleInside(s: Lexer, text: string, blank: char -> bool)
    requires !s.escaped && s.quote == Double
    ensures Run(s, DoubleEscaped(text), blank) == s.(current := s.current + text)
    decreases |text|
  {
    if text == "" {
      assert s.current + "" == s.current;
    } else {
      RunTwo(s, '\\', text[0], DoubleEscaped(text[1..]), blank);
      RunTwo(s, text[0], text[0], DoubleEscaped(text[1..]), blank);
      DoubleInside(s.(current := s.current + [text[0]]), text[1..], blank);
      assert s.current + [text[0]] + text[1..] == s.current + text;
    }
  }

  /** Text in double quotes, with its double quotes and backslashes escaped, is that
      text, blanks and single quotes included. */
  lemma DoubleQuotesMean(s: Lexer, text: string, blank: char -> bool)
    requires Outside(s)
    ensures Run(s, "\"" + DoubleEscaped(text) + "\"", blank) == s.(current := s.current + text)
  {
    hide Run, DoubleEscaped;
    var inside := s.(quote := Double);
    RunTwo(s, '"', '"', DoubleEscaped(text) + "\"", blank);
    assert "\"" + DoubleEscaped(text) + "\"" == ['"'] + (DoubleEscaped(text) + "\"");
    RunAppend(inside, DoubleEscaped(text), "\"", blank);
    DoubleInside(inside, text, blank);
    var end := inside.(current := s.current + text);
    RunTwo(end, '"', '"', "", blank);
    assert ['"'] + "" == "\"";
    NothingMore(Step(end, '"', blank), blank);
  }

  lemma NothingMore(s: Lexer, blank: char -> bool)
    ensures Run(s, "", blank) == s
  {
  }

  /** Outside quotes and escapes, spaces, tabs and line breaks end a word for both
      lexers. */
  lemma BlanksEndWords(s: Lexer, c: char)
    requires Outside(s) && c in " \t\r\n" && s.current != ""
    ensures Step(s, c, GoBlank) == Step(s, c, JsBlank) == Lexer(s.words + [s.current], "", Unquoted, false)
  {
  }
}
