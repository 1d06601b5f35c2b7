/** Kubernetes label selectors: selectorString (internal/kube/types.go) prints a
    structured selector as text, selectorMatches (internal/kube/metrics.go)
    parses that text again and evaluates it against a label map. */
module Selectors {
  import opened Text
  import opened Sorting

  /** The operator string of a match expression; Other stands for any string but
      the four that selectorString knows. */
  datatype Operator = In | NotIn | Exists | DoesNotExist | Other(name: string)
  datatype Requirement = Requirement(key: string, operator: Operator, values: seq<string>)
  datatype LabelSelector = LabelSelector(matchLabels: map<string, string>, matchExpressions: seq<Requirement>)
  type Labels = map<string, string>

  // ---------------------------------------------------------------- printer

  function LabelTerm(key: string, value: string): string {
    key + "=" + value
  }

  function ListTerm(key: string, word: string, values: seq<string>): string {
    key + word + "(" + Join(values, ",") + ")"
  }

  function ExpressionTerms(r: Requirement): seq<string> {
    match r.operator
    case In => [ListTerm(r.key, " in ", Sorted(r.values))]
    case NotIn => [ListTerm(r.key, " notin ", Sorted(r.values))]
    case Exists => [r.key]
    case DoesNotExist => ["!" + r.key]
    case Other(_) => []
  }

  function LabelOrEmpty(labels: Labels, key: string): string {
    if key in labels then labels[key] else ""
  }

  function LabelTerms(keys: seq<string>, labels: Labels): seq<string> {
    seq(|keys|, i requires 0 <= i < |keys| => LabelTerm(keys[i], LabelOrEmpty(labels, keys[i])))
  }

  function AllExpressionTerms(rs: seq<Requirement>): seq<string> {
    if rs == [] then [] else AllExpressionTerms(rs[..|rs| - 1]) + ExpressionTerms(rs[|rs| - 1])
  }

  ghost function Terms(sel: LabelSelector): seq<string> {
    LabelTerms(SortedKeys(sel.matchLabels.Keys), sel.matchLabels) + AllExpressionTerms(sel.matchExpressions)
  }

  ghost function SelectorText(sel: LabelSelector): string {
    Join(Terms(sel), ",")
  }

  /** The body of the second loop of selectorString: what one match expression
      appends to the parts. */
  method PrintExpression(expr: Requirement) returns (terms: seq<string>)
    ensures terms == ExpressionTerms(expr)
  {
    var vals := Sorted(expr.values);
    match expr.operator {
      case In => terms := [expr.key + " in " + "(" + Join(vals, ",") + ")"];
      case NotIn => terms := [expr.key + " notin " + "(" + Join(vals, ",") + ")"];
      case Exists => terms := [expr.key];
      case DoesNotExist => terms := ["!" + expr.key];
      case Other(_) => terms := [];
    }
  }

  /** Its first loop. */
  method PrintLabels(keys: seq<string>, labels: Labels) returns (parts: seq<string>)
    requires forall k :: k in keys ==> k in labels
    ensures parts == LabelTerms(keys, labels)
  {
    parts := [];
    for i := 0 to |keys|
      invariant |parts| == i
      invariant forall j :: 0 <= j < i ==> parts[j] == LabelTerm(keys[j], LabelOrEmpty(labels, keys[j]))
    {
      parts := parts + [keys[i] + "=" + labels[keys[i]]];
    }
  }

  /** Its second loop. */
  method PrintExpressions(es: seq<Requirement>) returns (parts: seq<string>)
    ensures parts == AllExpressionTerms(es)
  {
    parts := [];
    for i := 0 to |es|
      invariant parts == AllExpressionTerms(es[..i])
    {
      assert es[..i + 1][..i] == es[..i];
      var terms := PrintExpression(es[i]);
      parts := parts + terms;
    }
    assert es[..|es|] == es;
  }

  /** selectorString */
  method SelectorString(sel: LabelSelector) returns (text: string)
    ensures text == SelectorText(sel)
  {
    var keys := CollectKeys(sel.matchLabels.Keys);
    SortedKeysUnique(sel.matchLabels.Keys, keys);
    SortedKeysWithin(sel.matchLabels.Keys);
    keys := Sorted(keys);
    var parts := PrintLabels(keys, sel.matchLabels);
    var more := PrintExpressions(sel.matchExpressions);
    text := Join(parts + more, ",");
  }

  // -------------------------------------------------------------- evaluator

  function Deeper(c: char, depth: nat): nat {
    if c == '(' then depth + 1 else if c == ')' && depth > 0 then depth - 1 else depth
  }

  /** splitSelectorTerms: cut at commas outside parentheses. */
  function SplitFrom(s: string, depth: nat, current: string): (terms: seq<string>)
    ensures |terms| >= 1
  {
    if s == "" then [current]
    else if s[0] == ',' && depth == 0 then [current] + SplitFrom(s[1..], 0, "")
    else SplitFrom(s[1..], Deeper(s[0], depth), current + [s[0]])
  }

  function SplitTerms(selector: string): seq<string> {
    SplitFrom(selector, 0, "")
  }

  method SplitSelectorTerms(selector: string) returns (out: seq<string>)
    ensures out == SplitTerms(selector)
  {
    out := [];
    var start, depth: nat := 0, 0;
    for index := 0 to |selector|
      invariant 0 <= start <= index
      invariant SplitTerms(selector) == out + SplitFrom(selector[index..], depth, selector[start..index])
    {
      assert selector[index..][1..] == selector[index + 1..];
      match selector[index] {
        case '(' => depth := depth + 1;
        case ')' => if depth > 0 { depth := depth - 1; }
        case ',' =>
          if depth == 0 {
            out := out + [selector[start..index]];
            start := index + 1;
          }
        case _ =>
      }
      assert start <= index ==> selector[start..index + 1] == selector[start..index] + [selector[index]];
    }
    assert selector[|selector|..] == "" && selector[start..|selector|] == selector[start..];
    out := out + [selector[start..]];
  }

  function Trimmed(pieces: seq<string>): set<string> {
    set i | 0 <= i < |pieces| && TrimSpace(pieces[i]) != "" :: TrimSpace(pieces[i])
  }

  /** selectorValues */
  function SelectorValues(raw: string): set<string> {
    var body := TrimSuffix(TrimPrefix(TrimSpace(raw), "("), ")");
    Trimmed(Split(body, ','))
  }

  /** What one term asks for, once read. */
  datatype Test =
    | Anything
    | Absent(key: string)
    | NoneOf(key: string, values: set<string>)
    | OneOf(key: string, values: set<string>)
    | Differs(key: string, value: string)
    | Equals(key: string, value: string)
    | Present(key: string)

  /** The chain of cuts in the loop body of selectorMatches. */
  function ReadTerm(raw: string): Test {
    var term := TrimSpace(raw);
    if term == "" then Anything
    else if HasPrefix(term, "!") then Absent(TrimSpace(term[1..]))
    else match CutAt(term, " notin ")
      case Cut(before, after) => NoneOf(TrimSpace(before), SelectorValues(after))
      case NoCut =>
    match CutAt(term, " in ")
      case Cut(before, after) => OneOf(TrimSpace(before), SelectorValues(after))
      case NoCut =>
    match CutAt(term, "!=")
      case Cut(before, after) => Differs(TrimSpace(before), TrimSpace(after))
      case NoCut =>
    match CutAt(term, "==")
      case Cut(before, after) => Equals(TrimSpace(before), TrimSpace(after))
      case NoCut =>
    match CutAt(term, "=")
      case Cut(before, after) => Equals(TrimSpace(before), TrimSpace(after))
      case NoCut => Present(term)
  }

  predicate Passes(t: Test, labels: Labels) {
    match t
    case Anything => true
    case Absent(key) => key !in labels
    case NoneOf(key, values) => !(key in labels && labels[key] in values)
    case OneOf(key, values) => key in labels && labels[key] in values
    case Differs(key, value) => !(key in labels && labels[key] == value)
    case Equals(key, value) => LabelOrEmpty(labels, key) == value
    case Present(key) => key in labels
  }

  predicate TermMatches(raw: string, labels: Labels) {
    Passes(ReadTerm(raw), labels)
  }

  predicate TextMatches(selector: string, labels: Labels) {
    var terms := SplitTerms(selector);
    forall i :: 0 <= i < |terms| ==> TermMatches(terms[i], labels)
  }

  /** selectorMatches */
  method SelectorMatches(selector: string, labels: Labels) returns (ok: bool)
    ensures ok == TextMatches(selector, labels)
  {
    var terms := SplitSelectorTerms(selector);
    for i := 0 to |terms|
      invariant forall j :: 0 <= j < i ==> TermMatches(terms[j], labels)
    {
      if !TermMatches(terms[i], labels) { return false; }
    }
    return true;
  }

  // ---------------------------------------------------------------- meaning

  /** What Kubernetes means by the requirement.  The printer drops any other
      operator, which therefore asks for nothing. */
  ghost predicate RequirementHolds(r: Requirement, labels: Labels) {
    match r.operator
    case In => r.key in labels && labels[r.key] in r.values
    case NotIn => !(r.key in labels && labels[r.key] in r.values)
    case Exists => r.key in labels
    case DoesNotExist => r.key !in labels
    case Other(_) => true
  }

  ghost predicate LabelHolds(key: string, value: string, labels: Labels) {
    key in labels && labels[key] == value
  }

  ghost predicate SelectorHolds(sel: LabelSelector, labels: Labels) {
    && (forall k :: k in sel.matchLabels ==> LabelHolds(k, sel.matchLabels[k], labels))
    && (forall i :: 0 <= i < |sel.matchExpressions| ==> RequirementHolds(sel.matchExpressions[i], labels))
  }

  predicate TokenChar(c: char) {
    !IsSpace(c) && c !in {',', '(', ')', '=', '!'}
  }

  predicate Token(s: string) {
    forall i :: 0 <= i < |s| ==> TokenChar(s[i])
  }

  /** Keys are non-empty tokens, values are tokens (possibly empty). */
  ghost predicate WellFormed(sel: LabelSelector) {
    && (forall k :: k in sel.matchLabels ==> k != "" && Token(k) && Token(sel.matchLabels[k]))
    && (forall i :: 0 <= i < |sel.matchExpressions| ==> WellFormedRequirement(sel.matchExpressions[i]))
  }

  ghost predicate WellFormedRequirement(r: Requirement) {
    r.key != "" && Token(r.key) && forall j :: 0 <= j < |r.values| ==> Token(r.values[j])
  }

  /** The one blind spot of the text form for a matchLabels entry: an empty
      value also matches a missing label. */
  predicate LabelBlindSpot(key: string, value: string, labels: Labels) {
    value == "" && key !in labels
  }

  /** The one blind spot for In and NotIn: an empty value in the list is lost. */
  predicate RequirementBlindSpot(r: Requirement, labels: Labels) {
    (r.operator.In? || r.operator.NotIn?) && "" in r.values && r.key in labels && labels[r.key] == ""
  }

  // ------------------------------------------------ splitting undoes joining

  function DepthAfter(p: string, depth: nat): nat {
    if p == "" then depth else DepthAfter(p[1..], Deeper(p[0], depth))
  }

  /** Scanning p from this depth never meets a comma at depth zero. */
  predicate Quiet(p: string, depth: nat) {
    p == "" || (!(p[0] == ',' && depth == 0) && Quiet(p[1..], Deeper(p[0], depth)))
  }

  lemma {:induction false} QuietScan(p: string, rest: string, depth: nat, current: string)
    requires Quiet(p, depth)
    ensures SplitFrom(p + rest, depth, current) == SplitFrom(rest, DepthAfter(p, depth), current + p)
  {
    if p == "" {
      assert p + rest == rest && current + p == current;
    } else {
      QuietScan(p[1..], rest, Deeper(p[0], depth), current + [p[0]]);
      assert (p + rest)[1..] == p[1..] + rest;
      assert current + [p[0]] + p[1..] == current + p;
    }
  }

  lemma {:induction false} QuietConcat(p: string, q: string, depth: nat)
    requires Quiet(p, depth) && Quiet(q, DepthAfter(p, depth))
    ensures Quiet(p + q, depth)
    ensures DepthAfter(p + q, depth) == DepthAfter(q, DepthAfter(p, depth))
  {
    if p == "" {
      assert p + q == q;
    } else {
      QuietConcat(p[1..], q, Deeper(p[0], depth));
      assert (p + q)[1..] == p[1..] + q;
    }
  }

  /** Text without parentheses keeps its depth; commas in it need depth. */
  lemma {:induction false} QuietPlain(p: string, depth: nat)
    requires '(' !in p && ')' !in p
    requires depth > 0 || ',' !in p
    ensures Quiet(p, depth) && DepthAfter(p, depth) == depth
  {
    if p != "" { QuietPlain(p[1..], depth); }
  }

  predicate Closed(p: string) {
    Quiet(p, 0) && DepthAfter(p, 0) == 0
  }

  lemma {:induction false} SplitJoinTerms(parts: seq<string>)
    requires |parts| > 0
    requires forall i :: 0 <= i < |parts| ==> Closed(parts[i])
    ensures SplitTerms(Join(parts, ",")) == parts
  {
    QuietScan(parts[0], "", 0, "");
    assert parts[0] + "" == parts[0] && "" + parts[0] == parts[0];
    if |parts| > 1 {
      var rest := Join(parts[1..], ",");
      SplitJoinTerms(parts[1..]);
      QuietScan(parts[0], "," + rest, 0, "");
      assert parts[0] + "," + rest == parts[0] + ("," + rest);
      assert ("," + rest)[1..] == rest;
      assert parts == [parts[0]] + parts[1..];
    }
  }

  /** For every text whatever, the terms joined again are the text: splitting
      loses and invents nothing. */
  lemma {:induction false} JoinSplit(s: string, depth: nat, current: string)
    ensures Join(SplitFrom(s, depth, current), ",") == current + s
  {
    if s == "" {
    } else if s[0] == ',' && depth == 0 {
      JoinSplit(s[1..], 0, "");
      var rest := SplitFrom(s[1..], 0, "");
      assert ([current] + rest)[1..] == rest;
      assert "," + ("" + s[1..]) == s;
    } else {
      JoinSplit(s[1..], Deeper(s[0], depth), current + [s[0]]);
      assert current + [s[0]] + s[1..] == current + s;
    }
  }

  // -------------------------------------------------- each term, by its kind

  lemma TokenFacts(s: string)
    requires Token(s)
    ensures forall c :: c in s ==> TokenChar(c)
    ensures TrimSpace(s) == s
    ensures Closed(s)
  {
    TrimKeeps(s);
    QuietPlain(s, 0);
  }

  /** Cutting at a separator whose first occurrence is known. */
  lemma CutIs(before: string, sep: string, after: string)
    requires forall j: nat :: j < |before| ==> !OccursAt(before + sep + after, sep, j)
    ensures CutAt(before + sep + after, sep) == Cut(before, after)
  {
    var s := before + sep + after;
    assert s[|before|..|before| + |sep|] == sep;
    IndexIs(s, sep, |before|);
    assert s[..|before|] == before && s[|before| + |sep|..] == after;
  }

  /** Text before the separator that lacks its first character cannot hide an
      earlier occurrence. */
  lemma CutAtFirst(before: string, sep: string, after: string)
    requires sep != "" && sep[0] !in before
    ensures CutAt(before + sep + after, sep) == Cut(before, after)
  {
    var s := before + sep + after;
    forall j: nat | j < |before| ensures !OccursAt(s, sep, j) {
      assert s[j] == before[j];
      NotAt(s, sep, j, 0);
    }
    CutIs(before, sep, after);
  }

  lemma CutMissing(s: string, sep: string, c: char)
    requires c in sep && c !in s
    ensures CutAt(s, sep) == NoCut
  {
    IndexNeedsCharacter(s, sep, c);
  }

  lemma NoDoubleEquals(key: string, value: string)
    requires '=' !in key && '=' !in value
    ensures CutAt(LabelTerm(key, value), "==") == NoCut
  {
    var term := LabelTerm(key, value);
    forall j: nat ensures !OccursAt(term, "==", j) {
      if j < |key| {
        assert term[j] == key[j];
        NotAt(term, "==", j, 0);
      } else {
        if j + 2 <= |term| { assert term[j + 1] == value[j - |key|]; }
        NotAt(term, "==", j, 1);
      }
    }
    IndexNone(term, "==");
  }

  lemma ReadLabelTerm(key: string, value: string)
    requires key != "" && Token(key) && Token(value)
    ensures Closed(LabelTerm(key, value))
    ensures ReadTerm(LabelTerm(key, value)) == Equals(key, value)
  {
    var term := LabelTerm(key, value);
    TokenFacts(key);
    TokenFacts(value);
    assert forall c :: c in term ==> c in key || c == '=' || c in value;
    QuietPlain(term, 0);
    assert TrimSpace(term) == term && !HasPrefix(term, "!") by { TrimKeeps(term); assert term[..1][0] == key[0]; }
    CutMissing(term, " notin ", ' ');
    CutMissing(term, " in ", ' ');
    CutMissing(term, "!=", '!');
    NoDoubleEquals(key, value);
    CutAtFirst(key, "=", value);
  }

  lemma ReadExistenceTerm(key: string)
    requires key != "" && Token(key)
    ensures Closed(key) && Closed("!" + key)
    ensures ReadTerm(key) == Present(key)
    ensures ReadTerm("!" + key) == Absent(key)
  {
    TokenFacts(key);
    var t := "!" + key;
    QuietPlain(t, 0);
    assert TrimSpace(t) == t && t[1..] == key && HasPrefix(t, "!") by { TrimKeeps(t); }
    assert !HasPrefix(key, "!") by { assert key[..1][0] == key[0]; }
    CutMissing(key, " notin ", ' ');
    CutMissing(key, " in ", ' ');
    CutMissing(key, "!=", '!');
    CutMissing(key, "==", '=');
    CutMissing(key, "=", '=');
  }

  lemma {:induction false} JoinTokens(vals: seq<string>)
    requires forall j :: 0 <= j < |vals| ==> Token(vals[j])
    ensures forall c :: c in Join(vals, ",") ==> c == ',' || TokenChar(c)
  {
    if |vals| > 1 { JoinTokens(vals[1..]); }
    if |vals| > 0 { TokenFacts(vals[0]); }
  }

  lemma PiecesOfList(vals: seq<string>)
    requires forall j :: 0 <= j < |vals| ==> Token(vals[j])
    ensures Split(Join(vals, ","), ',') == if vals == [] then [""] else vals
  {
    forall j | 0 <= j < |vals| ensures ',' !in vals[j] { TokenFacts(vals[j]); }
    if vals != [] { SplitJoin(vals, ','); }
  }

  lemma ParenthesesRemoved(body: string)
    ensures TrimSuffix(TrimPrefix(TrimSpace("(" + body + ")"), "("), ")") == body
  {
    var raw := "(" + body + ")";
    TrimKeeps(raw);
    assert raw[1..] == body + ")" && raw[..1] == "(";
    assert (body + ")")[..|body|] == body && (body + ")")[|body|..] == ")";
  }

  lemma TrimmedTokens(vals: seq<string>)
    requires forall j :: 0 <= j < |vals| ==> Token(vals[j])
    ensures Trimmed(vals) == set v | v in vals && v != ""
  {
    forall i | 0 <= i < |vals| ensures TrimSpace(vals[i]) == vals[i] { TokenFacts(vals[i]); }
    forall v | v in vals && v != "" ensures v in Trimmed(vals) {
      var i :| 0 <= i < |vals| && vals[i] == v;
      assert TrimSpace(vals[i]) == v;
    }
  }

  lemma ValuesOfList(vals: seq<string>)
    requires forall j :: 0 <= j < |vals| ==> Token(vals[j])
    ensures SelectorValues("(" + Join(vals, ",") + ")") == set v | v in vals && v != ""
  {
    ParenthesesRemoved(Join(vals, ","));
    PiecesOfList(vals);
    TrimmedTokens(vals);
    assert Trimmed([""]) == {};
  }

  lemma ListTermClosed(key: string, word: string, vals: seq<string>)
    requires Token(key) && word in {" in ", " notin "}
    requires forall j :: 0 <= j < |vals| ==> Token(vals[j])
    ensures Closed(ListTerm(key, word, vals))
  {
    var body := Join(vals, ",");
    TokenFacts(key);
    JoinTokens(vals);
    QuietPlain(key + word, 0);
    QuietPlain(body, 1);
    assert Quiet("(", 0) && DepthAfter("(", 0) == 1;
    assert Quiet(")", 1) && DepthAfter(")", 1) == 0;
    QuietConcat(key + word, "(", 0);
    QuietConcat(key + word + "(", body, 0);
    QuietConcat(key + word + "(" + body, ")", 0);
  }

  /** A term with word "in" does not contain " notin ". */
  lemma NoNotIn(key: string, list: string)
    requires ' ' !in key && ' ' !in list && list != "" && list[0] == '('
    ensures CutAt(key + " in " + list, " notin ") == NoCut
  {
    var t := key + " in " + list;
    forall j: nat ensures !OccursAt(t, " notin ", j) {
      if j < |key| {
        assert t[j] == key[j];
        NotAt(t, " notin ", j, 0);
      } else if j >= |key| + 4 {
        if j + 7 <= |t| { assert t[j] == list[j - |key| - 4]; }
        NotAt(t, " notin ", j, 0);
      } else {
        assert t[|key| + 1] == 'i' && t[|key| + 2] == 'n' && t[|key| + 4] == '(';
        NotAt(t, " notin ", j, if j == |key| || j == |key| + 3 then 1 else 0);
      }
    }
    IndexNone(t, " notin ");
  }

  lemma ListTermEnds(key: string, word: string, vals: seq<string>)
    requires key != "" && Token(key)
    ensures var t := ListTerm(key, word, vals);
      TrimSpace(t) == t && t != "" && !HasPrefix(t, "!") && t == key + word + ("(" + Join(vals, ",") + ")")
  {
    var t := ListTerm(key, word, vals);
    TokenFacts(key);
    TrimKeeps(t);
    assert t[..1][0] == key[0];
  }

  lemma ListHasNoSpace(vals: seq<string>)
    requires forall j :: 0 <= j < |vals| ==> Token(vals[j])
    ensures ' ' !in "(" + Join(vals, ",") + ")"
  {
    JoinTokens(vals);
  }

  lemma ReadInTerm(key: string, vals: seq<string>)
    requires key != "" && Token(key)
    requires forall j :: 0 <= j < |vals| ==> Token(vals[j])
    ensures ReadTerm(ListTerm(key, " in ", vals)) == OneOf(key, set v | v in vals && v != "")
  {
    var list := "(" + Join(vals, ",") + ")";
    TokenFacts(key);
    ListHasNoSpace(vals);
    ValuesOfList(vals);
    ListTermEnds(key, " in ", vals);
    NoNotIn(key, list);
    CutAtFirst(key, " in ", list);
  }

  lemma ReadNotInTerm(key: string, vals: seq<string>)
    requires key != "" && Token(key)
    requires forall j :: 0 <= j < |vals| ==> Token(vals[j])
    ensures ReadTerm(ListTerm(key, " notin ", vals)) == NoneOf(key, set v | v in vals && v != "")
  {
    var list := "(" + Join(vals, ",") + ")";
    TokenFacts(key);
    ValuesOfList(vals);
    ListTermEnds(key, " notin ", vals);
    CutAtFirst(key, " notin ", list);
  }

  // ------------------------------------------------- terms that people write by hand

  lemma OperatorTerm(key: string, op: string, value: string)
    requires key != "" && Token(key) && Token(value) && op in {"!=", "=="}
    ensures var t := key + op + value;
      && TrimSpace(t) == t && t != "" && !HasPrefix(t, "!")
      && CutAt(t, " notin ") == NoCut && CutAt(t, " in ") == NoCut && CutAt(t, op) == Cut(key, value)
      && (op == "==" ==> CutAt(t, "!=") == NoCut)
  {
    var t := key + op + value;
    TokenFacts(key);
    TokenFacts(value);
    assert forall c :: c in t ==> c in key || c in op || c in value;
    TrimKeeps(t);
    assert t[..1][0] == key[0];
    CutMissing(t, " notin ", ' ');
    CutMissing(t, " in ", ' ');
    if op == "==" { CutMissing(t, "!=", '!'); }
    CutAtFirst(key, op, value);
  }

  /** "!=" holds unless the label is there with that value, and "==" is "=". */
  lemma WrittenOperators(key: string, value: string, labels: Labels)
    requires key != "" && Token(key) && Token(value)
    ensures TermMatches(key + "!=" + value, labels) <==> !(key in labels && labels[key] == value)
    ensures TermMatches(key + "==" + value, labels) <==> TermMatches(LabelTerm(key, value), labels)
  {
    TokenFacts(key);
    TokenFacts(value);
    OperatorTerm(key, "!=", value);
    OperatorTerm(key, "==", value);
    ReadLabelTerm(key, value);
  }

  /** White space around a term says nothing, and a blank term asks for nothing. */
  lemma PaddingIgnored(before: string, term: string, after: string, labels: Labels)
    requires forall i :: 0 <= i < |before| ==> IsSpace(before[i])
    requires forall i :: 0 <= i < |after| ==> IsSpace(after[i])
    requires term != "" && !IsSpace(term[0]) && !IsSpace(term[|term| - 1])
    ensures TermMatches(before + term + after, labels) <==> TermMatches(term, labels)
    ensures TermMatches(before, labels)
  {
    TrimRemoves(before, term, after);
    TrimRemoves("", term, "");
    assert "" + term + "" == term;
    TrimBlank(before);
  }

  // ----------------------------------------------------------- main theorems

  /** A printed matchLabels entry means what it should exactly outside its
      blind spot. */
  lemma LabelTermExact(key: string, value: string, labels: Labels)
    requires key != "" && Token(key) && Token(value)
    ensures (TermMatches(LabelTerm(key, value), labels) <==> LabelHolds(key, value, labels))
      <==> !LabelBlindSpot(key, value, labels)
  {
    ReadLabelTerm(key, value);
  }

  ghost predicate AllMatch(terms: seq<string>, labels: Labels) {
    forall i :: 0 <= i < |terms| ==> TermMatches(terms[i], labels)
  }

  ghost predicate AllClosed(terms: seq<string>) {
    forall i :: 0 <= i < |terms| ==> Closed(terms[i])
  }

  lemma SortedTokens(values: seq<string>)
    requires forall j :: 0 <= j < |values| ==> Token(values[j])
    ensures forall j :: 0 <= j < |Sorted(values)| ==> Token(Sorted(values)[j])
    ensures forall v :: v in Sorted(values) <==> v in values
  {
    SortedIsSorted(values);
    forall v ensures v in Sorted(values) <==> v in values {
      assert v in multiset(Sorted(values)) <==> v in multiset(values);
    }
    forall j | 0 <= j < |Sorted(values)| ensures Token(Sorted(values)[j]) {
      assert Sorted(values)[j] in values;
    }
  }

  lemma ExpressionTermsClosed(r: Requirement)
    requires WellFormedRequirement(r)
    ensures AllClosed(ExpressionTerms(r))
  {
    SortedTokens(r.values);
    match r.operator
    case In => ListTermClosed(r.key, " in ", Sorted(r.values));
    case NotIn => ListTermClosed(r.key, " notin ", Sorted(r.values));
    case Exists => ReadExistenceTerm(r.key);
    case DoesNotExist => ReadExistenceTerm(r.key);
    case Other(_) =>
  }

  /** A printed requirement means what it should exactly outside its blind
      spot. */
  lemma RequirementTermExact(r: Requirement, labels: Labels)
    requires WellFormedRequirement(r)
    ensures (AllMatch(ExpressionTerms(r), labels) <==> RequirementHolds(r, labels))
      <==> !RequirementBlindSpot(r, labels)
  {
    SortedTokens(r.values);
    match r.operator
    case In =>
      ReadInTerm(r.key, Sorted(r.values));
      assert ExpressionTerms(r)[0] == ListTerm(r.key, " in ", Sorted(r.values));
    case NotIn =>
      ReadNotInTerm(r.key, Sorted(r.values));
      assert ExpressionTerms(r)[0] == ListTerm(r.key, " notin ", Sorted(r.values));
    case Exists => ReadExistenceTerm(r.key); assert ExpressionTerms(r)[0] == r.key;
    case DoesNotExist => ReadExistenceTerm(r.key); assert ExpressionTerms(r)[0] == "!" + r.key;
    case Other(_) =>
  }

  lemma AllMatchConcat(a: seq<string>, b: seq<string>, labels: Labels)
    ensures AllMatch(a + b, labels) <==> AllMatch(a, labels) && AllMatch(b, labels)
    ensures AllClosed(a + b) <==> AllClosed(a) && AllClosed(b)
  {
    assert forall i :: 0 <= i < |a| ==> (a + b)[i] == a[i];
    assert forall i :: 0 <= i < |b| ==> (a + b)[|a| + i] == b[i];
  }

  /** What a printed requirement means: its blind spot turns an In into a refusal
      and a NotIn into an approval. */
  ghost predicate RequirementRead(r: Requirement, labels: Labels) {
    if RequirementBlindSpot(r, labels) then r.operator.NotIn? else RequirementHolds(r, labels)
  }

  lemma RequirementTermRead(r: Requirement, labels: Labels)
    requires WellFormedRequirement(r)
    ensures AllClosed(ExpressionTerms(r))
    ensures AllMatch(ExpressionTerms(r), labels) <==> RequirementRead(r, labels)
    ensures RequirementBlindSpot(r, labels) ==> RequirementHolds(r, labels) == r.operator.In?
  {
    hide AllMatch, Token;
    ExpressionTermsClosed(r);
    RequirementTermExact(r, labels);
  }

  ghost predicate AllRead(rs: seq<Requirement>, labels: Labels) {
    forall i :: 0 <= i < |rs| ==> RequirementRead(rs[i], labels)
  }

  lemma {:induction false} ExpressionsRead(rs: seq<Requirement>, labels: Labels)
    requires forall i :: 0 <= i < |rs| ==> WellFormedRequirement(rs[i])
    ensures AllClosed(AllExpressionTerms(rs))
    ensures AllMatch(AllExpressionTerms(rs), labels) <==> AllRead(rs, labels)
  {
    hide AllMatch, AllClosed, WellFormedRequirement, RequirementRead;
    if rs == [] {
      NoTerms(labels);
    } else {
      var n := |rs| - 1;
      ExpressionsRead(rs[..n], labels);
      RequirementTermRead(rs[n], labels);
      AllMatchConcat(AllExpressionTerms(rs[..n]), ExpressionTerms(rs[n]), labels);
      assert AllRead(rs, labels) <==> AllRead(rs[..n], labels) && RequirementRead(rs[n], labels);
    }
  }

  lemma NoTerms(labels: Labels)
    ensures AllMatch([], labels) && AllClosed([])
  {
  }

  /** What a printed label means: a missing label passes for an empty value. */
  ghost predicate LabelRead(key: string, value: string, labels: Labels) {
    LabelBlindSpot(key, value, labels) || LabelHolds(key, value, labels)
  }

  ghost predicate AllLabelsRead(want: Labels, labels: Labels) {
    forall k :: k in want ==> LabelRead(k, want[k], labels)
  }

  lemma LabelsRead(want: Labels, keys: seq<string>, labels: Labels)
    requires forall k :: k in keys <==> k in want
    requires forall k :: k in want ==> k != "" && Token(k) && Token(want[k])
    ensures AllClosed(LabelTerms(keys, want))
    ensures AllMatch(LabelTerms(keys, want), labels) <==> AllLabelsRead(want, labels)
  {
    var terms := LabelTerms(keys, want);
    forall i | 0 <= i < |keys|
      ensures Closed(terms[i]) && (TermMatches(terms[i], labels) <==> LabelRead(keys[i], want[keys[i]], labels))
    {
      assert keys[i] in keys;
      ReadLabelTerm(keys[i], want[keys[i]]);
      LabelTermExact(keys[i], want[keys[i]], labels);
    }
    if AllMatch(terms, labels) {
      forall k | k in want ensures LabelRead(k, want[k], labels) {
        var i :| 0 <= i < |keys| && keys[i] == k;
        assert TermMatches(terms[i], labels);
      }
    }
    if AllLabelsRead(want, labels) {
      forall i | 0 <= i < |terms| ensures TermMatches(terms[i], labels) { assert keys[i] in keys; }
    }
  }

  /** How the printed text of a whole selector reads. */
  lemma SelectorTextReads(sel: LabelSelector, labels: Labels)
    requires WellFormed(sel)
    ensures TextMatches(SelectorText(sel), labels) <==>
      AllLabelsRead(sel.matchLabels, labels) && AllRead(sel.matchExpressions, labels)
  {
    hide LabelRead, RequirementRead, WellFormedRequirement, Closed, ReadTerm, Token;
    var keys := SortedKeys(sel.matchLabels.Keys);
    SortedKeysWithin(sel.matchLabels.Keys);
    LabelsRead(sel.matchLabels, keys, labels);
    ExpressionsRead(sel.matchExpressions, labels);
    var terms := Terms(sel);
    AllMatchConcat(LabelTerms(keys, sel.matchLabels), AllExpressionTerms(sel.matchExpressions), labels);
    if terms == [] {
      BlankTextReads(labels);
    } else {
      SplitJoinTerms(terms);
    }
    assert TextMatches(SelectorText(sel), labels) <==> AllMatch(terms, labels);
  }

  lemma BlankTextReads(labels: Labels)
    ensures TextMatches("", labels)
  {
    assert SplitTerms("") == [""] && ReadTerm("") == Anything;
  }

  /** All labels and requirements outside the blind spots hold. */
  ghost predicate OthersHold(sel: LabelSelector, labels: Labels) {
    && (forall k :: k in sel.matchLabels ==>
          LabelBlindSpot(k, sel.matchLabels[k], labels) || LabelHolds(k, sel.matchLabels[k], labels))
    && (forall i :: 0 <= i < |sel.matchExpressions| ==>
          RequirementBlindSpot(sel.matchExpressions[i], labels) || RequirementHolds(sel.matchExpressions[i], labels))
  }

  /** Some blind spot lets the labels pass where the selector does not. */
  ghost predicate Loose(sel: LabelSelector, labels: Labels) {
    || (exists k :: k in sel.matchLabels && LabelBlindSpot(k, sel.matchLabels[k], labels))
    || (exists i :: 0 <= i < |sel.matchExpressions| && BlindAs(sel.matchExpressions[i], NotIn, labels))
  }

  /** Some blind spot refuses the labels where the selector does not. */
  ghost predicate Tight(sel: LabelSelector, labels: Labels) {
    exists i :: 0 <= i < |sel.matchExpressions| && BlindAs(sel.matchExpressions[i], In, labels)
  }

  predicate BlindAs(r: Requirement, operator: Operator, labels: Labels) {
    r.operator == operator && RequirementBlindSpot(r, labels)
  }

  lemma BlindRequirement(r: Requirement, labels: Labels)
    ensures RequirementBlindSpot(r, labels) ==> RequirementHolds(r, labels) == BlindAs(r, In, labels)
    ensures RequirementBlindSpot(r, labels) ==> RequirementRead(r, labels) == BlindAs(r, NotIn, labels)
    ensures !RequirementBlindSpot(r, labels) ==> !BlindAs(r, In, labels) && !BlindAs(r, NotIn, labels)
    ensures !RequirementBlindSpot(r, labels) ==> RequirementRead(r, labels) == RequirementHolds(r, labels)
  {
  }

  lemma ReadingSplits(sel: LabelSelector, labels: Labels)
    ensures AllLabelsRead(sel.matchLabels, labels) && AllRead(sel.matchExpressions, labels) <==>
      OthersHold(sel, labels) && !Tight(sel, labels)
  {
    hide RequirementBlindSpot, RequirementHolds, RequirementRead, BlindAs, LabelBlindSpot, LabelHolds;
    forall i | 0 <= i < |sel.matchExpressions| ensures RequirementRead(sel.matchExpressions[i], labels) <==>
      (RequirementBlindSpot(sel.matchExpressions[i], labels) || RequirementHolds(sel.matchExpressions[i], labels))
      && !BlindAs(sel.matchExpressions[i], In, labels)
    {
      ReadAndTight(sel.matchExpressions[i], labels);
    }
  }

  lemma ReadAndTight(r: Requirement, labels: Labels)
    ensures RequirementRead(r, labels) <==>
      (RequirementBlindSpot(r, labels) || RequirementHolds(r, labels)) && !BlindAs(r, In, labels)
  {
    BlindRequirement(r, labels);
  }

  lemma HoldAndLoose(r: Requirement, labels: Labels)
    ensures RequirementHolds(r, labels) <==>
      (RequirementBlindSpot(r, labels) || RequirementHolds(r, labels)) && !BlindAs(r, NotIn, labels)
  {
    BlindRequirement(r, labels);
  }

  lemma BlindLabelFails(key: string, value: string, labels: Labels)
    ensures LabelBlindSpot(key, value, labels) ==> !LabelHolds(key, value, labels)
  {
  }

  lemma HoldingSplits(sel: LabelSelector, labels: Labels)
    ensures SelectorHolds(sel, labels) <==> OthersHold(sel, labels) && !Loose(sel, labels)
  {
    hide RequirementBlindSpot, RequirementHolds, BlindAs, LabelBlindSpot, LabelHolds;
    forall i | 0 <= i < |sel.matchExpressions| ensures RequirementHolds(sel.matchExpressions[i], labels) <==>
      (RequirementBlindSpot(sel.matchExpressions[i], labels) || RequirementHolds(sel.matchExpressions[i], labels))
      && !BlindAs(sel.matchExpressions[i], NotIn, labels)
    {
      HoldAndLoose(sel.matchExpressions[i], labels);
    }
    forall k | k in sel.matchLabels
      ensures LabelBlindSpot(k, sel.matchLabels[k], labels) ==> !LabelHolds(k, sel.matchLabels[k], labels)
    {
      BlindLabelFails(k, sel.matchLabels[k], labels);
    }
  }

  /** Meaning preservation through the text, for every well-formed selector and
      label map: matching the printed selector is the Kubernetes meaning of the
      structured one exactly when, if all terms outside the blind spots hold, a
      loose blind spot and a tight one come together or not at all. */
  lemma MeaningPreserved(sel: LabelSelector, labels: Labels)
    requires WellFormed(sel)
    ensures (TextMatches(SelectorText(sel), labels) <==> SelectorHolds(sel, labels)) <==>
      (OthersHold(sel, labels) ==> (Loose(sel, labels) <==> Tight(sel, labels)))
  {
    hide TextMatches, SelectorHolds, OthersHold, Loose, Tight, WellFormed, AllRead, AllLabelsRead;
    SelectorTextReads(sel, labels);
    ReadingSplits(sel, labels);
    HoldingSplits(sel, labels);
  }

  /** With non-empty values there is no blind spot: the text form is faithful on
      every label map. */
  lemma MeaningPreservedForNonEmptyValues(sel: LabelSelector, labels: Labels)
    requires WellFormed(sel)
    requires forall k :: k in sel.matchLabels ==> sel.matchLabels[k] != ""
    requires forall i :: 0 <= i < |sel.matchExpressions| ==> "" !in sel.matchExpressions[i].values
    ensures TextMatches(SelectorText(sel), labels) <==> SelectorHolds(sel, labels)
  {
    hide TextMatches, SelectorHolds;
    MeaningPreserved(sel, labels);
  }

  const EMPTY_LABEL := LabelSelector(map["a" := ""], [])
  const EMPTY_IN_LIST := LabelSelector(map[], [Requirement("a", In, [""])])

  /** The two kinds of blind spot: an empty value passes for a missing label, and
      an empty value in a list does not pass for an empty label. */
  lemma BlindSpotsReached()
    ensures WellFormed(EMPTY_LABEL) && WellFormed(EMPTY_IN_LIST)
    ensures TextMatches(SelectorText(EMPTY_LABEL), map[]) && !SelectorHolds(EMPTY_LABEL, map[])
    ensures !TextMatches(SelectorText(EMPTY_IN_LIST), map["a" := ""]) && SelectorHolds(EMPTY_IN_LIST, map["a" := ""])
  {
    hide TextMatches, SelectorText;
    assert Token("a") && Token("");
    assert WellFormedRequirement(EMPTY_IN_LIST.matchExpressions[0]);
    SelectorTextReads(EMPTY_LABEL, map[]);
    SelectorTextReads(EMPTY_IN_LIST, map["a" := ""]);
    assert LabelBlindSpot("a", "", map[]) && !LabelHolds("a", "", map[]);
    assert "a" in EMPTY_LABEL.matchLabels;
    var r := EMPTY_IN_LIST.matchExpressions[0];
    assert r.values[0] == "";
    assert RequirementBlindSpot(r, map["a" := ""]) && RequirementHolds(r, map["a" := ""]);
    assert !RequirementRead(r, map["a" := ""]);
  }

  // -------------------------------------------------------------- specificity

  function KnownOperators(rs: seq<Requirement>): nat {
    if rs == [] then 0 else KnownOperators(rs[..|rs| - 1]) + if rs[|rs| - 1].operator.Other? then 0 else 1
  }

  lemma {:induction false} ExpressionsClosed(rs: seq<Requirement>)
    requires forall i :: 0 <= i < |rs| ==> WellFormedRequirement(rs[i])
    ensures AllClosed(AllExpressionTerms(rs)) && |AllExpressionTerms(rs)| == KnownOperators(rs)
  {
    hide Closed, WellFormedRequirement;
    if rs != [] {
      var n := |rs| - 1;
      ExpressionsClosed(rs[..n]);
      ExpressionTermsClosed(rs[n]);
    }
  }

  /** Reading a printed selector finds each label and each match expression once,
      so its specificity counts them; the empty selector reads as one blank term. */
  lemma SpecificityCountsTerms(sel: LabelSelector)
    requires WellFormed(sel)
    ensures var n := |sel.matchLabels| + KnownOperators(sel.matchExpressions);
      |SplitTerms(SelectorText(sel))| == if n == 0 then 1 else n
  {
    var keys := SortedKeys(sel.matchLabels.Keys);
    SortedKeysWithin(sel.matchLabels.Keys);
    SortedKeysCount(sel.matchLabels.Keys);
    var labelTerms := LabelTerms(keys, sel.matchLabels);
    forall i | 0 <= i < |labelTerms| ensures Closed(labelTerms[i]) {
      assert keys[i] in keys;
      ReadLabelTerm(keys[i], sel.matchLabels[keys[i]]);
    }
    ExpressionsClosed(sel.matchExpressions);
    AllMatchConcat(labelTerms, AllExpressionTerms(sel.matchExpressions), map[]);
    if Terms(sel) == [] {
      assert SplitTerms("") == [""];
    } else {
      SplitJoinTerms(Terms(sel));
    }
  }

  /** Only a selector without labels and known match expressions prints as "". */
  lemma TextIsEmptyIff(sel: LabelSelector)
    requires WellFormed(sel)
    ensures SelectorText(sel) == "" <==> |sel.matchLabels| + KnownOperators(sel.matchExpressions) == 0
  {
    hide KnownOperators;
    SortedKeysCount(sel.matchLabels.Keys);
    SortedKeysWithin(sel.matchLabels.Keys);
    var keys, rs := SortedKeys(sel.matchLabels.Keys), sel.matchExpressions;
    ExpressionsClosed(rs);
    ExpressionsNotBlank(rs);
    var terms := Terms(sel);
    if |terms| > 0 {
      if keys != [] { assert '=' in LabelTerm(keys[0], LabelOrEmpty(sel.matchLabels, keys[0])); }
      assert terms[0] != "";
    }
  }

  lemma {:induction false} ExpressionsNotBlank(rs: seq<Requirement>)
    requires forall i :: 0 <= i < |rs| ==> WellFormedRequirement(rs[i])
    ensures forall i :: 0 <= i < |AllExpressionTerms(rs)| ==> AllExpressionTerms(rs)[i] != ""
  {
    if rs != [] { ExpressionsNotBlank(rs[..|rs| - 1]); }
  }
}
