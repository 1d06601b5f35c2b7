/** The string operations of the Go standard library that the modelled code
    relies on, each with the laws the later proofs need.  A string is a
    sequence of characters: every separator used below is ASCII, so cutting at
    byte offsets and at character offsets is the same thing. */
module Text {

  /** unicode.IsSpace */
  predicate IsSpace(c: char) {
    || c in {'\t', '\n', '\U{0B}', '\U{0C}', '\r', ' ', '\U{85}', '\U{A0}', '\U{1680}'}
    || '\U{2000}' <= c <= '\U{200A}'
    || c in {'\U{2028}', '\U{2029}', '\U{202F}', '\U{205F}', '\U{3000}'}
  }

  function TrimLeft(s: string): string {
    if s != "" && IsSpace(s[0]) then TrimLeft(s[1..]) else s
  }

  function TrimRight(s: string): string {
    if s != "" && IsSpace(s[|s| - 1]) then TrimRight(s[..|s| - 1]) else s
  }

  function TrimSpace(s: string): string {
    TrimRight(TrimLeft(s))
  }

  predicate HasPrefix(s: string, prefix: string) {
    |prefix| <= |s| && s[..|prefix|] == prefix
  }

  predicate HasSuffix(s: string, suffix: string) {
    |suffix| <= |s| && s[|s| - |suffix|..] == suffix
  }

  function TrimPrefix(s: string, prefix: string): string {
    if HasPrefix(s, prefix) then s[|prefix|..] else s
  }

  function TrimSuffix(s: string, suffix: string): string {
    if HasSuffix(s, suffix) then s[..|s| - |suffix|] else s
  }

  function LowerChar(c: char): char {
    if 'A' <= c <= 'Z' then c - 'A' + 'a' else c
  }

  /** strings.ToLower on ASCII letters; other letters are left alone. */
  function ToLower(s: string): string {
    seq(|s|, i requires 0 <= i < |s| => LowerChar(s[i]))
  }

  function Join(parts: seq<string>, sep: string): string {
    if |parts| == 0 then ""
    else if |parts| == 1 then parts[0]
    else parts[0] + sep + Join(parts[1..], sep)
  }

  predicate OccursAt(s: string, sep: string, i: nat) {
    i + |sep| <= |s| && s[i..i + |sep|] == sep
  }

  /** strings.Index */
  function Index(s: string, sep: string): (i: int)
    ensures i == -1 || 0 <= i <= |s| - |sep|
  {
    if OccursAt(s, sep, 0) then 0
    else if s == "" then -1
    else var i := Index(s[1..], sep); if i < 0 then -1 else i + 1
  }

  datatype CutResult = Cut(before: string, after: string) | NoCut

  /** strings.Cut */
  function CutAt(s: string, sep: string): CutResult {
    var i := Index(s, sep);
    if i < 0 then NoCut else Cut(s[..i], s[i + |sep|..])
  }

  /** strings.Split with a one-character separator. */
  function Split(s: string, sep: char): (parts: seq<string>)
    ensures |parts| >= 1
  {
    if s == "" then [""]
    else if s[0] == sep then [""] + Split(s[1..], sep)
    else var rest := Split(s[1..], sep); [[s[0]] + rest[0]] + rest[1..]
  }

  function Digits(n: nat): string {
    if n < 10 then [n as char + '0'] else Digits(n / 10) + [(n % 10) as char + '0']
  }

  /** strconv.Itoa */
  function Itoa(n: int): string {
    if n < 0 then "-" + Digits(-n) else Digits(n)
  }

  // ---------------------------------------------------------------- laws

  lemma IndexOccurs(s: string, sep: string)
    ensures Index(s, sep) >= 0 ==> OccursAt(s, sep, Index(s, sep))
  {
    if !OccursAt(s, sep, 0) && s != "" {
      IndexOccurs(s[1..], sep);
      var i := Index(s[1..], sep);
      if i >= 0 {
        assert s[i + 1..i + 1 + |sep|] == s[1..][i..i + |sep|];
      }
    }
  }

  /** Index is the position of the first occurrence. */
  lemma {:induction false} IndexIs(s: string, sep: string, i: nat)
    requires OccursAt(s, sep, i)
    requires forall j: nat :: j < i ==> !OccursAt(s, sep, j)
    ensures Index(s, sep) == i
  {
    if i > 0 {
      assert !OccursAt(s, sep, 0);
      assert s != "";
      var t := s[1..];
      assert t[i - 1..i - 1 + |sep|] == s[i..i + |sep|];
      forall j: nat | j < i - 1 ensures !OccursAt(t, sep, j) {
        assert !OccursAt(s, sep, j + 1);
        if j + |sep| <= |t| { assert t[j..j + |sep|] == s[j + 1..j + 1 + |sep|]; }
      }
      IndexIs(t, sep, i - 1);
    }
  }

  /** One differing character rules an occurrence out. */
  lemma NotAt(s: string, sep: string, i: nat, k: nat)
    requires k < |sep|
    requires i + |sep| <= |s| ==> s[i + k] != sep[k]
    ensures !OccursAt(s, sep, i)
  {
    if i + |sep| <= |s| { assert s[i..i + |sep|][k] == s[i + k]; }
  }

  lemma IndexNone(s: string, sep: string)
    requires forall j: nat :: !OccursAt(s, sep, j)
    ensures Index(s, sep) == -1
  {
    IndexOccurs(s, sep);
  }

  /** A separator with a character the text lacks does not occur in it. */
  lemma IndexNeedsCharacter(s: string, sep: string, c: char)
    requires c in sep && c !in s
    ensures Index(s, sep) == -1
  {
    IndexOccurs(s, sep);
    var k :| 0 <= k < |sep| && sep[k] == c;
    forall i: nat ensures !OccursAt(s, sep, i) { NotAt(s, sep, i, k); }
  }

  lemma {:induction false} SplitPiece(p: string, rest: string, sep: char)
    requires sep !in p
    ensures Split(p + [sep] + rest, sep) == [p] + Split(rest, sep)
  {
    if p == "" {
      assert p + [sep] + rest == [sep] + rest;
    } else {
      SplitPiece(p[1..], rest, sep);
      assert (p + [sep] + rest)[1..] == p[1..] + [sep] + rest;
      assert p == [p[0]] + p[1..];
    }
  }

  lemma {:induction false} SplitWhole(p: string, sep: char)
    requires sep !in p
    ensures Split(p, sep) == [p]
  {
    if p != "" {
      SplitWhole(p[1..], sep);
      assert p == [p[0]] + p[1..];
    }
  }

  /** Splitting undoes joining when no part holds the separator. */
  lemma {:induction false} SplitJoin(parts: seq<string>, sep: char)
    requires |parts| > 0
    requires forall i :: 0 <= i < |parts| ==> sep !in parts[i]
    ensures Split(Join(parts, [sep]), sep) == parts
  {
    if |parts| == 1 {
      SplitWhole(parts[0], sep);
    } else {
      SplitJoin(parts[1..], sep);
      SplitPiece(parts[0], Join(parts[1..], [sep]), sep);
      assert parts == [parts[0]] + parts[1..];
    }
  }

  lemma SplitCons(c: char, rest: string, sep: char)
    ensures var parts := Split(rest, sep);
      Split([c] + rest, sep) == if c == sep then [""] + parts else [[c] + parts[0]] + parts[1..]
  {
    assert ([c] + rest)[1..] == rest;
  }

  /** A separator between two texts splits there, whatever the texts hold. */
  lemma {:induction false} SplitBetween(a: string, b: string, sep: char)
    ensures Split(a + [sep] + b, sep) == Split(a, sep) + Split(b, sep)
  {
    hide Split;
    if a == "" {
      SplitCons(sep, b, sep);
      SplitEmpty(sep);
      assert a + [sep] + b == [sep] + b;
    } else {
      var rest, x, y := a[1..] + [sep] + b, Split(a[1..], sep), Split(b, sep);
      SplitBetween(a[1..], b, sep);
      SplitCons(a[0], rest, sep);
      SplitCons(a[0], a[1..], sep);
      assert a + [sep] + b == [a[0]] + rest && a == [a[0]] + a[1..];
      assert (x + y)[1..] == x[1..] + y;
    }
  }

  lemma SplitEmpty(sep: char)
    ensures Split("", sep) == [""]
  {
  }

  /** Joining undoes splitting, for every text. */
  lemma {:induction false} JoinOfSplit(s: string, sep: char)
    ensures Join(Split(s, sep), [sep]) == s
  {
    if s != "" {
      JoinOfSplit(s[1..], sep);
      var rest := Split(s[1..], sep);
      assert s == [s[0]] + s[1..];
      if s[0] == sep {
        assert ([""] + rest)[1..] == rest;
      } else {
        assert ([[s[0]] + rest[0]] + rest[1..])[1..] == rest[1..];
      }
    }
  }

  /** A prefix or suffix is what stands at that end, and trimming takes it away. */
  lemma EndsExact(s: string, t: string, u: string)
    ensures HasPrefix(s, t) <==> exists rest :: s == t + rest
    ensures HasSuffix(s, t) <==> exists rest :: s == rest + t
    ensures TrimPrefix(t + u, t) == u && TrimSuffix(u + t, t) == u
    ensures !HasPrefix(s, t) ==> TrimPrefix(s, t) == s
    ensures !HasSuffix(s, t) ==> TrimSuffix(s, t) == s
  {
    if HasPrefix(s, t) { assert s == t + s[|t|..]; }
    if HasSuffix(s, t) { assert s == s[..|s| - |t|] + t; }
    assert (t + u)[..|t|] == t && (t + u)[|t|..] == u;
    assert (u + t)[|u|..] == t && (u + t)[..|u|] == u;
  }

  /** White space around a text is removed, and nothing else. */
  lemma {:induction false} TrimRemoves(before: string, s: string, after: string)
    requires forall i :: 0 <= i < |before| ==> IsSpace(before[i])
    requires forall i :: 0 <= i < |after| ==> IsSpace(after[i])
    requires s != "" && !IsSpace(s[0]) && !IsSpace(s[|s| - 1])
    ensures TrimSpace(before + s + after) == s
    decreases |before| + |after|
  {
    var text := before + s + after;
    if before != "" {
      TrimRemoves(before[1..], s, after);
      assert text[1..] == before[1..] + s + after;
    } else if after != "" {
      var n := |after| - 1;
      TrimRemoves("", s, after[..n]);
      assert text == s + after && text[..|text| - 1] == "" + s + after[..n];
    } else {
      assert text == s;
    }
  }

  lemma {:induction false} TrimBlank(s: string)
    requires forall i :: 0 <= i < |s| ==> IsSpace(s[i])
    ensures TrimSpace(s) == ""
  {
    if s != "" { TrimBlank(s[1..]); }
  }

  /** The number that a text of digits means. */
  function NumberOf(digits: string): int {
    if digits == "" then 0 else 10 * NumberOf(digits[..|digits| - 1]) + (digits[|digits| - 1] as int - '0' as int)
  }

  lemma {:induction false} DigitsMean(n: nat)
    ensures NumberOf(Digits(n)) == n && forall i :: 0 <= i < |Digits(n)| ==> '0' <= Digits(n)[i] <= '9'
    ensures Digits(n) != "" && (Digits(n)[0] == '0' ==> n == 0)
  {
    if n < 10 {
      assert Digits(n)[..0] == "";
    } else {
      DigitsMean(n / 10);
      assert Digits(n)[..|Digits(n)| - 1] == Digits(n / 10);
    }
  }

  /** Text whose two ends are not white space is left alone. */
  lemma TrimKeeps(s: string)
    requires s != "" ==> !IsSpace(s[0]) && !IsSpace(s[|s| - 1])
    ensures TrimSpace(s) == s
  {
  }
}
