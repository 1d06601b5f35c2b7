/** Byte-wise string order, sorting, and the in-place insertion sort of
    internal/sshx/ssh.go. */
module Sorting {

  /** Go's `<` on strings.  Character order agrees with byte order because
      UTF-8 preserves code-point order. */
  predicate Less(a: string, b: string) {
    b != "" && (a == "" || a[0] < b[0] || (a[0] == b[0] && Less(a[1..], b[1..])))
  }

  ghost predicate IsSorted(s: seq<string>) {
    forall i, j :: 0 <= i < j < |s| ==> !Less(s[j], s[i])
  }

  function Insert(x: string, s: seq<string>): seq<string> {
    if s != [] && Less(s[0], x) then [s[0]] + Insert(x, s[1..]) else [x] + s
  }

  /** sort.Strings as a function of the values. */
  function Sorted(s: seq<string>): seq<string> {
    if s == [] then [] else Insert(s[0], Sorted(s[1..]))
  }

  lemma {:induction false} LessTotal(a: string, b: string)
    ensures Less(a, b) || Less(b, a) || a == b
    ensures !(Less(a, b) && Less(b, a))
    ensures !Less(a, a)
  {
    if a != "" && b != "" && a[0] == b[0] {
      LessTotal(a[1..], b[1..]);
      assert a == [a[0]] + a[1..] && b == [b[0]] + b[1..];
    }
    if a != "" { LessTotal(a[1..], a[1..]); }
  }

  lemma {:induction false} LessTransitive(a: string, b: string, c: string)
    requires Less(a, b) && Less(b, c)
    ensures Less(a, c)
  {
    if a != "" && a[0] == b[0] && b[0] == c[0] {
      LessTransitive(a[1..], b[1..], c[1..]);
    }
  }

  /** Dictionary order: a proper prefix comes first, and otherwise the first
      characters that differ decide. */
  lemma {:induction false} LessExact(a: string, b: string)
    ensures Less(a, b) <==> (|a| < |b| && a == b[..|a|]) || exists i :: DiffersAt(a, b, i) && a[i] < b[i]
  {
    if a != "" && b != "" {
      assert a == [a[0]] + a[1..] && b == [b[0]] + b[1..];
      if a[0] == b[0] {
        LessExact(a[1..], b[1..]);
        if |a| <= |b| { assert b[..|a|] == [b[0]] + b[1..][..|a| - 1]; }
        forall i | 0 < i ensures DiffersAt(a, b, i) <==> DiffersAt(a[1..], b[1..], i - 1) { DiffersLater(a, b, i); }
        if i :| DiffersAt(a[1..], b[1..], i) && a[1..][i] < b[1..][i] { assert DiffersAt(a, b, i + 1); }
      } else {
        assert DiffersAt(a, b, 0);
        forall i | 0 < i <= |a| && i <= |b| ensures a[..i] != b[..i] { assert a[..i][0] != b[..i][0]; }
      }
    }
  }

  predicate DiffersAt(a: string, b: string, i: int) {
    0 <= i < |a| && i < |b| && a[..i] == b[..i] && a[i] != b[i]
  }

  lemma DiffersLater(a: string, b: string, i: int)
    requires a != "" && b != "" && a[0] == b[0] && 0 < i
    ensures DiffersAt(a, b, i) <==> DiffersAt(a[1..], b[1..], i - 1)
  {
    if i <= |a| && i <= |b| {
      assert a[..i] == [a[0]] + a[1..][..i - 1] && b[..i] == [b[0]] + b[1..][..i - 1];
      if a[..i] == b[..i] { assert a[1..][..i - 1] == a[..i][1..] && b[1..][..i - 1] == b[..i][1..]; }
    }
  }

  /** "not greater" is transitive too. */
  lemma AtMostTransitive(a: string, b: string, c: string)
    requires !Less(b, a) && !Less(c, b)
    ensures !Less(c, a)
  {
    if Less(c, a) {
      LessTotal(a, b);
      LessTotal(b, c);
      if a != b && b != c { LessTransitive(a, b, c); LessTotal(a, c); }
    }
  }

  lemma {:induction false} InsertKeeps(x: string, s: seq<string>)
    ensures multiset(Insert(x, s)) == multiset{x} + multiset(s)
  {
    if s != [] && Less(s[0], x) {
      InsertKeeps(x, s[1..]);
      assert s == [s[0]] + s[1..];
    }
  }

  /** Every element of a sorted sequence is at least a lower bound of its head. */
  lemma Bounded(low: string, s: seq<string>)
    requires IsSorted(s) && (s != [] ==> !Less(s[0], low))
    ensures IsSorted([low] + s)
  {
    forall j | 0 <= j < |s| ensures !Less(s[j], low) {
      if j > 0 { AtMostTransitive(low, s[0], s[j]); }
    }
  }

  lemma {:induction false} InsertSorted(x: string, s: seq<string>)
    requires IsSorted(s)
    ensures IsSorted(Insert(x, s))
  {
    if s != [] && Less(s[0], x) {
      InsertSorted(x, s[1..]);
      LessTotal(s[0], x);
      Bounded(s[0], Insert(x, s[1..]));
    } else {
      Bounded(x, s);
    }
  }

  lemma {:induction false} SortedIsSorted(s: seq<string>)
    ensures IsSorted(Sorted(s))
    ensures multiset(Sorted(s)) == multiset(s)
  {
    if s != [] {
      SortedIsSorted(s[1..]);
      InsertSorted(s[0], Sorted(s[1..]));
      InsertKeeps(s[0], Sorted(s[1..]));
      assert s == [s[0]] + s[1..];
    }
  }

  /** A sorted arrangement is determined by the values alone. */
  lemma {:induction false} SortedUnique(a: seq<string>, b: seq<string>)
    requires IsSorted(a) && IsSorted(b) && multiset(a) == multiset(b)
    ensures a == b
  {
    if a == [] {
      assert |b| == |multiset(b)|;
    } else {
      assert a[0] in multiset(b) && |multiset(b)| == |b|;
      assert b[0] in multiset(a);
      var i :| 0 <= i < |b| && b[i] == a[0];
      var j :| 0 <= j < |a| && a[j] == b[0];
      LessTotal(a[0], b[0]);
      assert multiset(a) == multiset{a[0]} + multiset(a[1..]) by { assert a == [a[0]] + a[1..]; }
      assert multiset(b) == multiset{b[0]} + multiset(b[1..]) by { assert b == [b[0]] + b[1..]; }
      assert a[0] == b[0];
      assert multiset(a[1..]) == multiset(a) - multiset{a[0]};
      SortedUnique(a[1..], b[1..]);
    }
  }

  /** Sorting forgets exactly the order. */
  lemma SortedEqual(a: seq<string>, b: seq<string>)
    ensures Sorted(a) == Sorted(b) <==> multiset(a) == multiset(b)
  {
    SortedIsSorted(a);
    SortedIsSorted(b);
    if multiset(a) == multiset(b) { SortedUnique(Sorted(a), Sorted(b)); }
  }

  /** sortStrings of internal/sshx/ssh.go: insertion sort by adjacent swaps. */
  method SortStrings(values: array<string>)
    modifies values
    ensures values[..] == Sorted(old(values[..]))
  {
    hide Less, Sorted;
    var i := 1;
    while i < values.Length
      invariant 1 <= i
      invariant forall p, q :: 0 <= p < q < i && q < values.Length ==> !Less(values[q], values[p])
      invariant multiset(values[..]) == multiset(old(values[..]))
    {
      var j := i;
      while j > 0 && Less(values[j], values[j - 1])
        invariant 0 <= j <= i
        invariant forall p, q :: 0 <= p < q <= i && q != j ==> !Less(values[q], values[p])
        invariant multiset(values[..]) == multiset(old(values[..]))
      {
        LessTotal(values[j], values[j - 1]);
        values[j], values[j - 1] := values[j - 1], values[j];
        j := j - 1;
      }
      forall p | 0 <= p < j ensures !Less(values[j], values[p]) {
        if p < j - 1 { AtMostTransitive(values[p], values[j - 1], values[j]); }
      }
      i := i + 1;
    }
    SortedIsSorted(old(values[..]));
    SortedUnique(values[..], Sorted(old(values[..])));
  }

  // -------------------------------------------------- the keys of a map, sorted

  ghost function AnyOrder(s: set<string>): (r: seq<string>)
    ensures multiset(r) == multiset(s)
  {
    if s == {} then [] else var x :| x in s; [x] + AnyOrder(s - {x})
  }

  /** The keys of a map in sorted order, however the map is traversed. */
  ghost function SortedKeys(s: set<string>): seq<string> {
    Sorted(AnyOrder(s))
  }

  /** The traversal order of the map does not matter. */
  lemma SortedKeysUnique(s: set<string>, traversal: seq<string>)
    requires multiset(traversal) == multiset(s)
    ensures Sorted(traversal) == SortedKeys(s)
  {
    SortedEqual(traversal, AnyOrder(s));
  }

  lemma SortedKeysCount(s: set<string>)
    ensures |SortedKeys(s)| == |s|
  {
    SortedIsSorted(AnyOrder(s));
    assert |multiset(SortedKeys(s))| == |SortedKeys(s)| && |multiset(s)| == |s|;
  }

  lemma SortedKeysWithin(s: set<string>)
    ensures forall k :: k in SortedKeys(s) <==> k in s
  {
    var keys := SortedKeys(s);
    SortedIsSorted(AnyOrder(s));
    forall k ensures k in keys <==> k in s {
      assert k in keys <==> k in multiset(keys);
      assert k in multiset(s) <==> k in s;
    }
  }

  /** Ranging over a map visits its keys in any order. */
  method CollectKeys(s: set<string>) returns (keys: seq<string>)
    ensures multiset(keys) == multiset(s)
  {
    keys := [];
    var remaining := s;
    while remaining != {}
      invariant remaining <= s
      invariant multiset(keys) + multiset(remaining) == multiset(s)
      decreases |remaining|
    {
      var k :| k in remaining;
      remaining := remaining - {k};
      keys := keys + [k];
    }
  }
}
