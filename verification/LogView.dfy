/** Which rows the log view shows: matches with their surrounding context, and
    why appending rows gives what a rebuild from scratch would
    (webembed/src/app/43-log-rendering.js). */
module LogView {

  /** The elements of s in [lo, hi), in order. */
  function Ascending(s: set<int>, lo: int, hi: int): seq<int>
    decreases hi - lo
  {
    if lo >= hi then []
    else if hi - 1 in s then Ascending(s, lo, hi - 1) + [hi - 1]
    else Ascending(s, lo, hi - 1)
  }

  predicate Near(i: int, matches: set<int>, before: nat, after: nat) {
    exists m :: m in matches && m - before <= i <= m + after
  }

  /** The indexes below total that lie in the context of some match. */
  function Context(matches: set<int>, total: nat, before: nat, after: nat): set<int> {
    set i | 0 <= i < total && Near(i, matches, before, after)
  }

  function Elements(s: seq<int>): set<int> {
    set x | x in s
  }

  /** expandLogContext: a set filled match by match, then sorted. */
  method ExpandLogContext(matches: seq<int>, total: nat, before: nat, after: nat) returns (indexes: seq<int>)
    ensures indexes == Ascending(Context(Elements(matches), total, before, after), 0, total)
  {
    var found: set<int> := {};
    for k := 0 to |matches|
      invariant found == Context(Elements(matches[..k]), total, before, after)
    {
      var index := matches[k];
      var start := if index - before > 0 then index - before else 0;
      var end := if index + after < total - 1 then index + after else total - 1;
      ghost var filled := found;
      var cursor := start;
      while cursor <= end
        invariant start <= cursor
        invariant forall i :: i in found <==> i in filled || (start <= i < cursor && i <= end)
      {
        found := found + {cursor};
        cursor := cursor + 1;
      }
      ContextOneMore(matches, k, total, before, after);
      forall i ensures i in found <==> i in Context(Elements(matches[..k + 1]), total, before, after) {
        assert i in found <==> i in filled || (0 <= i < total && index - before <= i <= index + after);
      }
    }
    assert matches[..|matches|] == matches;
    indexes := SortIndexes(found, total);
  }

  lemma ContextOneMore(matches: seq<int>, k: nat, total: nat, before: nat, after: nat)
    requires k < |matches|
    ensures forall i :: i in Context(Elements(matches[..k + 1]), total, before, after) <==>
      i in Context(Elements(matches[..k]), total, before, after)
        || (0 <= i < total && matches[k] - before <= i <= matches[k] + after)
  {
    assert Elements(matches[..k + 1]) == Elements(matches[..k]) + {matches[k]} by {
      assert matches[..k + 1] == matches[..k] + [matches[k]];
    }
  }

  /** Sorting the elements of a set of indexes. */
  method SortIndexes(s: set<int>, total: nat) returns (r: seq<int>)
    ensures r == Ascending(s, 0, total)
  {
    r := [];
    for i := 0 to total
      invariant r == Ascending(s, 0, i)
    {
      if i in s { r := r + [i]; }
    }
  }

  // ------------------------------------------------------------------- ascending

  lemma {:induction false} AscendingSplit(s: set<int>, lo: int, mid: int, hi: int)
    requires lo <= mid <= hi
    ensures Ascending(s, lo, hi) == Ascending(s, lo, mid) + Ascending(s, mid, hi)
    decreases hi - mid
  {
    if mid == hi {
      assert Ascending(s, lo, mid) + [] == Ascending(s, lo, mid);
    } else {
      AscendingSplit(s, lo, mid, hi - 1);
    }
  }

  lemma {:induction false} AscendingSame(s: set<int>, t: set<int>, lo: int, hi: int)
    requires forall i :: lo <= i < hi ==> (i in s <==> i in t)
    ensures Ascending(s, lo, hi) == Ascending(t, lo, hi)
    decreases hi - lo
  {
    if lo < hi { AscendingSame(s, t, lo, hi - 1); }
  }

  /** Ascending lists exactly the elements in range. */
  lemma {:induction false} AscendingElements(s: set<int>, lo: int, hi: int, i: int)
    ensures i in Ascending(s, lo, hi) <==> lo <= i < hi && i in s
    decreases hi - lo
  {
    if lo < hi { AscendingElements(s, lo, hi - 1, i); }
  }

  function LastOr(s: seq<int>, default: int): int {
    if s == [] then default else s[|s| - 1]
  }

  /** Nothing lies beyond the last element. */
  lemma {:induction false} AscendingLast(s: set<int>, hi: nat)
    ensures var last := LastOr(Ascending(s, 0, hi), -1);
      && -1 <= last < hi && (last >= 0 ==> last in s)
      && (forall i :: last < i < hi ==> i !in s)
      && Ascending(s, 0, hi) == Ascending(s, 0, last + 1)
  {
    if hi > 0 && hi - 1 !in s { AscendingLast(s, hi - 1); }
  }

  // ------------------------------------------------- context sizes with fractions

  predicate Whole(x: real) {
    x == x.Floor as real
  }

  /** The loop over one match starts and ends here. */
  function StartOf(m: int, before: real): real {
    if m as real - before > 0.0 then m as real - before else 0.0
  }

  function EndOf(m: int, total: nat, after: real): real {
    if m as real + after < (total - 1) as real then m as real + after else (total - 1) as real
  }

  /** The loop counts up to x from its start by ones. */
  predicate Reaches(m: int, x: real, total: nat, before: real, after: real) {
    StartOf(m, before) <= x <= EndOf(m, total, after) && Whole(x - StartOf(m, before))
  }

  /** The number inputs may give any sizes; x is in the set that expandLogContext
      fills. */
  predicate Position(x: real, matches: set<int>, total: nat, before: real, after: real) {
    exists m :: m in matches && Reaches(m, x, total, before, after)
  }

  ghost predicate OnlyRecords(matches: set<int>, total: nat, before: real, after: real) {
    forall x :: Position(x, matches, total, before, after) ==> Whole(x)
  }

  /** Every position is the index of a record exactly when the size before is
      whole or reaches past the first record from every match. Then they are the
      context of the sizes without their fractions. */
  lemma PositionsAreRecordsIff(matches: set<int>, total: nat, before: real, after: real)
    requires forall m :: m in matches ==> 0 <= m < total
    requires 0.0 <= before && 0.0 <= after
    ensures OnlyRecords(matches, total, before, after) <==>
      Whole(before) || (forall m :: m in matches ==> m as real <= before)
    ensures OnlyRecords(matches, total, before, after) ==> forall i: int ::
      Position(i as real, matches, total, before, after) <==> i in Context(matches, total, before.Floor, after.Floor)
  {
    hide Position;
    var whole := Whole(before) || forall m :: m in matches ==> m as real <= before;
    if whole {
      forall x | Position(x, matches, total, before, after) ensures Whole(x) {
        var m := Reaching(x, matches, total, before, after);
        WholeFrom(m, x, before);
      }
      forall i: int ensures Position(i as real, matches, total, before, after) <==>
        i in Context(matches, total, before.Floor, after.Floor)
      {
        PositionIsNear(matches, i, total, before, after);
      }
    } else {
      var m :| m in matches && m as real > before;
      StartIsReached(m, matches, total, before, after);
      assert Whole(StartOf(m, before)) ==> before == (m - StartOf(m, before).Floor) as real;
    }
  }

  /** One and a half records before the third one begin between two records. */
  lemma HalfPosition()
    ensures Position(0.5, {2}, 3, 1.5, 0.0) && !OnlyRecords({2}, 3, 1.5, 0.0)
  {
    hide Position;
    StartIsReached(2, {2}, 3, 1.5, 0.0);
    assert StartOf(2, 1.5) == 0.5 && !Whole(0.5);
  }

  lemma Reaching(x: real, matches: set<int>, total: nat, before: real, after: real) returns (m: int)
    requires Position(x, matches, total, before, after)
    ensures m in matches && Reaches(m, x, total, before, after)
  {
    m :| m in matches && Reaches(m, x, total, before, after);
  }

  lemma StartIsReached(m: int, matches: set<int>, total: nat, before: real, after: real)
    requires m in matches && 0 <= m < total && 0.0 <= before && 0.0 <= after
    ensures Position(StartOf(m, before), matches, total, before, after)
  {
    assert Reaches(m, StartOf(m, before), total, before, after);
  }

  lemma WholeFrom(m: int, x: real, before: real)
    requires Whole(x - StartOf(m, before)) && (Whole(before) || m as real <= before)
    ensures Whole(x) && Whole(StartOf(m, before))
  {
    var start := if m as real > before then m - before.Floor else 0;
    assert StartOf(m, before) == start as real;
    assert x == ((x - StartOf(m, before)).Floor + start) as real;
  }

  lemma PositionIsNear(matches: set<int>, i: int, total: nat, before: real, after: real)
    requires forall m :: m in matches ==> 0 <= m < total
    requires 0.0 <= before && 0.0 <= after
    requires Whole(before) || forall m :: m in matches ==> m as real <= before
    ensures Position(i as real, matches, total, before, after) <==>
      i in Context(matches, total, before.Floor, after.Floor)
  {
    hide Reaches;
    forall m | m in matches ensures Reaches(m, i as real, total, before, after) <==>
      0 <= i < total && m - before.Floor <= i <= m + after.Floor
    {
      ReachesIndex(m, i, total, before, after);
    }
  }

  lemma ReachesIndex(m: int, i: int, total: nat, before: real, after: real)
    requires 0 <= m < total && 0.0 <= before && 0.0 <= after
    requires Whole(before) || m as real <= before
    ensures Reaches(m, i as real, total, before, after) <==>
      0 <= i < total && m - before.Floor <= i <= m + after.Floor
  {
    var start := if m as real > before then m - before.Floor else 0;
    assert StartOf(m, before) == start as real;
    assert (i as real - start as real).Floor == i - start;
  }

  // --------------------------------------------------- appended rows are enough

  /** Later matches never reveal a hidden index at or below the last visible one. */
  lemma ContextKept(earlier: set<int>, later: set<int>, n: nat, total: nat, before: nat, after: nat, i: int)
    requires n <= total
    requires forall m :: m in earlier ==> 0 <= m < n
    requires forall m :: m in later ==> n <= m < total
    requires 0 <= i <= LastOr(Ascending(Context(earlier, n, before, after), 0, n), -1)
    ensures i in Context(earlier + later, total, before, after) <==> i in Context(earlier, n, before, after)
  {
    var c := Context(earlier, n, before, after);
    AscendingLast(c, n);
    var last := LastOr(Ascending(c, 0, n), -1);
    if i in Context(earlier + later, total, before, after) {
      var m :| m in earlier + later && m - before <= i <= m + after;
      if m in later {
        var p :| p in earlier && p - before <= last <= p + after;
        assert p - before <= i <= p + after;
      }
    }
    if i in c {
      var m :| m in earlier && m - before <= i <= m + after;
      assert m in earlier + later;
    }
  }

  /** The visible indexes after appending: those already shown, then those of the
      new selection beyond the last one shown. */
  lemma VisibleGrows(earlier: set<int>, later: set<int>, n: nat, total: nat, before: nat, after: nat)
    requires n <= total
    requires forall m :: m in earlier ==> 0 <= m < n
    requires forall m :: m in later ==> n <= m < total
    ensures var shown := Ascending(Context(earlier, n, before, after), 0, n);
      Ascending(Context(earlier + later, total, before, after), 0, total)
      == shown + Ascending(Context(earlier + later, total, before, after), LastOr(shown, -1) + 1, total)
  {
    var c, d := Context(earlier, n, before, after), Context(earlier + later, total, before, after);
    AscendingLast(c, n);
    var last := LastOr(Ascending(c, 0, n), -1);
    AscendingSplit(d, 0, last + 1, total);
    forall i | 0 <= i < last + 1 ensures i in d <==> i in c {
      ContextKept(earlier, later, n, total, before, after, i);
    }
    AscendingSame(c, d, 0, last + 1);
  }
}
