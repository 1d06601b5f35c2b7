/** The live log view: the event handler that fills the buffer, the render
    scheduler, and the renderer with its fast path for appended records
    (webembed/src/app/42-activity-streams.js and 43-log-rendering.js). */
module LogStream {
  import opened LogBuffer
  import opened LogView
  import opened Wrappers

  /** The fields of the filter form that the filter signature lists; `terms` is
      every field that selects records. */
  datatype Filter = Filter(terms: seq<string>, active: bool, error: string, before: nat, after: nat)

  datatype Row = Row(record: Record, index: int, highlighted: bool)

  type Matcher = (Record, Filter) -> bool

  /** The indexes of the records a filter matches. */
  function MatchSet(rs: seq<Record>, f: Filter, matches: Matcher): set<int> {
    if f.active && f.error == "" then set i | 0 <= i < |rs| && matches(rs[i], f) else {}
  }

  function UpTo(n: nat): (s: set<int>)
    ensures forall i :: i in s <==> 0 <= i < n
  {
    if n == 0 then {} else UpTo(n - 1) + {n - 1}
  }

  function VisibleSet(rs: seq<Record>, f: Filter, matches: Matcher): set<int> {
    if f.active then Context(MatchSet(rs, f, matches), |rs|, f.before, f.after) else UpTo(|rs|)
  }

  function MatchIndexes(rs: seq<Record>, f: Filter, matches: Matcher): seq<int> {
    Ascending(MatchSet(rs, f, matches), 0, |rs|)
  }

  function VisibleIndexes(rs: seq<Record>, f: Filter, matches: Matcher): seq<int> {
    Ascending(VisibleSet(rs, f, matches), 0, |rs|)
  }

  function RowsAt(rs: seq<Record>, indexes: seq<int>, highlighted: set<int>): seq<Row> {
    if indexes == [] then []
    else
      var i := indexes[|indexes| - 1];
      RowsAt(rs, indexes[..|indexes| - 1], highlighted)
      + if 0 <= i < |rs| then [Row(rs[i], i, i in highlighted)] else []
  }

  /** The rows that rendering everything from scratch gives. */
  function AllRows(rs: seq<Record>, f: Filter, matches: Matcher): seq<Row> {
    RowsAt(rs, VisibleIndexes(rs, f, matches), MatchSet(rs, f, matches))
  }

  const WAITING := "Waiting for records…"

  function PlaceholderText(rs: seq<Record>, f: Filter): string {
    if rs == [] then WAITING
    else if f.error != "" then f.error
    else "No records match the active filters."
  }

  // ------------------------------------------------ what appended records change

  lemma {:induction false} RowsJoin(rs: seq<Record>, a: seq<int>, b: seq<int>, highlighted: set<int>)
    ensures RowsAt(rs, a + b, highlighted) == RowsAt(rs, a, highlighted) + RowsAt(rs, b, highlighted)
  {
    if b == [] {
      assert a + b == a;
      assert RowsAt(rs, a, highlighted) + [] == RowsAt(rs, a, highlighted);
    } else {
      RowsJoin(rs, a, b[..|b| - 1], highlighted);
      assert (a + b)[..|a + b| - 1] == a + b[..|b| - 1];
    }
  }

  /** Rows depend only on the records and matches at their own indexes. */
  lemma {:induction false} RowsSame(rs: seq<Record>, ts: seq<Record>, indexes: seq<int>, h: set<int>, k: set<int>)
    requires rs <= ts && forall i :: 0 <= i < |rs| ==> (i in h <==> i in k)
    requires forall j :: 0 <= j < |indexes| ==> 0 <= indexes[j] < |rs|
    ensures RowsAt(rs, indexes, h) == RowsAt(ts, indexes, k)
  {
    if indexes != [] {
      var last := indexes[|indexes| - 1];
      RowsSame(rs, ts, indexes[..|indexes| - 1], h, k);
    }
  }

  lemma MatchesGrow(rs: seq<Record>, n: nat, f: Filter, matches: Matcher)
    requires n <= |rs|
    ensures forall i :: 0 <= i < n ==> (i in MatchSet(rs[..n], f, matches) <==> i in MatchSet(rs, f, matches))
    ensures MatchIndexes(rs, f, matches)
      == MatchIndexes(rs[..n], f, matches) + Ascending(MatchSet(rs, f, matches), n, |rs|)
  {
    AscendingSplit(MatchSet(rs, f, matches), 0, n, |rs|);
    AscendingSame(MatchSet(rs[..n], f, matches), MatchSet(rs, f, matches), 0, n);
  }

  lemma AllIndexesGrow(n: nat, total: nat)
    requires n <= total
    ensures LastOr(Ascending(UpTo(n), 0, n), -1) == n - 1
    ensures Ascending(UpTo(total), 0, total) == Ascending(UpTo(n), 0, n) + Ascending(UpTo(total), n, total)
  {
    AscendingSplit(UpTo(total), 0, n, total);
    AscendingSame(UpTo(n), UpTo(total), 0, n);
  }

  /** The visible indexes of a longer buffer extend those of a shorter one. */
  lemma VisibleIndexesGrow(rs: seq<Record>, n: nat, f: Filter, matches: Matcher)
    requires n <= |rs|
    ensures var shown := VisibleIndexes(rs[..n], f, matches);
      && (forall j :: 0 <= j < |shown| ==> 0 <= shown[j] < n)
      && VisibleIndexes(rs, f, matches) == shown + Ascending(VisibleSet(rs, f, matches), LastOr(shown, -1) + 1, |rs|)
  {
    hide Ascending, Context;
    var shown := VisibleIndexes(rs[..n], f, matches);
    forall j | 0 <= j < |shown| ensures 0 <= shown[j] < n {
      AscendingElements(VisibleSet(rs[..n], f, matches), 0, n, shown[j]);
    }
    if f.active {
      var earlier, all := MatchSet(rs[..n], f, matches), MatchSet(rs, f, matches);
      MatchesGrow(rs, n, f, matches);
      assert earlier + (all - earlier) == all;
      VisibleGrows(earlier, all - earlier, n, |rs|, f.before, f.after);
    } else {
      AllIndexesGrow(n, |rs|);
    }
  }

  /** Appending the rows beyond the last visible one is rendering from scratch,
      whatever the context sizes. */
  lemma RowsGrow(rs: seq<Record>, n: nat, f: Filter, matches: Matcher)
    requires n <= |rs|
    ensures AllRows(rs, f, matches) == AllRows(rs[..n], f, matches)
      + RowsAt(rs, Ascending(VisibleSet(rs, f, matches), LastOr(VisibleIndexes(rs[..n], f, matches), -1) + 1, |rs|),
          MatchSet(rs, f, matches))
  {
    hide Ascending, MatchSet, VisibleSet, RowsAt;
    var shown := VisibleIndexes(rs[..n], f, matches);
    VisibleIndexesGrow(rs, n, f, matches);
    MatchesGrow(rs, n, f, matches);
    RowsSame(rs[..n], rs, shown, MatchSet(rs[..n], f, matches), MatchSet(rs, f, matches));
    RowsJoin(rs, shown, Ascending(VisibleSet(rs, f, matches), LastOr(shown, -1) + 1, |rs|), MatchSet(rs, f, matches));
  }

  // ------------------------------------------------------- what a page has to show

  /** An active filter without an error matches record i. */
  predicate IsMatch(rs: seq<Record>, f: Filter, matches: Matcher, i: int) {
    0 <= i < |rs| && f.active && f.error == "" && matches(rs[i], f)
  }

  /** Without a filter every record has a row; under one, those near a match. */
  predicate Wanted(rs: seq<Record>, f: Filter, matches: Matcher, i: int) {
    0 <= i < |rs|
    && (f.active ==> exists m :: IsMatch(rs, f, matches, m) && m - f.before <= i <= m + f.after)
  }

  predicate HasRow(rows: seq<Row>, i: int) {
    exists j :: 0 <= j < |rows| && rows[j].index == i
  }

  /** The rows in the order of the records, each with its record and highlighted if
      it matches; a record has one exactly when it is wanted. */
  ghost predicate PageRight(rs: seq<Record>, f: Filter, matches: Matcher, rows: seq<Row>) {
    && (forall j :: 0 <= j < |rows| ==>
          && 0 <= rows[j].index < |rs| && rows[j].record == rs[rows[j].index]
          && (rows[j].highlighted <==> IsMatch(rs, f, matches, rows[j].index)))
    && (forall j, k :: 0 <= j < k < |rows| ==> rows[j].index < rows[k].index)
    && (forall i :: HasRow(rows, i) <==> Wanted(rs, f, matches, i))
  }

  /** Elements of s in the range, each greater than the one before. */
  ghost predicate InOrder(r: seq<int>, s: set<int>, lo: int, hi: int) {
    && (forall j :: 0 <= j < |r| ==> lo <= r[j] < hi && r[j] in s)
    && (forall j, k :: 0 <= j < k < |r| ==> r[j] < r[k])
  }

  lemma {:induction false} AscendingOrder(s: set<int>, lo: int, hi: int)
    ensures InOrder(Ascending(s, lo, hi), s, lo, hi)
    decreases hi - lo
  {
    if lo < hi { AscendingOrder(s, lo, hi - 1); }
  }

  lemma {:induction false} RowsAre(rs: seq<Record>, indexes: seq<int>, h: set<int>)
    requires forall j :: 0 <= j < |indexes| ==> 0 <= indexes[j] < |rs|
    ensures |RowsAt(rs, indexes, h)| == |indexes|
    ensures forall j :: 0 <= j < |indexes| ==>
      RowsAt(rs, indexes, h)[j] == Row(rs[indexes[j]], indexes[j], indexes[j] in h)
  {
    if indexes != [] { RowsAre(rs, indexes[..|indexes| - 1], h); }
  }

  lemma WantedIsVisible(rs: seq<Record>, f: Filter, matches: Matcher, i: int)
    ensures Wanted(rs, f, matches, i) <==> 0 <= i < |rs| && i in VisibleSet(rs, f, matches)
    ensures IsMatch(rs, f, matches, i) <==> i in MatchSet(rs, f, matches)
  {
    forall m ensures IsMatch(rs, f, matches, m) <==> m in MatchSet(rs, f, matches) {}
  }

  /** Rendering from scratch shows what a page has to show. */
  lemma AllRowsRight(rs: seq<Record>, f: Filter, matches: Matcher)
    ensures PageRight(rs, f, matches, AllRows(rs, f, matches))
  {
    hide VisibleSet, MatchSet, Ascending, RowsAt, Wanted, IsMatch;
    var s := VisibleSet(rs, f, matches);
    var visible, rows := VisibleIndexes(rs, f, matches), AllRows(rs, f, matches);
    AscendingOrder(s, 0, |rs|);
    RowsAre(rs, visible, MatchSet(rs, f, matches));
    forall j | 0 <= j < |rows|
      ensures rows[j].highlighted <==> IsMatch(rs, f, matches, rows[j].index)
    {
      WantedIsVisible(rs, f, matches, rows[j].index);
    }
    forall i ensures HasRow(rows, i) <==> Wanted(rs, f, matches, i) {
      WantedIsVisible(rs, f, matches, i);
      AscendingElements(s, 0, |rs|, i);
      if i in visible {
        var j :| 0 <= j < |visible| && visible[j] == i;
        assert rows[j].index == i;
      }
    }
  }

  // ------------------------------------------------------------------- the stream

  class ActivityStream {
    const single: bool
    const rules: Rules
    const matches: Matcher

    var records: seq<Record>
    var seen: set<Key>
    var arrivals: nat
    var lastSequence: map<string, int>

    var pending: bool
    var fullRender: bool
    var renderedCount: nat
    var matchedCount: nat
    var filterSignature: Option<Filter>
    var matchIndexes: seq<int>
    var visibleIndexes: seq<int>
    var renderedVisibleMax: int

    // What the page shows: rows, or a placeholder when there are none.
    var rows: seq<Row>
    var placeholder: Option<string>

    ghost function Contents(): Log
      reads this
    {
      Log(records, seen, arrivals, lastSequence)
    }

    /** The page shows the first renderedCount records as filter f would. */
    ghost predicate Shows(f: Filter)
      requires renderedCount <= |records|
      reads this
    {
      && matchIndexes == MatchIndexes(records[..renderedCount], f, matches) && matchedCount == |matchIndexes|
      && renderedVisibleMax == LastOr(VisibleIndexes(records[..renderedCount], f, matches), -1)
      && rows == AllRows(records[..renderedCount], f, matches)
      && (placeholder.Some? <==> rows == [])
    }

    ghost predicate Valid()
      reads this
    {
      && (pending && !fullRender ==> |records| > renderedCount)
      && (!fullRender ==> renderedCount <= |records| && filterSignature.Some? && Shows(filterSignature.value))
    }

    /** startActivityStream */
    constructor (retained: seq<Record>, single: bool, rules: Rules, matches: Matcher)
      ensures Valid() && this.single == single && this.rules == rules && this.matches == matches
      ensures Contents() == Log(Retained(retained), KeySet(Retained(retained)), |Retained(retained)|, map[])
      ensures fullRender && (pending <==> retained != [])
    {
      this.single, this.rules, this.matches := single, rules, matches;
      var kept := if |retained| <= MAX_RECORDS then retained else retained[|retained| - MAX_RECORDS..];
      records, seen, arrivals, lastSequence := kept, KeySet(kept), |kept|, map[];
      fullRender, renderedCount, matchedCount, filterSignature := true, 0, 0, None;
      matchIndexes, visibleIndexes, renderedVisibleMax := [], [], -1;
      rows, placeholder := [], None;
      pending := kept != [];
    }

    /** scheduleActivityRender */
    method ScheduleRender(full: bool)
      requires full || fullRender
        || (|records| > renderedCount && filterSignature.Some? && Shows(filterSignature.value))
      modifies this`fullRender, this`pending
      ensures Valid() && pending && fullRender == (old(fullRender) || full)
    {
      if full { fullRender := true; }
      if pending { return; }
      pending := true;
    }

    /** coalesceActivityRecord */
    method Coalesce(r: Record) returns (coalesced: bool)
      modifies this`records
      ensures coalesced == (old(records) != [] && Coalesces(old(records)[|old(records)| - 1], r, rules))
      ensures var n := |old(records)| - 1;
        records == if coalesced then old(records)[..n] + [Combined(old(records)[n], r)] else old(records)
    {
      if records == [] || !Coalesces(records[|records| - 1], r, rules) { return false; }
      var n := |records| - 1;
      records := records[n := Combined(records[n], r)];
      coalesced := true;
      assert records == old(records)[..n] + [Combined(old(records)[n], r)];
    }

    /** trimActivityBuffer */
    method Trim()
      modifies this`records, this`seen, this`fullRender
      ensures Contents() == Trimmed(old(Contents()))
      ensures fullRender == (old(fullRender) || |old(records)| > MAX_RECORDS)
    {
      if |records| <= MAX_RECORDS { return; }
      var removed := records[..TRIM];
      assert KeySet(removed[..0]) == {};
      records := records[TRIM..];
      for i := 0 to TRIM
        invariant seen == old(seen) - KeySet(removed[..i])
        invariant records == old(records)[TRIM..] && fullRender == old(fullRender)
      {
        var keys := Keys(removed[i]);
        for j := 0 to |keys|
          invariant seen == old(seen) - KeySet(removed[..i]) - Listed(keys[..j])
          invariant records == old(records)[TRIM..] && fullRender == old(fullRender)
        {
          seen := seen - {keys[j]};
          ListedOneMore(keys, j);
        }
        assert keys[..|keys|] == keys;
        KeySetOneMore(removed, i);
      }
      assert removed[..TRIM] == removed;
      fullRender := true;
    }

    /** The handler's first half: number the record and report a gap. */
    method ReportGap(r: Record, source: string, target: string)
      modifies this`records, this`seen, this`arrivals, this`lastSequence
      ensures Contents() == Announce(old(Contents()), r, source, target) && old(records) <= records
    {
      arrivals := arrivals + 1;
      if r.sequence.Some? {
        var sequence := r.sequence.value;
        if source in lastSequence && sequence > lastSequence[source] + 1 {
          arrivals := arrivals + 1;
          var notice := Notice(r, target, lastSequence[source], sequence, arrivals);
          records := records + [notice];
          seen := seen + {DedupeKey(notice)};
        }
        if source !in lastSequence || sequence > lastSequence[source] {
          lastSequence := lastSequence[source := sequence];
        }
      }
    }

    /** The handler's second half, for a record that is not a duplicate. */
    method Store(r: Record) returns (coalesced: bool)
      requires r.keys == [DedupeKey(r)] && DedupeKey(r) !in seen
      modifies this`records, this`seen, this`fullRender
      ensures Contents() == Trimmed(Stored(old(Contents()), r, single, rules))
      ensures coalesced == WillCoalesce(old(Contents()), r, single, rules)
      ensures fullRender == (old(fullRender) || |Stored(old(Contents()), r, single, rules).records| > MAX_RECORDS)
      ensures single && !coalesced && !fullRender ==> records == old(records) + [r]
    {
      hide Combined, Coalesces, Merged, KeySet, Keys, DedupeKey;
      seen := seen + {DedupeKey(r)};
      coalesced := false;
      if single { coalesced := Coalesce(r); }
      if !coalesced { records := records + [r]; }
      if !single { records := Merged(records, rules); }
      Trim();
    }

    /** The handler of one arriving record. */
    method OnActivity(arriving: Record, source: string, target: string)
      requires Valid()
      modifies this`records, this`seen, this`arrivals, this`lastSequence, this`pending, this`fullRender
      ensures Valid()
      ensures Contents() == Arrive(old(Contents()), arriving, source, target, single, rules)
      ensures !Duplicate(Announce(old(Contents()), arriving, source, target), arriving) ==> pending
      ensures (old(pending) ==> pending) && (old(fullRender) ==> fullRender)
      ensures fullRender ==> old(fullRender) || NeedsFull(old(Contents()), arriving, source, target, single, rules)
    {
      hide Announce, Stored, Trimmed, AllRows, MatchIndexes, VisibleIndexes, LinesIn, Duplicate;
      var arrival := arrivals + 1;
      ReportGap(arriving, source, target);
      assert !fullRender ==> records[..renderedCount] == old(records)[..renderedCount];
      SameKey(Contents(), arriving);
      if DedupeKey(arriving) in seen { return; }
      var r := arriving.(keys := [DedupeKey(arriving)], lineCount := LinesIn(arriving.content.message),
          arrival := arrival);
      var coalesced := Store(r);
      assert single && !coalesced && !fullRender ==> records[..renderedCount] == old(records)[..renderedCount];
      ScheduleRender(!single || coalesced);
    }

    /** The clear-stream action. */
    method Clear()
      modifies this
      ensures Valid() && Contents() == Cleared(old(Contents())) && pending && fullRender
    {
      records, seen := [], {};
      renderedCount, matchedCount := 0, 0;
      matchIndexes, visibleIndexes, renderedVisibleMax := [], [], -1;
      ScheduleRender(true);
    }

    /** The matches of the render in progress: all of them again, or the known
        ones and those among the records not rendered yet. */
    method FindMatches(f: Filter, rebuild: bool) returns (found: seq<int>)
      requires !rebuild ==>
        renderedCount <= |records| && matchIndexes == MatchIndexes(records[..renderedCount], f, matches)
      ensures found == MatchIndexes(records, f, matches)
    {
      found := [];
      if f.active && f.error == "" {
        var index := 0;
        if !rebuild {
          found, index := matchIndexes, renderedCount;
          MatchesGrow(records, renderedCount, f, matches);
          var known := MatchSet(records[..renderedCount], f, matches);
          AscendingSame(known, MatchSet(records, f, matches), 0, renderedCount);
        }
        while index < |records|
          invariant index <= |records| && found == Ascending(MatchSet(records, f, matches), 0, index)
        {
          if matches(records[index], f) { found := found + [index]; }
          index := index + 1;
        }
      } else {
        NoMatches(records, f, matches);
      }
    }

    /** The rows of some indexes. */
    method RowsOf(indexes: seq<int>, highlighted: set<int>, above: int) returns (fragment: seq<Row>)
      requires forall j :: 0 <= j < |indexes| ==> 0 <= indexes[j] < |records|
      ensures fragment == RowsAt(records, Beyond(indexes, above), highlighted)
    {
      fragment := [];
      for j := 0 to |indexes|
        invariant fragment == RowsAt(records, Beyond(indexes[..j], above), highlighted)
      {
        var index := indexes[j];
        BeyondOneMore(indexes, j, above);
        if index > above {
          RowsOneMore(records, Beyond(indexes[..j], above), index, highlighted);
          fragment := fragment + [Row(records[index], index, index in highlighted)];
        }
      }
      assert indexes[..|indexes|] == indexes;
    }

    /** The visible indexes of the render in progress. */
    method FindVisible(f: Filter, found: seq<int>) returns (visible: seq<int>)
      requires found == MatchIndexes(records, f, matches)
      ensures visible == VisibleIndexes(records, f, matches)
    {
      if f.active {
        visible := ExpandLogContext(found, |records|, f.before, f.after);
        MatchElements(records, f, matches);
      } else {
        visible := [];
        for index := 0 to |records|
          invariant visible == Ascending(UpTo(|records|), 0, index)
        {
          visible := visible + [index];
        }
      }
    }

    /** Everything is rendered again. */
    method Rebuild(f: Filter, visible: seq<int>, highlighted: set<int>)
      requires visible == VisibleIndexes(records, f, matches) && highlighted == MatchSet(records, f, matches)
      modifies this`rows, this`placeholder, this`renderedVisibleMax
      ensures rows == AllRows(records, f, matches) && renderedVisibleMax == LastOr(visible, -1)
      ensures placeholder == if rows == [] then Some(PlaceholderText(records, f)) else None
    {
      hide RowsAt, VisibleSet, MatchSet, Ascending, Beyond;
      VisibleInRange(records, f, matches);
      BeyondAscending(VisibleSet(records, f, matches), -1, |records|);
      if visible == [] {
        rows, placeholder := [], Some(PlaceholderText(records, f));
      } else {
        rows := RowsOf(visible, highlighted, -1);
        placeholder := None;
      }
      renderedVisibleMax := LastOr(visible, -1);
    }

    /** The rows of the records not rendered yet, when no filter is active. */
    method NewRows() returns (fragment: seq<Row>)
      requires renderedCount <= |records|
      ensures fragment == RowsAt(records, Ascending(UpTo(|records|), renderedCount, |records|), {})
    {
      hide RowsAt, Ascending, UpTo;
      fragment := [];
      NoRow(records, renderedCount);
      for index := renderedCount to |records|
        invariant fragment == RowsAt(records, Ascending(UpTo(|records|), renderedCount, index), {})
      {
        NextRow(records, renderedCount, index);
        fragment := fragment + [Row(records[index], index, false)];
      }
    }

    /** Only rows beyond the last visible one are appended. */
    method Extend(f: Filter, visible: seq<int>, highlighted: set<int>)
      requires renderedCount <= |records| && Shows(f)
      requires visible == VisibleIndexes(records, f, matches) && highlighted == MatchSet(records, f, matches)
      modifies this`rows, this`placeholder, this`renderedVisibleMax
      ensures rows == AllRows(records, f, matches) && renderedVisibleMax == LastOr(visible, -1)
      ensures old(rows) <= rows && placeholder == if rows == [] then old(placeholder) else None
    {
      hide AllRows, RowsAt, VisibleSet, MatchSet, Ascending, Beyond;
      VisibleInRange(records[..renderedCount], f, matches);
      VisibleInRange(records, f, matches);
      BeyondAscending(VisibleSet(records, f, matches), renderedVisibleMax, |records|);
      RowsGrow(records, renderedCount, f, matches);
      VisibleIndexesGrow(records, renderedCount, f, matches);
      var fragment: seq<Row>;
      if f.active {
        fragment := RowsOf(visible, highlighted, renderedVisibleMax);
      } else {
        fragment := NewRows();
        Unfiltered(records[..renderedCount], f, matches);
        Unfiltered(records, f, matches);
        AllIndexesGrow(renderedCount, |records|);
      }
      if fragment != [] {
        rows := rows + fragment;
        placeholder := None;
      }
      renderedVisibleMax := LastOr(visible, renderedVisibleMax);
    }

    /** renderActivityRecords. Whichever path it takes, the page ends up as if it
        were rendered from scratch; only the words of a placeholder can be older. */
    method Render(container: bool, f: Filter)
      requires fullRender || (|records| > renderedCount && filterSignature.Some? && Shows(filterSignature.value))
      modifies this`fullRender, this`renderedCount, this`matchedCount, this`filterSignature, this`matchIndexes,
               this`visibleIndexes, this`renderedVisibleMax, this`rows, this`placeholder
      ensures !container ==> unchanged(this)
      ensures container ==> !fullRender && renderedCount == |records| && filterSignature == Some(f) && Shows(f)
      ensures container ==>
        rows == AllRows(records, f, matches) && visibleIndexes == VisibleIndexes(records, f, matches)
      ensures container ==> PageRight(records, f, matches, rows)
      ensures var rebuilt := old(fullRender || filterSignature != Some(f));
        container && rows == [] ==>
          placeholder == if rebuilt then Some(PlaceholderText(records, f)) else old(placeholder)
      ensures var right := Some(PlaceholderText(records, f));
        container && placeholder.Some? ==>
          (placeholder == right <==> old(fullRender || filterSignature != Some(f)) || old(placeholder) == right)
    {
      hide AllRows, MatchIndexes, VisibleIndexes, PageRight;
      if !container { return; }
      AllRowsRight(records, f, matches);
      var rebuild := fullRender || filterSignature != Some(f) || renderedCount > |records|;
      var found := FindMatches(f, rebuild);
      var visible := FindVisible(f, found);
      MatchElements(records, f, matches);
      if rebuild {
        Rebuild(f, visible, Elements(found));
      } else if |records| > renderedCount {
        Extend(f, visible, Elements(found));
      } else {
        // "No records match this filter." is never shown.
        assert false;
      }
      matchIndexes, visibleIndexes := found, visible;
      renderedCount := |records|;
      filterSignature, matchedCount, fullRender := Some(f), |found|, false;
      assert records[..|records|] == records;
    }

    /** An animation frame that was scheduled. */
    method Frame(container: bool, f: Filter)
      requires Valid() && pending
      modifies this
      ensures Valid() && !pending && Contents() == old(Contents())
      ensures container ==>
        rows == AllRows(records, f, matches) && renderedCount == |records| && filterSignature == Some(f)
      ensures container ==> !fullRender && PageRight(records, f, matches, rows)
      ensures var rebuilt := old(fullRender || filterSignature != Some(f));
        container && rows == [] ==>
          placeholder == if rebuilt then Some(PlaceholderText(records, f)) else old(placeholder)
    {
      hide PageRight;
      pending := false;
      Render(container, f);
    }
  }

  /** The arrival changes rows already shown: it is merged, joined to the last
      record, or trims the buffer. */
  predicate NeedsFull(log: Log, r: Record, source: string, target: string, single: bool, rules: Rules) {
    var announced, p := Announce(log, r, source, target), Prepared(r, log.arrivals + 1);
    !Duplicate(announced, r)
    && (!single || WillCoalesce(announced, p, single, rules)
      || |Stored(announced, p, single, rules).records| > MAX_RECORDS)
  }

  lemma NoRow(rs: seq<Record>, from: nat)
    requires from <= |rs|
    ensures RowsAt(rs, Ascending(UpTo(|rs|), from, from), {}) == []
  {
  }

  lemma NextRow(rs: seq<Record>, from: nat, index: nat)
    requires from <= index < |rs|
    ensures RowsAt(rs, Ascending(UpTo(|rs|), from, index + 1), {})
      == RowsAt(rs, Ascending(UpTo(|rs|), from, index), {}) + [Row(rs[index], index, false)]
  {
    hide RowsAt, UpTo;
    assert index in UpTo(|rs|);
    RowsOneMore(rs, Ascending(UpTo(|rs|), from, index), index, {});
  }

  lemma Unfiltered(rs: seq<Record>, f: Filter, matches: Matcher)
    requires !f.active
    ensures MatchSet(rs, f, matches) == {} && VisibleSet(rs, f, matches) == UpTo(|rs|)
    ensures VisibleIndexes(rs, f, matches) == Ascending(UpTo(|rs|), 0, |rs|)
  {
  }

  lemma SameKey(log: Log, r: Record)
    ensures Duplicate(log, r) <==> DedupeKey(r) in log.seen
  {
  }

  /** The indexes of a list above a bound. */
  function Beyond(indexes: seq<int>, above: int): seq<int> {
    if indexes == [] then []
    else
      var last := indexes[|indexes| - 1];
      Beyond(indexes[..|indexes| - 1], above) + if last > above then [last] else []
  }

  lemma BeyondOneMore(indexes: seq<int>, j: nat, above: int)
    requires j < |indexes|
    ensures Beyond(indexes[..j + 1], above) ==
      if indexes[j] > above then Beyond(indexes[..j], above) + [indexes[j]] else Beyond(indexes[..j], above)
  {
    assert indexes[..j + 1][..j] == indexes[..j];
  }

  lemma RowsOneMore(rs: seq<Record>, indexes: seq<int>, i: int, highlighted: set<int>)
    requires 0 <= i < |rs|
    ensures RowsAt(rs, indexes + [i], highlighted)
      == RowsAt(rs, indexes, highlighted) + [Row(rs[i], i, i in highlighted)]
  {
    assert (indexes + [i])[..|indexes|] == indexes;
  }

  lemma MatchElements(rs: seq<Record>, f: Filter, matches: Matcher)
    ensures Elements(MatchIndexes(rs, f, matches)) == MatchSet(rs, f, matches)
  {
    AscendingAll(MatchSet(rs, f, matches), |rs|);
  }

  lemma AscendingAll(s: set<int>, n: nat)
    requires forall i :: i in s ==> 0 <= i < n
    ensures Elements(Ascending(s, 0, n)) == s
  {
    forall i ensures i in Elements(Ascending(s, 0, n)) <==> i in s {
      AscendingElements(s, 0, n, i);
    }
  }

  lemma VisibleInRange(rs: seq<Record>, f: Filter, matches: Matcher)
    ensures var visible := VisibleIndexes(rs, f, matches);
      && (forall j :: 0 <= j < |visible| ==> 0 <= visible[j] < |rs|)
      && (AllRows(rs, f, matches) == [] <==> visible == [])
  {
    var visible := VisibleIndexes(rs, f, matches);
    forall j | 0 <= j < |visible| ensures 0 <= visible[j] < |rs| {
      AscendingElements(VisibleSet(rs, f, matches), 0, |rs|, visible[j]);
    }
  }

  lemma NoMatches(rs: seq<Record>, f: Filter, matches: Matcher)
    requires !f.active || f.error != ""
    ensures MatchIndexes(rs, f, matches) == []
  {
    AscendingNone(0, |rs|);
  }

  lemma {:induction false} AscendingNone(lo: int, hi: int)
    ensures Ascending({}, lo, hi) == []
    decreases hi - lo
  {
    if lo < hi { AscendingNone(lo, hi - 1); }
  }

  lemma {:induction false} BeyondAscending(s: set<int>, above: int, hi: int)
    requires -1 <= above
    ensures Beyond(Ascending(s, 0, hi), above) == Ascending(s, above + 1, hi)
    decreases hi
  {
    if hi > 0 {
      BeyondAscending(s, above, hi - 1);
      var front := Ascending(s, 0, hi - 1);
      if hi - 1 in s { assert (front + [hi - 1])[..|front|] == front; }
    }
  }

  function Listed(keys: seq<Key>): set<Key> {
    set k | k in keys
  }

  lemma ListedOneMore(keys: seq<Key>, j: nat)
    requires j < |keys|
    ensures Listed(keys[..j + 1]) == Listed(keys[..j]) + {keys[j]}
  {
    assert keys[..j + 1] == keys[..j] + [keys[j]];
  }

  lemma KeySetOneMore(rs: seq<Record>, i: nat)
    requires i < |rs|
    ensures KeySet(rs[..i + 1]) == KeySet(rs[..i]) + Listed(Keys(rs[i]))
  {
    assert rs[..i + 1] == rs[..i] + [rs[i]];
    AllKeysLast(rs[..i], rs[i]);
  }

  // ------------------------------------------------------------- a stale placeholder

  lemma NothingVisible(rs: seq<Record>, f: Filter, matches: Matcher)
    requires f.active && forall i :: 0 <= i < |rs| ==> !matches(rs[i], f)
    ensures AllRows(rs, f, matches) == []
  {
    AscendingSame(VisibleSet(rs, f, matches), {}, 0, |rs|);
    AscendingNone(0, |rs|);
  }

  lemma FirstArrival(r: Record, source: string, target: string, rules: Rules)
    ensures var log := Log([], {}, 0, map[]);
      Arrive(log, r, source, target, true, rules).records == [Prepared(r, 1)]
      && !NeedsFull(log, r, source, target, true, rules)
      && !Duplicate(Announce(log, r, source, target), r)
  {
    hide LinesIn, DedupeKey;
    assert [] + [Prepared(r, 1)] == [Prepared(r, 1)];
  }

  /** A view is cleared and rendered under a filter; then a record arrives that
      does not match. The page still says that it waits for records. */
  method WaitingGoesStale(f: Filter, r: Record, rules: Rules, matches: Matcher) returns (stream: ActivityStream)
    requires f.active && f.error == "" && !matches(Prepared(r, 1), f)
    ensures stream.records == [Prepared(r, 1)] && stream.rows == AllRows(stream.records, f, matches) == []
    ensures stream.placeholder == Some(WAITING) && PlaceholderText(stream.records, f) != WAITING
  {
    hide AllRows, Arrive, NeedsFull, Announce, Duplicate;
    stream := new ActivityStream([], true, rules, matches);
    stream.Clear();
    NothingVisible([], f, matches);
    stream.Frame(true, f);
    FirstArrival(r, "k", "web", rules);
    EmptyStart();
    assert stream.Contents() == Log([], {}, 0, map[]);
    stream.OnActivity(r, "k", "web");
    NothingVisible(stream.records, f, matches);
    stream.Frame(true, f);
    WaitingIsNotIt(stream.records, f);
  }

  lemma EmptyStart()
    ensures Retained([]) == [] && KeySet([]) == {}
  {
  }

  lemma WaitingIsNotIt(rs: seq<Record>, f: Filter)
    requires rs != [] && f.error == ""
    ensures PlaceholderText(rs, f) != WAITING && PlaceholderText([], f) == WAITING
  {
    assert WAITING[0] == 'W' && PlaceholderText(rs, f)[0] == 'N';
  }
}
