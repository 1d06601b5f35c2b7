/** The browser's buffer of log records: deduplication, coalescing, merging and
    trimming (webembed/src/app/42-activity-streams.js and 43-log-rendering.js). */
module LogBuffer {
  import opened Text
  import opened Wrappers

  /** The fields that identify a record; a missing field is the empty string. */
  datatype Content = Content(
    connection: string, workload: string, timestamp: string, kind: string, level: string,
    source: string, pod: string, container: string, message: string)

  /** activityRecordDedupeKey before it is written as text, in which a sequence of
      zero and a missing one look alike. */
  datatype Key = ByContent(content: Content) | BySequence(sequence: Option<int>)

  datatype Record = Record(content: Content, sequence: Option<int>, keys: seq<Key>, lineCount: nat, arrival: nat)

  const NO_CONTENT := Content("", "", "", "", "", "", "", "", "")

  function DedupeKey(r: Record): Key {
    if r.content != NO_CONTENT then ByContent(r.content)
    else BySequence(if r.sequence == Some(0) then None else r.sequence)
  }

  /** activityRecordKeys */
  function Keys(r: Record): seq<Key> {
    if r.keys != [] then r.keys else [DedupeKey(r)]
  }

  function OrOne(n: nat): nat {
    if n == 0 then 1 else n
  }

  /** The number of lines of a message. */
  function LinesIn(message: string): nat {
    if message == "" then 1 else (if message[0] == '\n' then 1 else 0) + LinesIn(message[1..])
  }

  /** What the page's other code decides about records. */
  datatype Rules = Rules(structured: string -> bool, timeOf: string -> int)

  datatype Log = Log(records: seq<Record>, seen: set<Key>, arrivals: nat, lastSequence: map<string, int>)

  const MAX_RECORDS: nat := 3000
  const TRIM: nat := 500
  const MAX_LINES: nat := 400
  const MAX_MESSAGE: nat := 512 * 1024

  // --------------------------------------------------------------------- steps

  function GapMessage(target: string, previous: int, sequence: int): string {
    var missing := sequence - previous - 1;
    Itoa(missing) + " record" + (if missing == 1 then "" else "s") + " missing from " + target
    + " between sequence " + Itoa(previous) + " and " + Itoa(sequence)
  }

  /** The notice about a gap, with its own key and one line. */
  function Notice(r: Record, target: string, previous: int, sequence: int, arrival: nat): Record {
    var content := Content(r.content.connection, target, r.content.timestamp, "system", "warning",
                           "runwake-stream", "", "", GapMessage(target, previous, sequence));
    Record(content, None, [ByContent(content)], 1, arrival)
  }

  predicate Gap(log: Log, source: string, r: Record) {
    r.sequence.Some? && source in log.lastSequence && r.sequence.value > log.lastSequence[source] + 1
  }

  function AddNotice(log: Log, notice: Record): Log {
    log.(records := log.records + [notice], seen := log.seen + {DedupeKey(notice)})
  }

  function Advance(last: map<string, int>, source: string, sequence: Option<int>): map<string, int> {
    if sequence.Some? && (source in last ==> sequence.value > last[source])
    then last[source := sequence.value] else last
  }

  /** The first half of the handler: number the record, report a gap. */
  function Announce(log: Log, r: Record, source: string, target: string): Log {
    var numbered := log.(arrivals := log.arrivals + 1);
    var noticed :=
      if Gap(log, source, r) then
        AddNotice(numbered.(arrivals := log.arrivals + 2),
                  Notice(r, target, log.lastSequence[source], r.sequence.value, log.arrivals + 2))
      else numbered;
    noticed.(lastSequence := Advance(log.lastSequence, source, r.sequence))
  }

  /** coalesceActivityRecord: may r be folded into the record before it? */
  predicate Coalesces(previous: Record, r: Record, rules: Rules) {
    && r.content.source == "kubernetes-log" && previous.content.source == r.content.source
    && r.content.kind == "log" && previous.content.kind == "log"
    && r.content.timestamp == previous.content.timestamp
    && r.content.pod == previous.content.pod && r.content.container == previous.content.container
    && !rules.structured(r.content.message)
    && OrOne(previous.lineCount) < MAX_LINES
    && |previous.content.message| + |r.content.message| <= MAX_MESSAGE
  }

  function Combined(previous: Record, r: Record): Record {
    previous.(
      content := previous.content.(message := previous.content.message + "\n" + r.content.message),
      lineCount := OrOne(previous.lineCount) + OrOne(r.lineCount),
      keys := Keys(previous) + Keys(r))
  }

  function Prepared(r: Record, arrival: nat): Record {
    r.(keys := [DedupeKey(r)], lineCount := LinesIn(r.content.message), arrival := arrival)
  }

  /** compareMergedRecords is not positive. */
  predicate NotAfter(a: Record, b: Record, rules: Rules) {
    var t, u := rules.timeOf(a.content.timestamp), rules.timeOf(b.content.timestamp);
    t < u || (t == u && a.arrival <= b.arrival)
  }

  function InsertRecord(rs: seq<Record>, r: Record, rules: Rules): seq<Record> {
    if rs == [] || NotAfter(rs[|rs| - 1], r, rules) then rs + [r]
    else InsertRecord(rs[..|rs| - 1], r, rules) + [rs[|rs| - 1]]
  }

  /** Array.prototype.sort is stable, so its result is this one. */
  function Merged(rs: seq<Record>, rules: Rules): seq<Record> {
    if rs == [] then [] else InsertRecord(Merged(rs[..|rs| - 1], rules), rs[|rs| - 1], rules)
  }

  function AllKeys(rs: seq<Record>): seq<Key> {
    if rs == [] then [] else AllKeys(rs[..|rs| - 1]) + Keys(rs[|rs| - 1])
  }

  function KeySet(rs: seq<Record>): set<Key> {
    set k | k in AllKeys(rs)
  }

  /** trimActivityBuffer */
  function Trimmed(log: Log): Log {
    if |log.records| <= MAX_RECORDS then log
    else log.(records := log.records[TRIM..], seen := log.seen - KeySet(log.records[..TRIM]))
  }

  predicate WillCoalesce(log: Log, r: Record, single: bool, rules: Rules) {
    single && log.records != [] && Coalesces(log.records[|log.records| - 1], r, rules)
  }

  /** A record that passed deduplication enters the buffer. */
  function Stored(log: Log, r: Record, single: bool, rules: Rules): Log {
    var known := log.(seen := log.seen + {DedupeKey(r)});
    var n := |log.records| - 1;
    if WillCoalesce(log, r, single, rules) then
      known.(records := log.records[..n] + [Combined(log.records[n], r)])
    else if single then known.(records := log.records + [r])
    else known.(records := Merged(log.records + [r], rules))
  }

  predicate Duplicate(log: Log, r: Record) {
    DedupeKey(r) in log.seen
  }

  /** The whole handler of one arriving record. */
  function Arrive(log: Log, r: Record, source: string, target: string, single: bool, rules: Rules): Log {
    var announced := Announce(log, r, source, target);
    if Duplicate(announced, r) then announced
    else Trimmed(Stored(announced, Prepared(r, log.arrivals + 1), single, rules))
  }

  function Cleared(log: Log): Log {
    log.(records := [], seen := {})
  }

  /** startActivityStream with the records of the stream it replaces. */
  function Restarted(log: Log): Log {
    var kept := Retained(log.records);
    Log(kept, KeySet(kept), |kept|, map[])
  }

  function Retained(rs: seq<Record>): seq<Record> {
    if |rs| <= MAX_RECORDS then rs else rs[|rs| - MAX_RECORDS..]
  }

  // -------------------------------------------------------- which records are duplicates

  /** The same in all nine fields; without any of them, in the sequence, for which
      zero counts as none. */
  predicate Alike(r: Record, q: Record) {
    var a, b := r.content, q.content;
    && a.connection == b.connection && a.workload == b.workload && a.timestamp == b.timestamp
    && a.kind == b.kind && a.level == b.level && a.source == b.source
    && a.pod == b.pod && a.container == b.container && a.message == b.message
    && (a == Content("", "", "", "", "", "", "", "", "") ==>
          r.sequence == q.sequence || {r.sequence, q.sequence} == {None, Some(0)})
  }

  lemma AlikeIsSameKey(r: Record, q: Record)
    ensures DedupeKey(r) == DedupeKey(q) <==> Alike(r, q)
  {
    var zero: Option<int> := Some(0);
    assert {r.sequence, q.sequence} == {None, zero} <==>
      (r.sequence == None && q.sequence == zero) || (r.sequence == zero && q.sequence == None) by {
      if {r.sequence, q.sequence} == {None, zero} {
        assert None in {r.sequence, q.sequence} && zero in {r.sequence, q.sequence};
      }
    }
  }

  /** Until the buffer is trimmed, an arrival turns away exactly the records that
      are alike to it, besides those that were turned away before it. */
  lemma ArrivalTurnsAway(
    log: Log, r: Record, q: Record, source: string, target: string, single: bool, rules: Rules)
    requires |Announce(log, r, source, target).records| < MAX_RECORDS
    ensures Duplicate(Arrive(log, r, source, target, single, rules), q) <==>
      Duplicate(Announce(log, r, source, target), q) || Alike(r, q)
  {
    hide Announce, Merged, Coalesces, Combined, DedupeKey, KeySet, LinesIn;
    var announced, p := Announce(log, r, source, target), Prepared(r, log.arrivals + 1);
    AlikeIsSameKey(r, q);
    AlikeIsSameKey(p, r);
    MergedLength(announced.records + [p], rules);
  }

  lemma {:induction false} MergedLength(rs: seq<Record>, rules: Rules)
    ensures |Merged(rs, rules)| == |rs|
  {
    if rs != [] {
      MergedLength(rs[..|rs| - 1], rules);
      InsertLength(Merged(rs[..|rs| - 1], rules), rs[|rs| - 1], rules);
    }
  }

  lemma {:induction false} InsertLength(rs: seq<Record>, r: Record, rules: Rules)
    ensures |InsertRecord(rs, r, rules)| == |rs| + 1
  {
    if rs != [] && !NotAfter(rs[|rs| - 1], r, rules) { InsertLength(rs[..|rs| - 1], r, rules); }
  }

  // ------------------------------------------------------------------ the ledger

  /** seen is exactly the disjoint union of the keys of the buffered records. */
  ghost predicate Ledger(log: Log) {
    multiset(AllKeys(log.records)) == multiset(log.seen)
  }

  lemma {:induction false} AllKeysAppend(a: seq<Record>, b: seq<Record>)
    ensures AllKeys(a + b) == AllKeys(a) + AllKeys(b)
  {
    hide Keys;
    if b == [] {
      assert a + b == a;
      assert AllKeys(a) + [] == AllKeys(a);
    } else {
      var front, last := b[..|b| - 1], b[|b| - 1];
      AllKeysAppend(a, front);
      assert (a + b)[..|a + b| - 1] == a + front && (a + b)[|a + b| - 1] == last;
      assert AllKeys(a + b) == AllKeys(a + front) + Keys(last);
      assert AllKeys(b) == AllKeys(front) + Keys(last);
    }
  }

  lemma AllKeysOne(r: Record)
    ensures AllKeys([r]) == Keys(r)
  {
    assert [r][..0] == [];
    assert AllKeys([]) + Keys(r) == Keys(r);
  }

  lemma AllKeysLast(rs: seq<Record>, r: Record)
    ensures AllKeys(rs + [r]) == AllKeys(rs) + Keys(r)
  {
    AllKeysAppend(rs, [r]);
    AllKeysOne(r);
  }

  lemma {:induction false} InsertKeepsKeys(rs: seq<Record>, r: Record, rules: Rules)
    ensures multiset(AllKeys(InsertRecord(rs, r, rules))) == multiset(AllKeys(rs)) + multiset(Keys(r))
  {
    if rs == [] || NotAfter(rs[|rs| - 1], r, rules) {
      AllKeysLast(rs, r);
    } else {
      var front, last := rs[..|rs| - 1], rs[|rs| - 1];
      InsertKeepsKeys(front, r, rules);
      AllKeysLast(InsertRecord(front, r, rules), last);
    }
  }

  lemma {:induction false} MergeKeepsKeys(rs: seq<Record>, rules: Rules)
    ensures multiset(AllKeys(Merged(rs, rules))) == multiset(AllKeys(rs))
  {
    if rs != [] {
      MergeKeepsKeys(rs[..|rs| - 1], rules);
      InsertKeepsKeys(Merged(rs[..|rs| - 1], rules), rs[|rs| - 1], rules);
    }
  }

  lemma LedgerGrows(seen: set<Key>, k: Key, before: multiset<Key>)
    requires before == multiset(seen)
    ensures before + multiset{k} == multiset(seen + {k}) <==> k !in seen
  {
    var after := multiset(seen + {k});
    assert after[k] == 1;
    if k !in seen {
      assert before[k] == 0;
    } else {
      assert (before + multiset{k})[k] == 2;
    }
  }

  /** A notice keeps the ledger exactly when its key is fresh. */
  lemma NoticeKeepsLedger(log: Log, notice: Record)
    requires Ledger(log) && notice.keys == [DedupeKey(notice)]
    ensures Ledger(AddNotice(log, notice)) <==> DedupeKey(notice) !in log.seen
  {
    AllKeysLast(log.records, notice);
    LedgerGrows(log.seen, DedupeKey(notice), multiset(AllKeys(log.records)));
  }

  lemma StoredKeys(log: Log, r: Record, single: bool, rules: Rules)
    requires r.keys == [DedupeKey(r)]
    ensures multiset(AllKeys(Stored(log, r, single, rules).records))
      == multiset(AllKeys(log.records)) + multiset{DedupeKey(r)}
  {
    var n := |log.records| - 1;
    if WillCoalesce(log, r, single, rules) {
      AllKeysLast(log.records[..n], log.records[n]);
      AllKeysLast(log.records[..n], Combined(log.records[n], r));
      assert log.records == log.records[..n] + [log.records[n]];
    } else {
      AllKeysLast(log.records, r);
      MergeKeepsKeys(log.records + [r], rules);
    }
  }

  lemma StoredLedger(log: Log, r: Record, single: bool, rules: Rules)
    requires Ledger(log) && !Duplicate(log, r) && r.keys == [DedupeKey(r)]
    ensures Ledger(Stored(log, r, single, rules))
  {
    hide AllKeys, Merged, Combined, Coalesces;
    StoredKeys(log, r, single, rules);
    LedgerGrows(log.seen, DedupeKey(r), multiset(AllKeys(log.records)));
  }

  lemma RemoveKeys(all: set<Key>, gone: seq<Key>, kept: seq<Key>)
    requires multiset(gone) + multiset(kept) == multiset(all)
    ensures multiset(kept) == multiset(all - set k | k in gone)
  {
    var s := set k | k in gone;
    forall k ensures multiset(kept)[k] == multiset(all - s)[k] {
      assert multiset(all)[k] == multiset(gone)[k] + multiset(kept)[k];
      assert k in multiset(gone) <==> k in gone;
    }
  }

  lemma TrimmedLedger(log: Log)
    requires Ledger(log)
    ensures Ledger(Trimmed(log))
  {
    if |log.records| > MAX_RECORDS {
      assert log.records == log.records[..TRIM] + log.records[TRIM..];
      AllKeysAppend(log.records[..TRIM], log.records[TRIM..]);
      RemoveKeys(log.seen, AllKeys(log.records[..TRIM]), AllKeys(log.records[TRIM..]));
    }
  }

  /** The key of the gap notice that this arrival makes. */
  function NoticeKey(log: Log, r: Record, source: string, target: string): Key
    requires Gap(log, source, r)
  {
    DedupeKey(Notice(r, target, log.lastSequence[source], r.sequence.value, log.arrivals + 2))
  }

  /** The arrival makes no gap notice, or one whose key is not in use. */
  predicate NoticeIsFresh(log: Log, r: Record, source: string, target: string) {
    Gap(log, source, r) ==> NoticeKey(log, r, source, target) !in log.seen
  }

  /** The buffer before a trim. */
  function Untrimmed(log: Log, r: Record, source: string, target: string, single: bool, rules: Rules): Log {
    Stored(Announce(log, r, source, target), Prepared(r, log.arrivals + 1), single, rules)
  }

  /** The arrival trims the buffer, and both records with the notice's key are
      among the oldest, which go. */
  ghost predicate BothTrimmed(log: Log, r: Record, source: string, target: string, single: bool, rules: Rules) {
    && Gap(log, source, r) && !Duplicate(Announce(log, r, source, target), r)
    && var rs := Untrimmed(log, r, source, target, single, rules).records;
    |rs| > MAX_RECORDS && multiset(AllKeys(rs[..TRIM]))[NoticeKey(log, r, source, target)] == 2
  }

  /** Every key but k is buffered as often as it is seen; k is seen and buffered
      twice. */
  ghost predicate Doubled(log: Log, k: Key) {
    multiset(AllKeys(log.records)) == multiset(log.seen) + multiset{k} && k in log.seen
  }

  lemma DoubledIsBroken(log: Log, k: Key)
    requires Doubled(log, k)
    ensures !Ledger(log)
  {
    assert multiset(AllKeys(log.records))[k] == 2;
    assert multiset(log.seen)[k] == 1;
  }

  lemma StoredDoubled(log: Log, r: Record, single: bool, rules: Rules, k: Key)
    requires Doubled(log, k) && !Duplicate(log, r) && r.keys == [DedupeKey(r)]
    ensures Doubled(Stored(log, r, single, rules), k)
  {
    hide AllKeys, Merged, Combined, Coalesces;
    StoredKeys(log, r, single, rules);
    assert multiset(log.seen + {DedupeKey(r)}) == multiset(log.seen) + multiset{DedupeKey(r)};
  }

  lemma RemoveDoubled(all: set<Key>, gone: seq<Key>, kept: seq<Key>, k: Key)
    requires multiset(gone) + multiset(kept) == multiset(all) + multiset{k} && k in all
    ensures multiset(kept) == multiset(all - set x | x in gone) <==> multiset(gone)[k] == 2
  {
    var rest := all - set x | x in gone;
    forall x ensures x != k ==> multiset(kept)[x] == multiset(rest)[x] {
      assert (multiset(gone) + multiset(kept))[x] == (multiset(all) + multiset{k})[x];
      assert x in multiset(gone) <==> x in gone;
    }
    assert (multiset(gone) + multiset(kept))[k] == (multiset(all) + multiset{k})[k] == 2;
    assert k in multiset(gone) <==> k in gone;
    assert multiset(rest)[k] == if k in gone then 0 else 1;
    if multiset(gone)[k] == 2 {
      forall x ensures multiset(kept)[x] == multiset(rest)[x] {}
    } else {
      assert multiset(kept)[k] != multiset(rest)[k];
    }
  }

  /** Trimming a buffer with one doubled key mends it exactly when both its
      records go. */
  lemma TrimmedDoubled(log: Log, k: Key)
    requires Doubled(log, k)
    ensures Ledger(Trimmed(log)) <==> |log.records| > MAX_RECORDS && multiset(AllKeys(log.records[..TRIM]))[k] == 2
  {
    hide AllKeys;
    if |log.records| > MAX_RECORDS {
      assert log.records == log.records[..TRIM] + log.records[TRIM..];
      AllKeysAppend(log.records[..TRIM], log.records[TRIM..]);
      RemoveDoubled(log.seen, AllKeys(log.records[..TRIM]), AllKeys(log.records[TRIM..]), k);
    } else {
      DoubledIsBroken(log, k);
    }
  }

  lemma FreshArrival(log: Log, r: Record, source: string, target: string, single: bool, rules: Rules)
    requires Ledger(log) && NoticeIsFresh(log, r, source, target)
    ensures Ledger(Arrive(log, r, source, target, single, rules))
  {
    hide AllKeys, Stored, Trimmed;
    var announced := Announce(log, r, source, target);
    if Gap(log, source, r) {
      NoticeKeepsLedger(log.(arrivals := log.arrivals + 2),
                        Notice(r, target, log.lastSequence[source], r.sequence.value, log.arrivals + 2));
    }
    if !Duplicate(announced, r) {
      var p := Prepared(r, log.arrivals + 1);
      assert DedupeKey(p) == DedupeKey(r);
      StoredLedger(announced, p, single, rules);
      TrimmedLedger(Stored(announced, p, single, rules));
    }
  }

  lemma RepeatedAnnounce(log: Log, r: Record, source: string, target: string)
    requires Ledger(log) && !NoticeIsFresh(log, r, source, target)
    ensures Doubled(Announce(log, r, source, target), NoticeKey(log, r, source, target))
  {
    hide AllKeys, Notice;
    var notice := Notice(r, target, log.lastSequence[source], r.sequence.value, log.arrivals + 2);
    AllKeysLast(log.records, notice);
    NoticeKeys(r, target, log.lastSequence[source], r.sequence.value, log.arrivals + 2);
    assert log.seen + {DedupeKey(notice)} == log.seen;
  }

  lemma NoticeKeys(r: Record, target: string, previous: int, sequence: int, arrival: nat)
    ensures Keys(Notice(r, target, previous, sequence, arrival))
      == [DedupeKey(Notice(r, target, previous, sequence, arrival))]
  {
    hide GapMessage;
  }

  lemma RepeatedArrival(log: Log, r: Record, source: string, target: string, single: bool, rules: Rules)
    requires Ledger(log) && !NoticeIsFresh(log, r, source, target)
    ensures Ledger(Arrive(log, r, source, target, single, rules)) <==>
      BothTrimmed(log, r, source, target, single, rules)
  {
    hide AllKeys, Stored, Trimmed, Announce, Notice, Ledger, Doubled, NoticeKey;
    var announced, k := Announce(log, r, source, target), NoticeKey(log, r, source, target);
    RepeatedAnnounce(log, r, source, target);
    if Duplicate(announced, r) {
      DoubledIsBroken(announced, k);
    } else {
      var p := Prepared(r, log.arrivals + 1);
      assert DedupeKey(p) == DedupeKey(r);
      StoredDoubled(announced, p, single, rules, k);
      TrimmedDoubled(Stored(announced, p, single, rules), k);
    }
  }

  /** The handler keeps the ledger exactly when its gap notice, if it makes one,
      has a fresh key, or both records with that key are trimmed at once. */
  lemma ArriveKeepsLedger(log: Log, r: Record, source: string, target: string, single: bool, rules: Rules)
    requires Ledger(log)
    ensures Ledger(Arrive(log, r, source, target, single, rules)) <==>
      NoticeIsFresh(log, r, source, target) || BothTrimmed(log, r, source, target, single, rules)
  {
    hide Arrive, BothTrimmed, Ledger, NoticeIsFresh;
    if NoticeIsFresh(log, r, source, target) {
      FreshArrival(log, r, source, target, single, rules);
    } else {
      RepeatedArrival(log, r, source, target, single, rules);
    }
  }

  /** With one target the notice comes next to last, and a trim cannot reach it. */
  lemma NeverBothTrimmed(log: Log, r: Record, source: string, target: string, rules: Rules)
    requires Ledger(log)
    ensures !BothTrimmed(log, r, source, target, true, rules)
  {
    hide AllKeys, GapMessage, LinesIn, DedupeKey;
    if Gap(log, source, r) {
      var rs := Untrimmed(log, r, source, target, true, rules).records;
      UntrimmedSingle(log, r, source, target, rules);
      if |rs| > MAX_RECORDS {
        var k := NoticeKey(log, r, source, target);
        assert rs[..TRIM] == log.records[..TRIM];
        assert log.records == log.records[..TRIM] + log.records[TRIM..];
        AllKeysAppend(log.records[..TRIM], log.records[TRIM..]);
        assert multiset(AllKeys(log.records))[k] <= 1;
      }
    }
  }

  lemma UntrimmedSingle(log: Log, r: Record, source: string, target: string, rules: Rules)
    requires Gap(log, source, r)
    ensures var rs := Untrimmed(log, r, source, target, true, rules).records;
      |rs| == |log.records| + 2 && rs[..|log.records|] == log.records
  {
    hide GapMessage, LinesIn, DedupeKey;
  }

  lemma KeySetLedger(rs: seq<Record>, seen: set<Key>, i: nat)
    requires multiset(AllKeys(rs)) == multiset(seen) && i <= |rs|
    ensures multiset(AllKeys(rs[i..])) == multiset(KeySet(rs[i..]))
  {
    assert rs == rs[..i] + rs[i..];
    AllKeysAppend(rs[..i], rs[i..]);
    var ks := AllKeys(rs[i..]);
    forall k ensures multiset(ks)[k] == multiset(KeySet(rs[i..]))[k] {
      assert multiset(AllKeys(rs[..i]))[k] + multiset(ks)[k] == multiset(seen)[k] <= 1;
      assert k in multiset(ks) <==> k in ks;
    }
  }

  lemma RestartedLedger(log: Log)
    requires Ledger(log)
    ensures Ledger(Restarted(log))
  {
    hide AllKeys, KeySet;
    var i := if |log.records| <= MAX_RECORDS then 0 else |log.records| - MAX_RECORDS;
    assert log.records[0..] == log.records;
    KeySetLedger(log.records, log.seen, i);
  }

  // ------------------------------------------------------------------ line counts

  ghost predicate CountsRight(rs: seq<Record>) {
    forall i :: 0 <= i < |rs| ==> rs[i].lineCount == LinesIn(rs[i].content.message)
  }

  function Total(rs: seq<Record>): nat {
    if rs == [] then 0 else Total(rs[..|rs| - 1]) + rs[|rs| - 1].lineCount
  }

  lemma {:induction false} LinesInPositive(m: string)
    ensures LinesIn(m) >= 1
  {
    if m != "" { LinesInPositive(m[1..]); }
  }

  lemma {:induction false} LinesInJoined(a: string, b: string)
    ensures LinesIn(a + "\n" + b) == LinesIn(a) + LinesIn(b)
  {
    var t := a + "\n" + b;
    if a == "" {
      assert t[1..] == b;
    } else {
      LinesInJoined(a[1..], b);
      assert t[1..] == a[1..] + "\n" + b;
    }
  }

  lemma {:induction false} LinesInPlain(m: string)
    requires '\n' !in m
    ensures LinesIn(m) == 1
  {
    if m != "" { LinesInPlain(m[1..]); }
  }

  lemma {:induction false} DigitsPlain(n: nat)
    ensures '\n' !in Digits(n)
  {
    if n >= 10 { DigitsPlain(n / 10); }
  }

  lemma ItoaPlain(n: int)
    ensures '\n' !in Itoa(n)
  {
    DigitsPlain(if n < 0 then -n else n);
  }

  lemma GapMessagePlain(target: string, previous: int, sequence: int)
    requires '\n' !in target
    ensures '\n' !in GapMessage(target, previous, sequence)
  {
    hide Itoa;
    var missing := sequence - previous - 1;
    ItoaPlain(missing);
    ItoaPlain(previous);
    ItoaPlain(sequence);
    assert '\n' !in " record" && '\n' !in " missing from " && '\n' !in " between sequence "
      && '\n' !in " and " && '\n' !in "s";
  }

  lemma NoticeCount(r: Record, target: string, previous: int, sequence: int, arrival: nat)
    requires '\n' !in target
    ensures LinesIn(Notice(r, target, previous, sequence, arrival).content.message) == 1
  {
    hide GapMessage, LinesIn;
    GapMessagePlain(target, previous, sequence);
    LinesInPlain(GapMessage(target, previous, sequence));
  }

  lemma {:induction false} TotalAppend(a: seq<Record>, b: seq<Record>)
    ensures Total(a + b) == Total(a) + Total(b)
  {
    if b == [] {
      assert a + b == a;
    } else {
      TotalAppend(a, b[..|b| - 1]);
      assert (a + b)[..|a + b| - 1] == a + b[..|b| - 1];
    }
  }

  lemma TotalLast(rs: seq<Record>, r: Record)
    ensures Total(rs + [r]) == Total(rs) + r.lineCount
  {
    assert (rs + [r])[..|rs|] == rs;
  }

  lemma {:induction false} InsertKeepsCounts(rs: seq<Record>, r: Record, rules: Rules)
    requires CountsRight(rs + [r])
    ensures CountsRight(InsertRecord(rs, r, rules)) && Total(InsertRecord(rs, r, rules)) == Total(rs) + r.lineCount
  {
    assert forall i :: 0 <= i < |rs| ==> (rs + [r])[i] == rs[i];
    assert (rs + [r])[|rs|] == r;
    if rs == [] || NotAfter(rs[|rs| - 1], r, rules) {
      TotalLast(rs, r);
    } else {
      var front, last := rs[..|rs| - 1], rs[|rs| - 1];
      InsertKeepsCounts(front, r, rules);
      TotalLast(InsertRecord(front, r, rules), last);
    }
  }

  lemma {:induction false} MergeKeepsCounts(rs: seq<Record>, rules: Rules)
    requires CountsRight(rs)
    ensures CountsRight(Merged(rs, rules)) && Total(Merged(rs, rules)) == Total(rs)
  {
    if rs != [] {
      MergeKeepsCounts(rs[..|rs| - 1], rules);
      InsertKeepsCounts(Merged(rs[..|rs| - 1], rules), rs[|rs| - 1], rules);
    }
  }

  lemma CombinedCounts(front: seq<Record>, last: Record, r: Record)
    requires CountsRight(front + [last]) && r.lineCount == LinesIn(r.content.message)
    ensures CountsRight(front + [Combined(last, r)])
    ensures Total(front + [Combined(last, r)]) == Total(front + [last]) + r.lineCount
  {
    assert (front + [last])[|front|] == last;
    assert forall i :: 0 <= i < |front| ==> (front + [last])[i] == front[i];
    LinesInPositive(last.content.message);
    LinesInPositive(r.content.message);
    LinesInJoined(last.content.message, r.content.message);
    TotalLast(front, last);
    TotalLast(front, Combined(last, r));
  }

  lemma StoredCounts(log: Log, r: Record, single: bool, rules: Rules)
    requires CountsRight(log.records) && r.lineCount == LinesIn(r.content.message)
    ensures CountsRight(Stored(log, r, single, rules).records)
    ensures Total(Stored(log, r, single, rules).records) == Total(log.records) + r.lineCount
  {
    hide LinesIn, Combined, Coalesces, Total, Merged;
    var n := |log.records| - 1;
    if WillCoalesce(log, r, single, rules) {
      assert log.records == log.records[..n] + [log.records[n]];
      CombinedCounts(log.records[..n], log.records[n], r);
    } else {
      TotalLast(log.records, r);
      if !single { MergeKeepsCounts(log.records + [r], rules); }
    }
  }

  /** Lines that enter the buffer in one step, and lines that leave it. */
  function EnteringLines(log: Log, r: Record, source: string, target: string): nat {
    (if Gap(log, source, r) then 1 else 0)
    + if Duplicate(Announce(log, r, source, target), r) then 0 else LinesIn(r.content.message)
  }

  function LeavingLines(log: Log, r: Record, source: string, target: string, single: bool, rules: Rules): nat {
    var announced := Announce(log, r, source, target);
    if Duplicate(announced, r) then 0
    else
      var stored := Stored(announced, Prepared(r, log.arrivals + 1), single, rules);
      if |stored.records| <= MAX_RECORDS then 0 else Total(stored.records[..TRIM])
  }

  lemma AnnounceCounts(log: Log, r: Record, source: string, target: string)
    requires CountsRight(log.records) && '\n' !in target
    ensures CountsRight(Announce(log, r, source, target).records)
    ensures Total(Announce(log, r, source, target).records) == Total(log.records) + if Gap(log, source, r) then 1 else 0
  {
    if Gap(log, source, r) {
      NoticeCount(r, target, log.lastSequence[source], r.sequence.value, log.arrivals + 2);
      TotalLast(log.records, Notice(r, target, log.lastSequence[source], r.sequence.value, log.arrivals + 2));
    }
  }

  lemma TrimmedCounts(log: Log)
    requires CountsRight(log.records)
    ensures CountsRight(Trimmed(log).records)
    ensures Total(Trimmed(log).records) + (if |log.records| <= MAX_RECORDS then 0 else Total(log.records[..TRIM]))
      == Total(log.records)
  {
    hide LinesIn;
    var rs := log.records;
    if |rs| > MAX_RECORDS {
      assert rs == rs[..TRIM] + rs[TRIM..];
      TotalAppend(rs[..TRIM], rs[TRIM..]);
    }
  }

  lemma ArriveCounts(log: Log, r: Record, source: string, target: string, single: bool, rules: Rules)
    requires CountsRight(log.records) && '\n' !in target
    ensures CountsRight(Arrive(log, r, source, target, single, rules).records)
    ensures Total(Arrive(log, r, source, target, single, rules).records)
      + LeavingLines(log, r, source, target, single, rules)
      == Total(log.records) + EnteringLines(log, r, source, target)
  {
    hide Announce, Stored, Trimmed, LinesIn, CountsRight, Total;
    AnnounceCounts(log, r, source, target);
    var announced := Announce(log, r, source, target);
    if !Duplicate(announced, r) {
      var p := Prepared(r, log.arrivals + 1);
      StoredCounts(announced, p, single, rules);
      TrimmedCounts(Stored(announced, p, single, rules));
    }
  }

  // ------------------------------------------------------------------ whole runs

  datatype Event = Activity(record: Record, source: string, target: string) | Clear | Restart

  const EMPTY := Log([], {}, 0, map[])

  function Apply(log: Log, e: Event, single: bool, rules: Rules): Log {
    match e
    case Activity(r, source, target) => Arrive(log, r, source, target, single, rules)
    case Clear => Cleared(log)
    case Restart => Restarted(log)
  }

  function Entering(log: Log, e: Event): nat {
    match e
    case Activity(r, source, target) => EnteringLines(log, r, source, target)
    case _ => 0
  }

  function Leaving(log: Log, e: Event, single: bool, rules: Rules): nat {
    match e
    case Activity(r, source, target) => LeavingLines(log, r, source, target, single, rules)
    case Clear => Total(log.records)
    case Restart => Total(log.records[..|log.records| - |Retained(log.records)|])
  }

  /** The buffer after a run of events. */
  function After(events: seq<Event>, single: bool, rules: Rules): Log {
    if events == [] then EMPTY
    else Apply(After(events[..|events| - 1], single, rules), events[|events| - 1], single, rules)
  }

  function AcceptedLines(events: seq<Event>, single: bool, rules: Rules): nat {
    if events == [] then 0
    else AcceptedLines(events[..|events| - 1], single, rules)
         + Entering(After(events[..|events| - 1], single, rules), events[|events| - 1])
  }

  function RemovedLines(events: seq<Event>, single: bool, rules: Rules): nat {
    if events == [] then 0
    else RemovedLines(events[..|events| - 1], single, rules)
         + Leaving(After(events[..|events| - 1], single, rules), events[|events| - 1], single, rules)
  }

  ghost predicate PlainTargets(events: seq<Event>) {
    forall i :: 0 <= i < |events| && events[i].Activity? ==> '\n' !in events[i].target
  }

  /** Conservation of lines over every run: line counts stay those of the
      messages, and buffered plus removed lines are the accepted lines. */
  lemma {:induction false} LinesConserved(events: seq<Event>, single: bool, rules: Rules)
    requires PlainTargets(events)
    ensures CountsRight(After(events, single, rules).records)
    ensures Total(After(events, single, rules).records) + RemovedLines(events, single, rules)
      == AcceptedLines(events, single, rules)
  {
    hide Arrive, EnteringLines, LeavingLines, CountsRight;
    if events == [] {
      EmptyCounts();
    } else {
      var front, e := events[..|events| - 1], events[|events| - 1];
      LinesConserved(front, single, rules);
      StepCounts(After(front, single, rules), e, single, rules);
    }
  }

  lemma EmptyCounts()
    ensures CountsRight([])
  {
  }

  lemma StepCounts(log: Log, e: Event, single: bool, rules: Rules)
    requires CountsRight(log.records) && (e.Activity? ==> '\n' !in e.target)
    ensures CountsRight(Apply(log, e, single, rules).records)
    ensures Total(Apply(log, e, single, rules).records) + Leaving(log, e, single, rules)
      == Total(log.records) + Entering(log, e)
  {
    hide Arrive, EnteringLines, LeavingLines;
    match e
    case Activity(r, source, target) => ArriveCounts(log, r, source, target, single, rules);
    case Clear =>
    case Restart =>
      var i := |log.records| - |Retained(log.records)|;
      assert log.records == log.records[..i] + log.records[i..];
      TotalAppend(log.records[..i], log.records[i..]);
      assert Retained(log.records) == log.records[i..];
  }

  // ------------------------------------------------ which lines share a record, and how many

  /** Log lines of one container at one time. */
  predicate OnePlace(a: Content, b: Content) {
    && a.source == b.source == "kubernetes-log" && a.kind == b.kind == "log"
    && a.timestamp == b.timestamp && a.pod == b.pod && a.container == b.container
  }

  /** With one target, an arrival that is no duplicate, makes no gap notice and
      causes no trim joins the last record exactly if it is an unstructured line
      from the same container at the same time and the two are not too long; then
      the record's text goes on with it. Otherwise it is a record of its own. */
  lemma JoinsIff(log: Log, r: Record, source: string, target: string, rules: Rules)
    requires !Gap(log, source, r) && !Duplicate(log, r) && 0 < |log.records| < 3000
    ensures var n := |log.records| - 1;
      var last, rs := log.records[n], Arrive(log, r, source, target, true, rules).records;
      var joined := OnePlace(last.content, r.content) && !rules.structured(r.content.message)
        && last.lineCount < 400 && |last.content.message| + |r.content.message| <= 524288;
      if joined then
        && |rs| == n + 1 && rs[..n] == log.records[..n]
        && rs[n].content == last.content.(message := last.content.message + "\n" + r.content.message)
        && rs[n].lineCount == (if last.lineCount == 0 then 1 else last.lineCount) + LinesIn(r.content.message)
      else |rs| == n + 2 && rs[..n + 1] == log.records && rs[n + 1].content == r.content
  {
    hide DedupeKey;
    LinesInPositive(r.content.message);
    var p := Prepared(r, log.arrivals + 1);
    assert (log.records + [p])[..|log.records|] == log.records;
  }

  /** With several targets no records are joined: the arrival is a record of its own
      among those before it. */
  lemma SeveralTargetsJoinNothing(log: Log, r: Record, source: string, target: string, rules: Rules)
    requires !Gap(log, source, r) && !Duplicate(log, r) && |log.records| < 3000
    ensures multiset(Arrive(log, r, source, target, false, rules).records)
      == multiset(log.records) + multiset{Prepared(r, log.arrivals + 1)}
    ensures Prepared(r, log.arrivals + 1).content == r.content
  {
    hide DedupeKey, LinesIn, Merged, KeySet;
    var p := Prepared(r, log.arrivals + 1);
    MergedIsPermutation(log.records + [p], rules);
    MergedLength(log.records + [p], rules);
  }

  /** The key was made by a record like this one. */
  predicate Names(k: Key, r: Record) {
    match k
    case ByContent(c) => r.content == c && c != Content("", "", "", "", "", "", "", "", "")
    case BySequence(s) =>
      r.content == Content("", "", "", "", "", "", "", "", "") && s != Some(0)
        && (r.sequence == s || (s.None? && r.sequence == Some(0)))
  }

  /** While the ledger holds, a record is turned away exactly if a buffered record
      has a line of the same fields, or of the same sequence if it has no fields. */
  lemma TurnedAwayIff(log: Log, r: Record)
    requires Ledger(log)
    ensures Duplicate(log, r) <==> exists i :: 0 <= i < |log.records| && Bears(log.records[i], r)
  {
    hide Keys, Names;
    NamesKey(r);
    forall k ensures k in log.seen <==> k in AllKeys(log.records) {
      assert k in multiset(log.seen) <==> k in multiset(AllKeys(log.records));
    }
    BorneSomewhere(log.records, r);
  }

  predicate Bears(record: Record, r: Record) {
    exists j :: 0 <= j < |Keys(record)| && Names(Keys(record)[j], r)
  }

  lemma NamesKey(r: Record)
    ensures forall k :: Names(k, r) <==> k == DedupeKey(r)
  {
  }

  lemma {:induction false} BorneSomewhere(rs: seq<Record>, r: Record)
    ensures DedupeKey(r) in AllKeys(rs) <==> exists i :: 0 <= i < |rs| && Bears(rs[i], r)
  {
    hide Keys, Names, DedupeKey;
    NamesKey(r);
    if rs != [] {
      var n := |rs| - 1;
      BorneSomewhere(rs[..n], r);
      assert Bears(rs[n], r) <==> DedupeKey(r) in Keys(rs[n]);
      if i :| 0 <= i < n && Bears(rs[..n][i], r) { assert Bears(rs[i], r); }
      if i :| 0 <= i < |rs| && Bears(rs[i], r) { if i < n { assert Bears(rs[..n][i], r); } }
    }
  }

  /** A record's keys name only lines of its own container and time, and a joined
      record is not longer than two messages may be. */
  ghost predicate Unmixed(r: Record) {
    |r.keys| > 1 ==>
      && |r.content.message| <= MAX_MESSAGE + 1
      && forall i :: 0 <= i < |r.keys| ==> r.keys[i].ByContent? && OnePlace(r.keys[i].content, r.content)
  }

  ghost predicate AllUnmixed(rs: seq<Record>) {
    forall i :: 0 <= i < |rs| ==> Unmixed(rs[i]) && HasOwnKey(rs[i])
  }

  /** A record of one key is known by its own fields. */
  predicate HasOwnKey(r: Record) {
    r.keys != [] && (|r.keys| == 1 ==> r.keys[0] == DedupeKey(r))
  }

  lemma JoinUnmixed(last: Record, r: Record, rules: Rules)
    requires Unmixed(last) && HasOwnKey(last) && Coalesces(last, r, rules) && r.keys == [DedupeKey(r)]
    ensures Unmixed(Combined(last, r)) && HasOwnKey(Combined(last, r))
  {
    var c := Combined(last, r);
    forall i | 0 <= i < |c.keys| ensures c.keys[i].ByContent? && OnePlace(c.keys[i].content, c.content) {
      if i < |last.keys| { assert c.keys[i] == last.keys[i]; } else { assert c.keys[i] == DedupeKey(r); }
    }
  }

  /** Merging only moves records. */
  lemma {:induction false} MergedIsPermutation(rs: seq<Record>, rules: Rules)
    ensures multiset(Merged(rs, rules)) == multiset(rs)
  {
    if rs != [] {
      var n := |rs| - 1;
      MergedIsPermutation(rs[..n], rules);
      InsertIsPermutation(Merged(rs[..n], rules), rs[n], rules);
      assert rs == rs[..n] + [rs[n]];
    }
  }

  lemma {:induction false} InsertIsPermutation(rs: seq<Record>, r: Record, rules: Rules)
    ensures multiset(InsertRecord(rs, r, rules)) == multiset(rs) + multiset{r}
  {
    if rs != [] && !NotAfter(rs[|rs| - 1], r, rules) {
      var n := |rs| - 1;
      InsertIsPermutation(rs[..n], r, rules);
      assert rs == rs[..n] + [rs[n]];
    }
  }

  lemma StoredUnmixed(log: Log, r: Record, single: bool, rules: Rules)
    requires AllUnmixed(log.records) && r.keys == [DedupeKey(r)]
    ensures AllUnmixed(Stored(log, r, single, rules).records)
    ensures |Stored(log, r, single, rules).records| <= |log.records| + 1
  {
    hide Coalesces, Combined, Merged, Unmixed, HasOwnKey;
    OwnKeyUnmixed(r);
    var n := |log.records| - 1;
    if WillCoalesce(log, r, single, rules) {
      JoinUnmixed(log.records[n], r, rules);
    } else if !single {
      var rs, merged := log.records + [r], Merged(log.records + [r], rules);
      MergedLength(rs, rules);
      MergedIsPermutation(rs, rules);
      forall i | 0 <= i < |merged| ensures Unmixed(merged[i]) && HasOwnKey(merged[i]) {
        assert merged[i] in multiset(merged);
        assert merged[i] in rs;
      }
    }
  }

  lemma OwnKeyUnmixed(r: Record)
    requires r.keys == [DedupeKey(r)]
    ensures Unmixed(r) && HasOwnKey(r)
  {
  }

  lemma AnnouncedUnmixed(log: Log, r: Record, source: string, target: string)
    requires AllUnmixed(log.records)
    ensures AllUnmixed(Announce(log, r, source, target).records)
    ensures |Announce(log, r, source, target).records| == |log.records| + if Gap(log, source, r) then 1 else 0
  {
    hide Unmixed, HasOwnKey, GapMessage, DedupeKey;
    if Gap(log, source, r) {
      var notice := Notice(r, target, log.lastSequence[source], r.sequence.value, log.arrivals + 2);
      NoticeKeys(r, target, log.lastSequence[source], r.sequence.value, log.arrivals + 2);
      OwnKeyUnmixed(notice);
    }
  }

  /** The gap notices made by arrivals that are then turned away. */
  function LoneNotices(events: seq<Event>, single: bool, rules: Rules): nat {
    if events == [] then 0
    else
      var log, e := After(events[..|events| - 1], single, rules), events[|events| - 1];
      LoneNotices(events[..|events| - 1], single, rules)
        + if e.Activity? && Gap(log, e.source, e.record)
             && Duplicate(Announce(log, e.record, e.source, e.target), e.record) then 1 else 0
  }

  lemma ArrivalUnmixed(
    log: Log, r: Record, source: string, target: string, single: bool, rules: Rules, extra: nat)
    requires AllUnmixed(log.records) && |log.records| <= MAX_RECORDS + extra
    ensures var after := Arrive(log, r, source, target, single, rules).records;
      var lone := Gap(log, source, r) && Duplicate(Announce(log, r, source, target), r);
      AllUnmixed(after) && |after| <= MAX_RECORDS + extra + if lone then 1 else 0
  {
    hide Announce, Stored, Unmixed, HasOwnKey, DedupeKey, Duplicate, LinesIn, KeySet, Gap;
    AnnouncedUnmixed(log, r, source, target);
    var announced := Announce(log, r, source, target);
    if !Duplicate(announced, r) {
      var p := Prepared(r, log.arrivals + 1);
      PreparedKey(r, log.arrivals + 1);
      StoredUnmixed(announced, p, single, rules);
    }
  }

  lemma PreparedKey(r: Record, arrival: nat)
    ensures Prepared(r, arrival).keys == [DedupeKey(Prepared(r, arrival))]
  {
    hide LinesIn;
  }

  /** In every run no record mixes lines of different containers or times, and the
      buffer holds at most 3000 records and the lone notices. */
  lemma {:induction false} BufferStaysRight(events: seq<Event>, single: bool, rules: Rules)
    ensures AllUnmixed(After(events, single, rules).records)
    ensures |After(events, single, rules).records| <= 3000 + LoneNotices(events, single, rules)
  {
    hide Arrive, AllUnmixed, Announce, Duplicate;
    if events == [] {
      NothingMixed();
    } else {
      var front, e := events[..|events| - 1], events[|events| - 1];
      var log := After(front, single, rules);
      BufferStaysRight(front, single, rules);
      match e {
        case Activity(r, source, target) =>
          ArrivalUnmixed(log, r, source, target, single, rules, LoneNotices(front, single, rules));
        case Clear => NothingMixed();
        case Restart => RetainedUnmixed(log.records);
      }
    }
  }

  lemma NothingMixed()
    ensures AllUnmixed([])
  {
  }

  lemma RetainedUnmixed(rs: seq<Record>)
    requires AllUnmixed(rs)
    ensures AllUnmixed(Retained(rs)) && |Retained(rs)| <= |rs|
  {
    hide Unmixed, HasOwnKey;
  }

  /** The event's gap notice, if it makes one, does no harm to the ledger. */
  ghost predicate Harmless(log: Log, e: Event, single: bool, rules: Rules) {
    e.Activity? ==>
      NoticeIsFresh(log, e.record, e.source, e.target) || BothTrimmed(log, e.record, e.source, e.target, single, rules)
  }

  /** The event makes no gap notice, or one whose key is not in use. */
  predicate FreshNotice(log: Log, e: Event) {
    e.Activity? ==> NoticeIsFresh(log, e.record, e.source, e.target)
  }

  ghost predicate AllHarmless(events: seq<Event>, single: bool, rules: Rules) {
    forall i :: 0 <= i < |events| ==> Harmless(After(events[..i], single, rules), events[i], single, rules)
  }

  ghost predicate AlwaysLedger(events: seq<Event>, single: bool, rules: Rules) {
    forall i :: 0 <= i <= |events| ==> Ledger(After(events[..i], single, rules))
  }

  lemma HarmlessLast(events: seq<Event>, single: bool, rules: Rules)
    requires events != []
    ensures var n := |events| - 1;
      AllHarmless(events, single, rules) <==>
      AllHarmless(events[..n], single, rules) && Harmless(After(events[..n], single, rules), events[n], single, rules)
  {
    hide Harmless, After;
    var n := |events| - 1;
    forall i | 0 <= i < n ensures events[..n][..i] == events[..i] && events[..n][i] == events[i] {}
    if AllHarmless(events, single, rules) {
      forall i | 0 <= i < n ensures Harmless(After(events[..n][..i], single, rules), events[..n][i], single, rules) {
        assert Harmless(After(events[..i], single, rules), events[i], single, rules);
      }
    }
    if AllHarmless(events[..n], single, rules) {
      forall i | 0 <= i < n ensures Harmless(After(events[..i], single, rules), events[i], single, rules) {
        assert Harmless(After(events[..n][..i], single, rules), events[..n][i], single, rules);
      }
    }
  }

  lemma LedgerLast(events: seq<Event>, single: bool, rules: Rules)
    requires events != []
    ensures var n := |events| - 1;
      AlwaysLedger(events, single, rules) <==>
        AlwaysLedger(events[..n], single, rules) && Ledger(After(events, single, rules))
  {
    hide Ledger, After;
    var n := |events| - 1;
    assert events[..|events|] == events;
    forall i | 0 <= i <= n ensures events[..n][..i] == events[..i] {}
    if AlwaysLedger(events, single, rules) {
      forall i | 0 <= i <= n ensures Ledger(After(events[..n][..i], single, rules)) {
        assert Ledger(After(events[..i], single, rules));
      }
    }
    if AlwaysLedger(events[..n], single, rules) && Ledger(After(events, single, rules)) {
      forall i | 0 <= i <= |events| ensures Ledger(After(events[..i], single, rules)) {
        if i <= n { assert Ledger(After(events[..n][..i], single, rules)); }
      }
    }
  }

  /** Over every run, seen is the disjoint union of the buffered keys after each
      event exactly when every gap notice is harmless when it is made. */
  lemma {:induction false} LedgerKept(events: seq<Event>, single: bool, rules: Rules)
    ensures AlwaysLedger(events, single, rules) <==> AllHarmless(events, single, rules)
  {
    hide Apply, Ledger, Harmless;
    if events == [] {
      EmptyLedger();
      assert events[..0] == [];
    } else {
      var n := |events| - 1;
      LedgerKept(events[..n], single, rules);
      LedgerLast(events, single, rules);
      HarmlessLast(events, single, rules);
      assert events[..n][..n] == events[..n];
      if Ledger(After(events[..n], single, rules)) {
        StepLedger(After(events[..n], single, rules), events[n], single, rules);
      }
    }
  }

  /** With one target that is exactly when every gap notice has a fresh key. */
  lemma LedgerKeptByFreshNotices(events: seq<Event>, rules: Rules)
    ensures AlwaysLedger(events, true, rules) <==>
      forall i :: 0 <= i < |events| ==> FreshNotice(After(events[..i], true, rules), events[i])
  {
    hide Ledger, After, BothTrimmed, NoticeIsFresh;
    LedgerKept(events, true, rules);
    forall i | 0 <= i < |events| && Ledger(After(events[..i], true, rules))
      ensures Harmless(After(events[..i], true, rules), events[i], true, rules)
        <==> FreshNotice(After(events[..i], true, rules), events[i])
    {
      HarmlessSingle(After(events[..i], true, rules), events[i], rules);
    }
    if forall i :: 0 <= i < |events| ==> FreshNotice(After(events[..i], true, rules), events[i]) {
      forall i | 0 <= i < |events| ensures Harmless(After(events[..i], true, rules), events[i], true, rules) {
        assert FreshNotice(After(events[..i], true, rules), events[i]);
      }
    }
  }

  lemma HarmlessSingle(log: Log, e: Event, rules: Rules)
    requires Ledger(log)
    ensures Harmless(log, e, true, rules) <==> FreshNotice(log, e)
  {
    hide Ledger, BothTrimmed, NoticeIsFresh;
    if e.Activity? { NeverBothTrimmed(log, e.record, e.source, e.target, rules); }
  }

  lemma EmptyLedger()
    ensures Ledger(EMPTY)
  {
  }

  lemma StepLedger(log: Log, e: Event, single: bool, rules: Rules)
    requires Ledger(log)
    ensures Ledger(Apply(log, e, single, rules)) <==> Harmless(log, e, single, rules)
  {
    hide Arrive, NoticeIsFresh, BothTrimmed;
    match e
    case Activity(r, source, target) => ArriveKeepsLedger(log, r, source, target, single, rules);
    case Clear =>
    case Restart => RestartedLedger(log);
  }

  // ------------------------------------------------- a notice whose key is not fresh

  const GAP_RULES := Rules(_ => false, _ => 0)

  function Numbered(sequence: int, message: string): Record {
    Record(NO_CONTENT.(timestamp := "t", message := message), Some(sequence), [], 0, 0)
  }

  const FIRST := Activity(Numbered(5, "a"), "k", "web")
  const SECOND := Activity(Numbered(8, "b"), "k", "web")

  /** The viewer reconnects and is sent the same two records again. */
  const GAP_RUN: seq<Event> := [FIRST, SECOND, Restart, FIRST, SECOND]

  function GapNotice(arrival: nat): Record {
    Notice(Numbered(8, "b"), "web", 5, 8, arrival)
  }

  lemma AfterStep(events: seq<Event>, e: Event, single: bool, rules: Rules)
    ensures After(events + [e], single, rules) == Apply(After(events, single, rules), e, single, rules)
  {
    assert (events + [e])[..|events|] == events;
  }

  lemma GapRunStart()
    ensures var log := After([FIRST, SECOND], true, GAP_RULES);
      && |log.records| == 3 && log.records[1] == GapNotice(3)
      && Keys(log.records[0]) == [DedupeKey(Numbered(5, "a"))] && Keys(log.records[2]) == [DedupeKey(Numbered(8, "b"))]
  {
    hide GapMessage, LinesIn;
    AfterStep([], FIRST, true, GAP_RULES);
    assert [] + [FIRST] == [FIRST];
    AfterStep([FIRST], SECOND, true, GAP_RULES);
    assert [FIRST] + [SECOND] == [FIRST, SECOND];
  }

  lemma KeysOfThree(a: Record, b: Record, c: Record)
    ensures AllKeys([a, b, c]) == Keys(a) + Keys(b) + Keys(c)
  {
    AllKeysOne(a);
    AllKeysLast([a], b);
    AllKeysLast([a, b], c);
    assert [a] + [b] == [a, b] && [a, b] + [c] == [a, b, c];
  }

  lemma CountOfThree(rs: seq<Record>, x: Key, y: Key, z: Key)
    requires |rs| == 3 && Keys(rs[0]) == [x] && Keys(rs[1]) == [y] && Keys(rs[2]) == [z] && x != y && z != y
    ensures multiset(AllKeys(rs))[y] == 1 && {x, z} <= KeySet(rs)
  {
    hide AllKeys, Keys;
    assert rs == [rs[0], rs[1], rs[2]];
    KeysOfThree(rs[0], rs[1], rs[2]);
    assert AllKeys(rs) == [x, y, z];
  }

  lemma GapRunRestart()
    ensures var log := After([FIRST, SECOND, Restart], true, GAP_RULES);
      && log.records == After([FIRST, SECOND], true, GAP_RULES).records && log.seen == KeySet(log.records)
      && log.lastSequence == map[]
      && multiset(AllKeys(log.records))[DedupeKey(GapNotice(3))] == 1
      && {DedupeKey(Numbered(5, "a")), DedupeKey(Numbered(8, "b"))} <= log.seen
  {
    hide GapMessage, After, KeySet, AllKeys;
    GapRunStart();
    AfterStep([FIRST, SECOND], Restart, true, GAP_RULES);
    assert [FIRST, SECOND] + [Restart] == [FIRST, SECOND, Restart];
    CountOfThree(After([FIRST, SECOND], true, GAP_RULES).records,
                 DedupeKey(Numbered(5, "a")), DedupeKey(GapNotice(3)), DedupeKey(Numbered(8, "b")));
  }

  /** Reconnecting and being sent two records again repeats the gap notice: its
      key is buffered twice but seen once. */
  lemma GapNoticeCanRepeat()
    ensures !Ledger(After(GAP_RUN, true, GAP_RULES))
  {
    hide GapMessage, After, KeySet, AllKeys;
    GapRunRestart();
    AfterStep([FIRST, SECOND, Restart], FIRST, true, GAP_RULES);
    assert [FIRST, SECOND, Restart] + [FIRST] == [FIRST, SECOND, Restart, FIRST];
    AfterStep([FIRST, SECOND, Restart, FIRST], SECOND, true, GAP_RULES);
    assert [FIRST, SECOND, Restart, FIRST] + [SECOND] == GAP_RUN;
    var before := After([FIRST, SECOND, Restart], true, GAP_RULES).records;
    var k := DedupeKey(GapNotice(3));
    var again := GapNotice(After([FIRST, SECOND, Restart], true, GAP_RULES).arrivals + 3);
    assert After(GAP_RUN, true, GAP_RULES).records == before + [again];
    AllKeysLast(before, again);
    assert multiset(AllKeys(before + [again]))[k] == 2;
  }
}
