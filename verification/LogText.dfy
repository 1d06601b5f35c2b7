/** The text in the browser's record buffer: no line is lost, invented, changed
    or put out of order (webembed/src/app/42-activity-streams.js and
    43-log-rendering.js). */
module LogText {
  import opened LogBuffer
  import opened Text
  import opened Wrappers

  function LinesOf(message: string): seq<string> {
    Split(message, '\n')
  }

  /** The lines of all records, in order. */
  function TextOf(rs: seq<Record>): seq<string> {
    if rs == [] then [] else TextOf(rs[..|rs| - 1]) + LinesOf(rs[|rs| - 1].content.message)
  }

  /** A message is its lines with line breaks between them. */
  lemma LinesAreMessage(message: string)
    ensures Join(LinesOf(message), "\n") == message
  {
    JoinOfSplit(message, '\n');
  }

  /** A record's line count is the number of its message's lines. */
  lemma {:induction false} LinesCounted(message: string)
    ensures LinesIn(message) == |LinesOf(message)|
  {
    if message != "" { LinesCounted(message[1..]); }
  }

  lemma LinesOfJoined(a: string, b: string)
    ensures LinesOf(a + "\n" + b) == LinesOf(a) + LinesOf(b)
  {
    SplitBetween(a, b, '\n');
  }

  lemma {:induction false} TextAppend(a: seq<Record>, b: seq<Record>)
    ensures TextOf(a + b) == TextOf(a) + TextOf(b)
  {
    hide LinesOf;
    if b == [] {
      assert a + b == a;
      assert TextOf(a) + [] == TextOf(a);
    } else {
      TextAppend(a, b[..|b| - 1]);
      assert (a + b)[..|a + b| - 1] == a + b[..|b| - 1];
    }
  }

  lemma TextLast(rs: seq<Record>, r: Record)
    ensures TextOf(rs + [r]) == TextOf(rs) + LinesOf(r.content.message)
  {
    assert (rs + [r])[..|rs|] == rs;
  }

  lemma {:induction false} InsertKeepsText(rs: seq<Record>, r: Record, rules: Rules)
    ensures multiset(TextOf(InsertRecord(rs, r, rules))) == multiset(TextOf(rs)) + multiset(LinesOf(r.content.message))
  {
    hide LinesOf, NotAfter;
    if rs == [] || NotAfter(rs[|rs| - 1], r, rules) {
      TextLast(rs, r);
    } else {
      var front, last := rs[..|rs| - 1], rs[|rs| - 1];
      InsertKeepsText(front, r, rules);
      TextLast(InsertRecord(front, r, rules), last);
    }
  }

  lemma {:induction false} MergeKeepsText(rs: seq<Record>, rules: Rules)
    ensures multiset(TextOf(Merged(rs, rules))) == multiset(TextOf(rs))
  {
    hide LinesOf, InsertRecord;
    if rs != [] {
      MergeKeepsText(rs[..|rs| - 1], rules);
      InsertKeepsText(Merged(rs[..|rs| - 1], rules), rs[|rs| - 1], rules);
    }
  }

  lemma CombinedText(front: seq<Record>, last: Record, r: Record)
    ensures TextOf(front + [Combined(last, r)]) == TextOf(front + [last]) + LinesOf(r.content.message)
  {
    hide LinesOf;
    TextLast(front, last);
    TextLast(front, Combined(last, r));
    LinesOfJoined(last.content.message, r.content.message);
  }

  lemma StoredText(log: Log, r: Record, single: bool, rules: Rules)
    ensures var text := TextOf(Stored(log, r, single, rules).records);
      && multiset(text) == multiset(TextOf(log.records)) + multiset(LinesOf(r.content.message))
      && (single ==> text == TextOf(log.records) + LinesOf(r.content.message))
  {
    hide LinesOf, Combined, Coalesces, Merged;
    var n := |log.records| - 1;
    if WillCoalesce(log, r, single, rules) {
      assert log.records == log.records[..n] + [log.records[n]];
      CombinedText(log.records[..n], log.records[n], r);
    } else {
      TextLast(log.records, r);
      MergeKeepsText(log.records + [r], rules);
    }
  }

  // ------------------------------------------------------------------ whole runs

  function NoticeText(log: Log, r: Record, source: string, target: string): seq<string> {
    if Gap(log, source, r) then LinesOf(GapMessage(target, log.lastSequence[source], r.sequence.value)) else []
  }

  function EnteringText(log: Log, e: Event): seq<string> {
    match e
    case Activity(r, source, target) =>
      NoticeText(log, r, source, target)
      + if Duplicate(Announce(log, r, source, target), r) then [] else LinesOf(r.content.message)
    case _ => []
  }

  function LeavingText(log: Log, e: Event, single: bool, rules: Rules): seq<string> {
    match e
    case Activity(r, source, target) =>
      var announced := Announce(log, r, source, target);
      if Duplicate(announced, r) then []
      else
        var stored := Stored(announced, Prepared(r, log.arrivals + 1), single, rules);
        if |stored.records| <= MAX_RECORDS then [] else TextOf(stored.records[..TRIM])
    case Clear => TextOf(log.records)
    case Restart => TextOf(log.records[..|log.records| - |Retained(log.records)|])
  }

  function AcceptedText(events: seq<Event>, single: bool, rules: Rules): seq<string> {
    if events == [] then []
    else AcceptedText(events[..|events| - 1], single, rules)
         + EnteringText(After(events[..|events| - 1], single, rules), events[|events| - 1])
  }

  function RemovedText(events: seq<Event>, single: bool, rules: Rules): seq<string> {
    if events == [] then []
    else RemovedText(events[..|events| - 1], single, rules)
         + LeavingText(After(events[..|events| - 1], single, rules), events[|events| - 1], single, rules)
  }

  lemma AnnouncedText(log: Log, r: Record, source: string, target: string)
    ensures TextOf(Announce(log, r, source, target).records) == TextOf(log.records) + NoticeText(log, r, source, target)
  {
    hide LinesOf, GapMessage;
    if Gap(log, source, r) {
      TextLast(log.records, Notice(r, target, log.lastSequence[source], r.sequence.value, log.arrivals + 2));
    }
  }

  /** One trim removes a prefix of the text. */
  lemma TrimmedText(log: Log)
    ensures (if |log.records| <= MAX_RECORDS then [] else TextOf(log.records[..TRIM])) + TextOf(Trimmed(log).records)
      == TextOf(log.records)
  {
    if |log.records| > MAX_RECORDS {
      TextAppend(log.records[..TRIM], log.records[TRIM..]);
      assert log.records == log.records[..TRIM] + log.records[TRIM..];
    }
  }

  lemma ArrivedText(log: Log, r: Record, source: string, target: string, single: bool, rules: Rules)
    ensures var e := Activity(r, source, target);
      var out, now := LeavingText(log, e, single, rules), TextOf(Arrive(log, r, source, target, single, rules).records);
      && multiset(out + now) == multiset(TextOf(log.records) + EnteringText(log, e))
      && (single ==> out + now == TextOf(log.records) + EnteringText(log, e))
  {
    hide LinesOf, Announce, Stored, Trimmed, TextOf, NoticeText, Duplicate;
    var announced := Announce(log, r, source, target);
    var before, notice, lines := TextOf(log.records), NoticeText(log, r, source, target), LinesOf(r.content.message);
    AnnouncedText(log, r, source, target);
    if Duplicate(announced, r) {
      assert notice + [] == notice;
      assert [] + TextOf(announced.records) == TextOf(announced.records);
    } else {
      var p := Prepared(r, log.arrivals + 1);
      StoredText(announced, p, single, rules);
      TrimmedText(Stored(announced, p, single, rules));
      Rotate(before, notice, lines);
    }
  }

  lemma RestartedText(log: Log)
    ensures TextOf(log.records[..|log.records| - |Retained(log.records)|]) + TextOf(Retained(log.records))
      == TextOf(log.records)
  {
    hide TextOf;
    var i := |log.records| - |Retained(log.records)|;
    TextAppend(log.records[..i], log.records[i..]);
    assert log.records == log.records[..i] + log.records[i..];
    assert Retained(log.records) == log.records[i..];
  }

  lemma StepText(log: Log, e: Event, single: bool, rules: Rules)
    ensures var out, now := LeavingText(log, e, single, rules), TextOf(Apply(log, e, single, rules).records);
      && multiset(out + now) == multiset(TextOf(log.records) + EnteringText(log, e))
      && (single ==> out + now == TextOf(log.records) + EnteringText(log, e))
  {
    hide Arrive, TextOf, LinesOf, Announce, Stored, Duplicate;
    assert TextOf(log.records) + [] == TextOf(log.records);
    match e
    case Activity(r, source, target) => ArrivedText(log, r, source, target, single, rules);
    case Clear => NoText();
    case Restart => RestartedText(log);
  }

  lemma NoText()
    ensures TextOf([]) == []
  {
  }

  /** Over every run, the removed and the buffered lines are the accepted ones;
      with one target they are so in order: the buffer is the newest text. */
  lemma {:induction false} TextConserved(events: seq<Event>, single: bool, rules: Rules)
    ensures var text := RemovedText(events, single, rules) + TextOf(After(events, single, rules).records);
      && multiset(text) == multiset(AcceptedText(events, single, rules))
      && (single ==> text == AcceptedText(events, single, rules))
  {
    hide EnteringText, LeavingText, Apply, TextOf;
    if events == [] {
      NoText();
    } else {
      var front, e := events[..|events| - 1], events[|events| - 1];
      var log := After(front, single, rules);
      TextConserved(front, single, rules);
      StepText(log, e, single, rules);
      Rotate(RemovedText(front, single, rules), LeavingText(log, e, single, rules),
          TextOf(Apply(log, e, single, rules).records));
      Rotate(RemovedText(front, single, rules), TextOf(log.records), EnteringText(log, e));
    }
  }

  lemma Rotate(a: seq<string>, b: seq<string>, c: seq<string>)
    ensures a + b + c == a + (b + c)
  {
  }

  // -------------------------------------------------------------- merging by time

  /** No record is after a later one. */
  ghost predicate InTimeOrder(rs: seq<Record>, rules: Rules) {
    forall i, j :: 0 <= i < j < |rs| ==> NotAfter(rs[i], rs[j], rules)
  }

  lemma {:induction false} InsertInOrder(rs: seq<Record>, r: Record, rules: Rules)
    requires InTimeOrder(rs, rules)
    ensures InTimeOrder(InsertRecord(rs, r, rules), rules)
    ensures forall i :: 0 <= i < |InsertRecord(rs, r, rules)| ==>
      InsertRecord(rs, r, rules)[i] in rs || InsertRecord(rs, r, rules)[i] == r
  {
    if rs == [] {
    } else if NotAfter(rs[|rs| - 1], r, rules) {
      forall i | 0 <= i < |rs| ensures NotAfter(rs[i], r, rules) {}
    } else {
      var front, last := rs[..|rs| - 1], rs[|rs| - 1];
      InsertInOrder(front, r, rules);
      var placed := InsertRecord(front, r, rules);
      forall i | 0 <= i < |placed| ensures NotAfter(placed[i], last, rules) {
        if placed[i] in front { var k :| 0 <= k < |front| && front[k] == placed[i]; assert rs[k] == placed[i]; }
      }
    }
  }

  lemma {:induction false} MergedInOrder(rs: seq<Record>, rules: Rules)
    ensures InTimeOrder(Merged(rs, rules), rules)
  {
    hide NotAfter;
    if rs != [] {
      MergedInOrder(rs[..|rs| - 1], rules);
      InsertInOrder(Merged(rs[..|rs| - 1], rules), rs[|rs| - 1], rules);
    }
  }

  /** With several targets every stored record leaves the buffer in the order of
      times, and of arrivals at the same time. */
  lemma StoredInOrder(log: Log, r: Record, source: string, target: string, rules: Rules)
    requires !Duplicate(Announce(log, r, source, target), r)
    ensures var rs := Arrive(log, r, source, target, false, rules).records;
      forall i, j :: 0 <= i < j < |rs| ==>
        var t, u := rules.timeOf(rs[i].content.timestamp), rules.timeOf(rs[j].content.timestamp);
        t < u || (t == u && rs[i].arrival <= rs[j].arrival)
  {
    hide Announce, Merged, Duplicate;
    var announced := Announce(log, r, source, target);
    MergedInOrder(announced.records + [Prepared(r, log.arrivals + 1)], rules);
  }

  // ------------------------------------------------------------- sequence numbers

  /** The arrival carries a source's first or a higher sequence number. */
  predicate Advances(log: Log, e: Event, source: string) {
    e.Activity? && e.source == source && e.record.sequence.Some?
    && (source in log.lastSequence ==> e.record.sequence.value > log.lastSequence[source])
  }

  /** The number a gap notice for this arrival reports as missing. */
  function Missing(log: Log, e: Event, source: string): nat {
    if e.Activity? && e.source == source && Gap(log, source, e.record)
    then e.record.sequence.value - log.lastSequence[source] - 1 else 0
  }

  /** What a source sent since the last reconnect: its first number, how often
      the number advanced after that, and how many the notices report missing. */
  datatype Account = Account(first: Option<int>, advances: nat, missing: nat)

  function AccountOf(events: seq<Event>, source: string, single: bool, rules: Rules): Account {
    if events == [] then Account(None, 0, 0)
    else
      var front, e := events[..|events| - 1], events[|events| - 1];
      var log, before := After(front, single, rules), AccountOf(front, source, single, rules);
      if e.Restart? then Account(None, 0, 0)
      else if !Advances(log, e, source) then before
      else if before.first.None? then before.(first := e.record.sequence)
      else before.(advances := before.advances + 1, missing := before.missing + Missing(log, e, source))
  }

  lemma StepLastSequence(log: Log, e: Event, source: string, single: bool, rules: Rules)
    ensures var last := Apply(log, e, single, rules).lastSequence;
      if e.Restart? then last == map[]
      else if Advances(log, e, source) then source in last && last[source] == e.record.sequence.value
      else
        && (source in last <==> source in log.lastSequence)
        && (source in last ==> last[source] == log.lastSequence[source])
  {
    hide TextOf, Merged, Combined, Coalesces, AllKeys, LinesIn, DedupeKey;
  }

  /** A gap notice starts with the number of missing records and ends with the two
      numbers around them. */
  lemma NoticeSaysMissing(log: Log, e: Event, source: string)
    requires e.Activity? && e.source == source && Gap(log, source, e.record)
    ensures var last := log.lastSequence[source];
      var message := GapMessage(e.target, last, e.record.sequence.value);
      exists digits, middle ::
        && message == digits + " record" + middle + Itoa(last) + " and " + Itoa(e.record.sequence.value)
        && NumberOf(digits) == Missing(log, e, source) > 0
  {
    var last, sequence := log.lastSequence[source], e.record.sequence.value;
    var missing := sequence - last - 1;
    DigitsMean(missing);
    NoticeParts(e.target, last, sequence);
  }

  lemma NoticeParts(target: string, last: int, sequence: int)
    requires sequence > last + 1
    ensures var middle := (if sequence - last - 1 == 1 then "" else "s") + " missing from " + target
      + " between sequence ";
      GapMessage(target, last, sequence)
        == Digits(sequence - last - 1) + " record" + middle + Itoa(last) + " and " + Itoa(sequence)
  {
    hide Digits;
  }

  /** Gap notices report exactly the numbers that never came: a source's last
      number is its first, plus one for each advance, plus the reported gaps. */
  lemma {:induction false} GapsAccounted(events: seq<Event>, source: string, single: bool, rules: Rules)
    ensures var last, account := After(events, single, rules).lastSequence, AccountOf(events, source, single, rules);
      && (source in last <==> account.first.Some?) && (account.first.None? ==> account == Account(None, 0, 0))
      && (source in last ==> last[source] == account.first.value + account.advances + account.missing)
  {
    hide Apply;
    if events != [] {
      var front, e := events[..|events| - 1], events[|events| - 1];
      GapsAccounted(front, source, single, rules);
      StepLastSequence(After(front, single, rules), e, source, single, rules);
    }
  }
}
