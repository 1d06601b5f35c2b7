/** One viewer of a live stream: a bounded queue that drops records when it is
    full and reports the drops in band (internal/activity/manager.go). */
module Fanout {

  datatype Record = Record(sequence: nat, message: string)

  /** What a viewer is sent: a record, or a notice that some were dropped. */
  datatype Item = Data(record: Record) | Dropped(count: nat)

  /** A subscriber and its channel; taken is what its reader has received. */
  datatype Viewer = Viewer(capacity: nat, queue: seq<Item>, dropped: nat, taken: seq<Item>)

  function AsItems(rs: seq<Record>): seq<Item> {
    if rs == [] then [] else AsItems(rs[..|rs| - 1]) + [Data(rs[|rs| - 1])]
  }

  /** The size of a new viewer's channel. */
  function Capacity(ring: seq<Record>): nat {
    if |ring| + 64 > 256 then |ring| + 64 else 256
  }

  /** A viewer joins: the replayed records are queued. */
  function Joined(capacity: nat, replay: seq<Record>): Viewer {
    Viewer(capacity, AsItems(replay), 0, [])
  }

  predicate Full(v: Viewer) {
    |v.queue| >= v.capacity
  }

  function NoticeTried(v: Viewer): Viewer {
    if v.dropped > 0 && !Full(v) then v.(queue := v.queue + [Dropped(v.dropped)], dropped := 0) else v
  }

  function RecordTried(v: Viewer, r: Record): Viewer {
    if Full(v) then v.(dropped := v.dropped + 1) else v.(queue := v.queue + [Data(r)])
  }

  /** One broadcast, with no receive in the middle. */
  function Delivered(v: Viewer, r: Record): Viewer {
    RecordTried(NoticeTried(v), r)
  }

  function Received(v: Viewer): Viewer {
    if v.queue == [] then v else v.(queue := v.queue[1..], taken := v.taken + [v.queue[0]])
  }

  /** Everything the viewer was ever sent. */
  function Sent(v: Viewer): seq<Item> {
    v.taken + v.queue
  }

  class Subscriber {
    const capacity: nat
    var queue: seq<Item>
    var dropped: nat
    var taken: seq<Item>

    ghost function Contents(): Viewer
      reads this
    {
      Viewer(capacity, queue, dropped, taken)
    }

    /** Subscribe's queueing of the replay, which has room for it. */
    constructor (ring: seq<Record>)
      ensures Contents() == Joined(Capacity(ring), ring)
    {
      var size := 256;
      var needed := |ring| + 64;
      if needed > size { size := needed; }
      capacity := size;
      queue, dropped, taken := [], 0, [];
      new;
      for i := 0 to |ring|
        invariant queue == AsItems(ring[..i]) && |queue| == i && dropped == 0 && taken == []
      {
        // The send cannot block.
        assert |queue| < capacity;
        queue := queue + [Data(ring[i])];
        assert ring[..i + 1][..i] == ring[..i];
      }
      assert ring[..|ring|] == ring;
    }

    /** A send that gives up when the channel is full. */
    method TrySend(item: Item) returns (ok: bool)
      modifies this`queue
      ensures ok == (|old(queue)| < capacity)
      ensures queue == if ok then old(queue) + [item] else old(queue)
    {
      ok := |queue| < capacity;
      if ok { queue := queue + [item]; }
    }

    /** The body of broadcast for one subscriber. */
    method Deliver(r: Record)
      modifies this
      ensures Contents() == Delivered(old(Contents()), r)
    {
      if dropped > 0 {
        var noticed := TrySend(Dropped(dropped));
        if noticed { dropped := 0; }
      }
      var sent := TrySend(Data(r));
      if !sent { dropped := dropped + 1; }
    }

    method Receive() returns (item: Item)
      requires queue != []
      modifies this
      ensures item == old(queue)[0] && Contents() == Received(old(Contents()))
    {
      item := queue[0];
      queue, taken := queue[1..], taken + [item];
    }
  }

  // ------------------------------------------------------------------- counting

  /** How many broadcast records an item accounts for. */
  function Weight(item: Item): nat {
    match item
    case Data(_) => 1
    case Dropped(k) => k
  }

  function Span(items: seq<Item>): nat {
    if items == [] then 0 else Span(items[..|items| - 1]) + Weight(items[|items| - 1])
  }

  /** Delivered, reported and outstanding drops add up to n broadcasts. */
  ghost predicate Counted(v: Viewer, n: nat) {
    Span(Sent(v)) + v.dropped == n
  }

  lemma SpanLast(items: seq<Item>, item: Item)
    ensures Span(items + [item]) == Span(items) + Weight(item)
  {
    assert (items + [item])[..|items|] == items;
  }

  lemma SentMore(v: Viewer, w: Viewer, item: Item)
    requires w.queue == v.queue + [item] && w.taken == v.taken
    ensures Sent(w) == Sent(v) + [item]
  {
  }

  lemma ReceivedSent(v: Viewer)
    ensures Sent(Received(v)) == Sent(v)
  {
    if v.queue != [] {
      assert v.taken + [v.queue[0]] + v.queue[1..] == v.taken + v.queue;
    }
  }

  lemma {:induction false} AsItemsSpan(rs: seq<Record>)
    ensures Span(AsItems(rs)) == |rs| == |AsItems(rs)|
  {
    if rs != [] {
      AsItemsSpan(rs[..|rs| - 1]);
      SpanLast(AsItems(rs[..|rs| - 1]), Data(rs[|rs| - 1]));
    }
  }

  lemma NoticeCounted(v: Viewer)
    ensures Span(Sent(NoticeTried(v))) + NoticeTried(v).dropped == Span(Sent(v)) + v.dropped
  {
    if v.dropped > 0 && !Full(v) {
      SentMore(v, NoticeTried(v), Dropped(v.dropped));
      SpanLast(Sent(v), Dropped(v.dropped));
    }
  }

  lemma RecordCounted(v: Viewer, r: Record)
    ensures Span(Sent(RecordTried(v, r))) + RecordTried(v, r).dropped == Span(Sent(v)) + v.dropped + 1
  {
    if !Full(v) {
      SentMore(v, RecordTried(v, r), Data(r));
      SpanLast(Sent(v), Data(r));
    }
  }

  // -------------------------------------------------------- exact drop encoding

  function Extended(before: seq<Record>, item: Item, history: seq<Record>): seq<Record> {
    match item
    case Data(r) => before + [r]
    case Dropped(k) => before + if |before| + k <= |history| then history[|before|..|before| + k] else []
  }

  /** Reading what was sent against the stream's history: a notice stands for
      that many next records. */
  function Replayed(items: seq<Item>, history: seq<Record>): seq<Record> {
    if items == [] then [] else Extended(Replayed(items[..|items| - 1], history), items[|items| - 1], history)
  }

  /** What was sent, read that way, followed by the drops not yet reported, is
      the history itself. */
  ghost predicate Exact(v: Viewer, history: seq<Record>) {
    Counted(v, |history|) && Replayed(Sent(v), history) + history[|history| - v.dropped..] == history
  }

  lemma ReplayedLast(items: seq<Item>, item: Item, history: seq<Record>)
    ensures Replayed(items + [item], history) == Extended(Replayed(items, history), item, history)
  {
    assert (items + [item])[..|items|] == items;
  }

  /** Later history does not change how earlier items read. */
  lemma {:induction false} ReplayedGrows(items: seq<Item>, history: seq<Record>, r: Record)
    requires Span(items) <= |history|
    ensures |Replayed(items, history)| == Span(items)
    ensures Replayed(items, history + [r]) == Replayed(items, history)
  {
    if items != [] { ReplayedGrows(items[..|items| - 1], history, r); }
  }

  lemma ExactPrefix(v: Viewer, history: seq<Record>)
    requires Counted(v, |history|)
    ensures |Replayed(Sent(v), history)| == |history| - v.dropped
    ensures Exact(v, history) <==> Replayed(Sent(v), history) == history[..|history| - v.dropped]
  {
    if history != [] {
      ReplayedGrows(Sent(v), history, history[0]);
    } else {
      ReplayedGrows(Sent(v), history, Record(0, ""));
    }
    var n := |history| - v.dropped;
    assert history == history[..n] + history[n..];
    if Replayed(Sent(v), history) + history[n..] == history {
      assert Replayed(Sent(v), history) == (Replayed(Sent(v), history) + history[n..])[..n];
    }
  }

  lemma NoticeExact(v: Viewer, history: seq<Record>)
    requires Exact(v, history)
    ensures Exact(NoticeTried(v), history)
  {
    hide Replayed, Span, Exact, Sent;
    ExactCounted(v, history);
    NoticeCounted(v);
    CountedIs(v, |history|);
    CountedIs(NoticeTried(v), |history|);
    if v.dropped > 0 && !Full(v) {
      ExactPrefix(v, history);
      ExactPrefix(NoticeTried(v), history);
      SentMore(v, NoticeTried(v), Dropped(v.dropped));
      ReplayedLast(Sent(v), Dropped(v.dropped), history);
      var n := |history| - v.dropped;
      assert history[..n] + history[n..n + v.dropped] == history[..|history|];
    }
  }

  lemma CountedIs(v: Viewer, n: nat)
    ensures Counted(v, n) <==> Span(Sent(v)) + v.dropped == n
  {
  }

  lemma ExactCounted(v: Viewer, history: seq<Record>)
    requires Exact(v, history)
    ensures Counted(v, |history|)
  {
  }

  /** Trying a new record keeps the encoding exact exactly when the record is
      refused or no drop is outstanding. */
  lemma RecordExact(v: Viewer, r: Record, history: seq<Record>)
    requires Exact(v, history)
    ensures Full(v) || v.dropped == 0 ==> Exact(RecordTried(v, r), history + [r])
    ensures r !in history && Exact(RecordTried(v, r), history + [r]) ==> Full(v) || v.dropped == 0
  {
    hide Replayed, Span, Exact, Sent;
    var w, longer := RecordTried(v, r), history + [r];
    ExactCounted(v, history);
    CountedIs(v, |history|);
    RecordCounted(v, r);
    CountedIs(w, |longer|);
    ExactPrefix(v, history);
    ExactPrefix(w, longer);
    ReplayedGrows(Sent(v), history, r);
    if Full(v) {
      assert Sent(w) == Sent(v) by { SameSent(v, w); }
      assert longer[..|longer| - w.dropped] == history[..|history| - v.dropped];
    } else {
      SentMore(v, w, Data(r));
      ReplayedLast(Sent(v), Data(r), longer);
      var n := |history| - v.dropped;
      assert Replayed(Sent(w), longer) == history[..n] + [r];
      if v.dropped == 0 {
        assert longer[..|longer|] == history[..n] + [r];
      } else if Exact(w, longer) {
        assert (history[..n] + [r])[n] == r && longer[..|longer| - w.dropped][n] == history[n];
        assert history[n] in history;
      }
    }
  }

  lemma SameSent(v: Viewer, w: Viewer)
    requires w.queue == v.queue && w.taken == v.taken
    ensures Sent(w) == Sent(v)
  {
  }

  lemma {:induction false} ReplayedItems(rs: seq<Record>, history: seq<Record>)
    ensures Replayed(AsItems(rs), history) == rs
  {
    if rs != [] {
      ReplayedItems(rs[..|rs| - 1], history);
      ReplayedLast(AsItems(rs[..|rs| - 1]), Data(rs[|rs| - 1]), history);
    }
  }

  lemma JoinedExact(capacity: nat, replay: seq<Record>)
    ensures Exact(Joined(capacity, replay), replay)
  {
    AsItemsSpan(replay);
    ReplayedItems(replay, replay);
    assert Sent(Joined(capacity, replay)) == AsItems(replay);
  }

  /** Receives change neither the counting nor the encoding. */
  lemma ReceivedExact(v: Viewer, history: seq<Record>)
    ensures Exact(Received(v), history) <==> Exact(v, history)
  {
    ReceivedSent(v);
  }

  // ------------------------------------------------------------------ whole runs

  /** What can happen to a viewer between broadcasts. */
  datatype Event = Broadcast(record: Record) | Receive

  function After(v: Viewer, events: seq<Event>): Viewer {
    if events == [] then v
    else
      var before := After(v, events[..|events| - 1]);
      match events[|events| - 1]
      case Broadcast(r) => Delivered(before, r)
      case Receive => Received(before)
  }

  function Broadcasts(events: seq<Event>): seq<Record> {
    if events == [] then []
    else
      var before := Broadcasts(events[..|events| - 1]);
      match events[|events| - 1]
      case Broadcast(r) => before + [r]
      case Receive => before
  }

  /** Over every run of broadcasts with receives between them, a viewer can
      rebuild the replay and every later broadcast, drops included, in order. */
  lemma {:induction false} DropsAreExact(capacity: nat, replay: seq<Record>, events: seq<Event>)
    ensures Exact(After(Joined(capacity, replay), events), replay + Broadcasts(events))
  {
    hide Exact, Delivered;
    if events == [] {
      JoinedExact(capacity, replay);
      assert replay + [] == replay;
    } else {
      var front := events[..|events| - 1];
      var before, history := After(Joined(capacity, replay), front), replay + Broadcasts(front);
      DropsAreExact(capacity, replay, front);
      match events[|events| - 1] {
        case Broadcast(r) =>
          DeliveredExact(before, r, history);
          assert history + [r] == replay + (Broadcasts(front) + [r]);
        case Receive => ReceivedExact(before, history);
      }
    }
  }

  lemma DeliveredExact(v: Viewer, r: Record, history: seq<Record>)
    requires Exact(v, history)
    ensures Exact(Delivered(v, r), history + [r])
  {
    hide Exact;
    NoticeExact(v, history);
    RecordExact(NoticeTried(v), r, history);
  }

  /** In every run: when a broadcast finds room for two items, all drops have been
      reported, so what was sent already reads as the whole history. */
  lemma RoomReportsDrops(capacity: nat, replay: seq<Record>, events: seq<Event>, r: Record)
    requires |After(Joined(capacity, replay), events).queue| + 2 <= capacity
    ensures var w := After(Joined(capacity, replay), events + [Broadcast(r)]);
      var history := replay + Broadcasts(events) + [r];
      w.dropped == 0 && Replayed(Sent(w), history) == history
  {
    hide After, Exact, Broadcasts;
    var v, w := After(Joined(capacity, replay), events), After(Joined(capacity, replay), events + [Broadcast(r)]);
    var history := replay + Broadcasts(events + [Broadcast(r)]);
    EventsLast(Joined(capacity, replay), events, Broadcast(r));
    CapacityKept(capacity, replay, events);
    DropsAreExact(capacity, replay, events + [Broadcast(r)]);
    ExactReads(w, history);
    assert history == replay + Broadcasts(events) + [r];
  }

  lemma EventsLast(v: Viewer, events: seq<Event>, e: Event)
    ensures After(v, events + [e]) == match e case Broadcast(r) => Delivered(After(v, events), r)
      case Receive => Received(After(v, events))
    ensures Broadcasts(events + [e]) == Broadcasts(events) + if e.Broadcast? then [e.record] else []
  {
    assert (events + [e])[..|events|] == events;
  }

  lemma {:induction false} CapacityKept(capacity: nat, replay: seq<Record>, events: seq<Event>)
    ensures After(Joined(capacity, replay), events).capacity == capacity
  {
    if events != [] { CapacityKept(capacity, replay, events[..|events| - 1]); }
  }

  lemma ExactReads(v: Viewer, history: seq<Record>)
    requires Exact(v, history) && v.dropped == 0
    ensures Replayed(Sent(v), history) == history
  {
    assert history[|history|..] == [];
  }

  // ------------------------------------------- receives in the middle of a broadcast

  /** The reader holds no lock, so it may receive between the two sends. */
  datatype Step = TryNotice | TryRecord(record: Record) | Take

  function Stepped(v: Viewer, step: Step): Viewer {
    match step
    case TryNotice => NoticeTried(v)
    case TryRecord(r) => RecordTried(v, r)
    case Take => Received(v)
  }

  function AfterSteps(v: Viewer, steps: seq<Step>): Viewer {
    if steps == [] then v else Stepped(AfterSteps(v, steps[..|steps| - 1]), steps[|steps| - 1])
  }

  function Tried(steps: seq<Step>): nat {
    if steps == [] then 0 else Tried(steps[..|steps| - 1]) + if steps[|steps| - 1].TryRecord? then 1 else 0
  }

  /** However receives interleave with the sends, delivered records, reported
      drops and outstanding drops add up to the broadcasts since joining. */
  lemma {:induction false} DropsAreCounted(capacity: nat, replay: seq<Record>, steps: seq<Step>)
    ensures Counted(AfterSteps(Joined(capacity, replay), steps), |replay| + Tried(steps))
  {
    if steps == [] {
      AsItemsSpan(replay);
      assert Sent(Joined(capacity, replay)) == AsItems(replay);
    } else {
      DropsAreCounted(capacity, replay, steps[..|steps| - 1]);
      StepCounted(AfterSteps(Joined(capacity, replay), steps[..|steps| - 1]), steps[|steps| - 1]);
    }
  }

  lemma StepCounted(v: Viewer, step: Step)
    ensures Span(Sent(Stepped(v, step))) + Stepped(v, step).dropped
      == Span(Sent(v)) + v.dropped + if step.TryRecord? then 1 else 0
  {
    match step
    case TryNotice => NoticeCounted(v);
    case TryRecord(r) => RecordCounted(v, r);
    case Take => ReceivedSent(v);
  }

  function AllBroadcast(rs: seq<Record>): seq<Event> {
    if rs == [] then [] else AllBroadcast(rs[..|rs| - 1]) + [Broadcast(rs[|rs| - 1])]
  }

  function Flooded(capacity: nat, rs: seq<Record>): Viewer {
    if |rs| <= capacity then Viewer(capacity, AsItems(rs), 0, [])
    else Viewer(capacity, AsItems(rs[..capacity]), |rs| - capacity, [])
  }

  lemma FloodedLast(capacity: nat, rs: seq<Record>, r: Record)
    ensures Delivered(Flooded(capacity, rs), r) == Flooded(capacity, rs + [r])
  {
    AsItemsSpan(rs);
    assert (rs + [r])[..|rs|] == rs;
    if |rs| >= capacity {
      AsItemsSpan(rs[..capacity]);
      assert (rs + [r])[..capacity] == rs[..capacity];
      assert rs[..|rs|] == rs;
    }
  }

  /** A viewer that never receives keeps the first records and counts the rest. */
  lemma {:induction false} FloodDropsExcess(capacity: nat, rs: seq<Record>)
    ensures After(Joined(capacity, []), AllBroadcast(rs)) == Flooded(capacity, rs)
  {
    hide Flooded, Delivered;
    if rs == [] {
      NothingFlooded(capacity);
    } else {
      var front := rs[..|rs| - 1];
      FloodDropsExcess(capacity, front);
      FloodedLast(capacity, front, rs[|rs| - 1]);
      assert front + [rs[|rs| - 1]] == rs;
    }
  }

  lemma NothingFlooded(capacity: nat)
    ensures Flooded(capacity, []) == Joined(capacity, [])
  {
  }

  // ------------------------------------------------ which interleavings stay exact

  function RecordsTried(steps: seq<Step>): seq<Record> {
    if steps == [] then []
    else
      var before := RecordsTried(steps[..|steps| - 1]);
      match steps[|steps| - 1]
      case TryRecord(r) => before + [r]
      case _ => before
  }

  /** Every record is new to the history. */
  ghost predicate AllFresh(replay: seq<Record>, steps: seq<Step>) {
    forall i :: 0 <= i < |steps| && steps[i].TryRecord? ==> steps[i].record !in replay + RecordsTried(steps[..i])
  }

  /** After the first k steps. */
  ghost predicate ExactAt(capacity: nat, replay: seq<Record>, steps: seq<Step>, k: nat)
    requires k <= |steps|
  {
    Exact(AfterSteps(Joined(capacity, replay), steps[..k]), replay + RecordsTried(steps[..k]))
  }

  /** A record is never queued while drops are outstanding. */
  predicate KeepsOrder(v: Viewer, step: Step) {
    step.TryRecord? ==> Full(v) || v.dropped == 0
  }

  ghost predicate OrderKept(capacity: nat, replay: seq<Record>, steps: seq<Step>) {
    forall i :: 0 <= i < |steps| ==> KeepsOrder(AfterSteps(Joined(capacity, replay), steps[..i]), steps[i])
  }

  lemma StepExactIff(v: Viewer, step: Step, history: seq<Record>)
    requires Exact(v, history) && (step.TryRecord? ==> step.record !in history)
    ensures Exact(Stepped(v, step), if step.TryRecord? then history + [step.record] else history)
      <==> KeepsOrder(v, step)
  {
    hide Exact;
    match step
    case TryNotice => NoticeExact(v, history);
    case TryRecord(r) => RecordExact(v, r, history);
    case Take => ReceivedExact(v, history);
  }

  lemma StepsLast(v: Viewer, steps: seq<Step>, step: Step)
    ensures AfterSteps(v, steps + [step]) == Stepped(AfterSteps(v, steps), step)
    ensures RecordsTried(steps + [step]) == RecordsTried(steps) + if step.TryRecord? then [step.record] else []
  {
    assert (steps + [step])[..|steps|] == steps;
  }

  lemma ExactAtNext(capacity: nat, replay: seq<Record>, steps: seq<Step>, k: nat)
    requires k < |steps| && AllFresh(replay, steps) && ExactAt(capacity, replay, steps, k)
    ensures ExactAt(capacity, replay, steps, k + 1) <==>
      KeepsOrder(AfterSteps(Joined(capacity, replay), steps[..k]), steps[k])
  {
    hide Exact, Stepped, KeepsOrder, AfterSteps, RecordsTried;
    var v, history := AfterSteps(Joined(capacity, replay), steps[..k]), replay + RecordsTried(steps[..k]);
    assert steps[..k + 1] == steps[..k] + [steps[k]];
    StepsLast(Joined(capacity, replay), steps[..k], steps[k]);
    StepExactIff(v, steps[k], history);
    if steps[k].TryRecord? {
      assert history + [steps[k].record] == replay + RecordsTried(steps[..k + 1]);
    } else {
      assert RecordsTried(steps[..k + 1]) == RecordsTried(steps[..k]);
    }
  }

  lemma {:induction false} ExactWhileOrdered(capacity: nat, replay: seq<Record>, steps: seq<Step>, k: nat)
    requires k <= |steps| && AllFresh(replay, steps) && OrderKept(capacity, replay, steps)
    ensures ExactAt(capacity, replay, steps, k)
  {
    hide Exact, KeepsOrder, AllFresh;
    if k == 0 {
      JoinedExact(capacity, replay);
      assert replay + [] == replay;
    } else {
      ExactWhileOrdered(capacity, replay, steps, k - 1);
      ExactAtNext(capacity, replay, steps, k - 1);
    }
  }

  /** However receives and sends interleave, the encoding is exact after every
      step exactly when each record, at the moment it is tried, finds the channel
      full or no drop outstanding. */
  lemma ExactIffOrderKept(capacity: nat, replay: seq<Record>, steps: seq<Step>)
    requires AllFresh(replay, steps)
    ensures (forall k :: 0 <= k <= |steps| ==> ExactAt(capacity, replay, steps, k)) <==>
      OrderKept(capacity, replay, steps)
  {
    hide ExactAt, KeepsOrder, AllFresh;
    if OrderKept(capacity, replay, steps) {
      forall k | 0 <= k <= |steps| ensures ExactAt(capacity, replay, steps, k) {
        ExactWhileOrdered(capacity, replay, steps, k);
      }
    }
    if forall k :: 0 <= k <= |steps| ==> ExactAt(capacity, replay, steps, k) {
      forall i | 0 <= i < |steps| ensures KeepsOrder(AfterSteps(Joined(capacity, replay), steps[..i]), steps[i]) {
        assert ExactAt(capacity, replay, steps, i) && ExactAt(capacity, replay, steps, i + 1);
        ExactAtNext(capacity, replay, steps, i);
      }
    }
  }

  /** A viewer is sent more records than its channel holds; then its reader
      receives one between the two sends of a broadcast. The place of the drops
      is lost. */
  lemma OrderCanBeLost(capacity: nat, rs: seq<Record>, r: Record)
    requires 0 < capacity < |rs| && r !in rs
    ensures var v := After(Joined(capacity, []), AllBroadcast(rs));
      Exact(v, rs) && !Exact(AfterSteps(v, [TryNotice, Take, TryRecord(r)]), rs + [r])
  {
    hide Exact, After, AsItems, AfterSteps, Broadcasts, AllBroadcast;
    FloodDropsExcess(capacity, rs);
    AsItemsSpan(rs[..capacity]);
    DropsAreExact(capacity, [], AllBroadcast(rs));
    FloodIsBroadcast(rs);
    assert [] + rs == rs;
    ReceiveLosesOrder(After(Joined(capacity, []), AllBroadcast(rs)), r, rs);
  }

  lemma ReceiveLosesOrder(v: Viewer, r: Record, history: seq<Record>)
    requires Exact(v, history) && v.dropped > 0 && |v.queue| == v.capacity > 0
    requires r !in history
    ensures !Exact(AfterSteps(v, [TryNotice, Take, TryRecord(r)]), history + [r])
  {
    hide Exact;
    assert [TryNotice, Take, TryRecord(r)][..2] == [TryNotice, Take];
    assert [TryNotice, Take][..1] == [TryNotice];
    assert [TryNotice][..0] == [];
    assert AfterSteps(v, [TryNotice]) == v;
    ReceivedExact(v, history);
    RecordExact(Received(v), r, history);
  }

  lemma {:induction false} FloodIsBroadcast(rs: seq<Record>)
    ensures Broadcasts(AllBroadcast(rs)) == rs
  {
    if rs != [] { FloodIsBroadcast(rs[..|rs| - 1]); }
  }
}
