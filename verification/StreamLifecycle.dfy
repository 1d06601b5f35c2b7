/** The manager of live streams: joining, leaving, broadcasting, and the end of
    a stream (internal/activity/manager.go). Streams and channels are named by
    the order of their creation. */
module StreamLifecycle {
  import opened Fanout

  const RING_SIZE: nat := 500

  /** history is every record ever broadcast; the source keeps only the ring.
      closeTimer says that a linger timer was started and has since neither been
      stopped nor run. */
  datatype Stream = Stream(
    key: string, subscribers: map<nat, nat>, nextSubID: nat, ring: seq<Record>,
    closed: bool, closeTimer: bool, cancelled: bool, history: seq<Record>)

  /** A channel and what its unsubscribe closure captured. closes counts the
      calls of close; start is how much of the history preceded the replay. */
  datatype Channel = Channel(
    viewer: Viewer, isOpen: bool, closes: nat, key: string, subID: nat, done: bool, stream: nat, start: nat)

  datatype Hub = Hub(streams: map<string, nat>, live: seq<Stream>, channels: seq<Channel>)

  function Last(rs: seq<Record>): seq<Record> {
    if |rs| <= RING_SIZE then rs else rs[|rs| - RING_SIZE..]
  }

  // ----------------------------------------------------------------- invariants

  /** Every key has at most one stream that is not closed: the mapped one. */
  ghost predicate Mapped(h: Hub) {
    && (forall k :: k in h.streams ==> MapsToLive(h, k))
    && (forall i :: 0 <= i < |h.live| ==> !h.live[i].closed ==> IsMapped(h, i))
  }

  predicate MapsToLive(h: Hub, k: string)
    requires k in h.streams
  {
    h.streams[k] < |h.live| && h.live[h.streams[k]].key == k && !h.live[h.streams[k]].closed
  }

  predicate IsMapped(h: Hub, i: nat)
    requires i < |h.live|
  {
    h.live[i].key in h.streams && h.streams[h.live[i].key] == i
  }

  /** A stream's subscribers have open channels of their own. */
  ghost predicate Attached(h: Hub) {
    forall i :: 0 <= i < |h.live| ==> StreamAttached(h, i)
  }

  ghost predicate StreamAttached(h: Hub, i: nat)
    requires i < |h.live|
  {
    && (h.live[i].closed ==> h.live[i].subscribers == map[])
    && forall id :: id in h.live[i].subscribers ==> Owns(h.channels, i, id, h.live[i].subscribers[id])
  }

  predicate Owns(channels: seq<Channel>, i: nat, id: nat, c: nat) {
    c < |channels| && channels[c].isOpen && channels[c].stream == i && channels[c].subID == id
  }

  /** An open channel is subscribed; a closed one was closed exactly once. */
  ghost predicate ChannelsRight(h: Hub) {
    forall c :: 0 <= c < |h.channels| ==> ChannelRight(h.live, h.channels[c], c)
  }

  predicate ChannelRight(live: seq<Stream>, ch: Channel, c: nat) {
    && ch.stream < |live| && ch.key == live[ch.stream].key && 1 <= ch.subID <= live[ch.stream].nextSubID
    && ch.closes == (if ch.isOpen then 0 else 1)
    && (ch.isOpen ==> ch.subID in live[ch.stream].subscribers && live[ch.stream].subscribers[ch.subID] == c)
  }

  ghost predicate IDsDiffer(channels: seq<Channel>) {
    forall c, d :: 0 <= c < d < |channels| && channels[c].stream == channels[d].stream ==>
      channels[c].subID != channels[d].subID
  }

  /** The ring is the last RING_SIZE records of history. */
  ghost predicate RingsRight(live: seq<Stream>) {
    forall i :: 0 <= i < |live| ==> live[i].ring == Last(live[i].history)
  }

  /** Every open channel encodes its stream's history since the replay. */
  ghost predicate ViewersRight(h: Hub) {
    forall c :: 0 <= c < |h.channels| ==> ViewerRight(h.live, h.channels[c])
  }

  ghost predicate ViewerRight(live: seq<Stream>, ch: Channel) {
    ch.isOpen ==>
      && ch.stream < |live| && ch.start <= |live[ch.stream].history|
      && Exact(ch.viewer, live[ch.stream].history[ch.start..])
  }

  ghost predicate Safe(h: Hub) {
    Mapped(h) && Attached(h) && ChannelsRight(h) && IDsDiffer(h.channels) && RingsRight(h.live) && ViewersRight(h)
  }

  const EMPTY := Hub(map[], [], [])

  lemma EmptySafe()
    ensures Safe(EMPTY)
  {
  }

  // ------------------------------------------------------------------ subscribing

  function NewStream(key: string): Stream {
    Stream(key, map[], 0, [], false, false, false, [])
  }

  /** Subscribe's lookup: the mapped stream, or a new one. */
  function Opened(h: Hub, key: string): Hub {
    if key in h.streams && h.streams[key] < |h.live| && !h.live[h.streams[key]].closed then h
    else h.(streams := h.streams[key := |h.live|], live := h.live + [NewStream(key)])
  }

  function NewChannel(stream: Stream, id: nat): Channel {
    Channel(Joined(Capacity(stream.ring), stream.ring), true, 0, stream.key, stream.nextSubID + 1, false, id,
            if |stream.ring| <= |stream.history| then |stream.history| - |stream.ring| else 0)
  }

  function Joining(h: Hub, id: nat): Hub
    requires id < |h.live|
  {
    var stream := h.live[id];
    h.(live := h.live[id := stream.(closeTimer := false, nextSubID := stream.nextSubID + 1,
                                    subscribers := stream.subscribers[stream.nextSubID + 1 := |h.channels|])],
       channels := h.channels + [NewChannel(stream, id)])
  }

  function Subscribed(h: Hub, key: string): Hub {
    Joining(Opened(h, key), Opened(h, key).streams[key])
  }

  lemma OpenedMapped(h: Hub, key: string)
    requires Mapped(h)
    ensures Mapped(Opened(h, key)) && key in Opened(h, key).streams && MapsToLive(Opened(h, key), key)
  {
    var h' := Opened(h, key);
    forall i | 0 <= i < |h'.live| && !h'.live[i].closed ensures IsMapped(h', i) {
      if i < |h.live| { assert IsMapped(h, i); }
    }
    forall k | k in h'.streams ensures MapsToLive(h', k) {
      if k in h.streams { assert MapsToLive(h, k); }
    }
  }

  lemma OpenedSafe(h: Hub, key: string)
    requires Safe(h)
    ensures Safe(Opened(h, key)) && key in Opened(h, key).streams && MapsToLive(Opened(h, key), key)
  {
    hide Exact, Last, Mapped, MapsToLive;
    OpenedMapped(h, key);
    var h' := Opened(h, key);
    assert Last([]) == [] by { EmptyLast(); }
    forall i | 0 <= i < |h'.live| ensures StreamAttached(h', i) {
      if i < |h.live| { assert StreamAttached(h, i); }
    }
    forall c | 0 <= c < |h'.channels|
      ensures ChannelRight(h'.live, h'.channels[c], c) && ViewerRight(h'.live, h'.channels[c])
    {
      assert ChannelRight(h.live, h.channels[c], c) && ViewerRight(h.live, h.channels[c]);
    }
  }

  lemma EmptyLast()
    ensures Last([]) == []
  {
  }

  lemma JoiningSafe(h: Hub, id: nat)
    requires Safe(h) && id < |h.live| && !h.live[id].closed
    ensures Safe(Joining(h, id))
  {
    hide Exact, Joined;
    var h' := Joining(h, id);
    var stream := h.live[id];
    forall i | 0 <= i < |h'.live| && !h'.live[i].closed ensures IsMapped(h', i) {
      assert IsMapped(h, i);
    }
    forall i | 0 <= i < |h'.live| ensures StreamAttached(h', i) {
      assert StreamAttached(h, i);
    }
    forall c | 0 <= c < |h'.channels| ensures ChannelRight(h'.live, h'.channels[c], c) {
      if c < |h.channels| { assert ChannelRight(h.live, h.channels[c], c); }
    }
    forall c | 0 <= c < |h'.channels| ensures ViewerRight(h'.live, h'.channels[c]) {
      if c < |h.channels| {
        assert ViewerRight(h.live, h.channels[c]);
      } else {
        JoinedExact(Capacity(stream.ring), stream.ring);
        assert stream.history[0..] == stream.history;
      }
    }
    forall c | 0 <= c < |h.channels| && h.channels[c].stream == id ensures h.channels[c].subID != stream.nextSubID + 1 {
      assert ChannelRight(h.live, h.channels[c], c);
    }
  }

  // ---------------------------------------------------------------- unsubscribing

  function Closed(ch: Channel): Channel {
    ch.(isOpen := false, closes := ch.closes + 1)
  }

  /** The channel an unsubscribe closure would close, if any: it looks its key
      and number up again. */
  function Victim(h: Hub, c: nat): (victims: set<nat>)
    requires c < |h.channels|
  {
    var ch := h.channels[c];
    if ch.key in h.streams && h.streams[ch.key] < |h.live| && ch.subID in h.live[h.streams[ch.key]].subscribers
    then {h.live[h.streams[ch.key]].subscribers[ch.subID]} else {}
  }

  function MarkedDone(h: Hub, c: nat): Hub
    requires c < |h.channels|
  {
    h.(channels := h.channels[c := h.channels[c].(done := true)])
  }

  function Removed(h: Hub, id: nat, subID: nat): Hub
    requires id < |h.live| && subID in h.live[id].subscribers
  {
    var v := h.live[id].subscribers[subID];
    h.(live := h.live[id := h.live[id].(subscribers := h.live[id].subscribers - {subID})],
       channels := if v < |h.channels| then h.channels[v := Closed(h.channels[v])] else h.channels)
  }

  /** The linger timer of a mapped stream that has no subscriber. */
  function Lingering(h: Hub, key: string): Hub {
    if key in h.streams && h.streams[key] < |h.live|
       && h.live[h.streams[key]].subscribers == map[] && !h.live[h.streams[key]].closed
    then h.(live := h.live[h.streams[key] := h.live[h.streams[key]].(closeTimer := true)])
    else h
  }

  function Unsubscribed(h: Hub, c: nat): Hub
    requires c < |h.channels|
  {
    var ch := h.channels[c];
    if ch.done then h
    else if Victim(h, c) == {} then Lingering(MarkedDone(h, c), ch.key)
    else Lingering(Removed(MarkedDone(h, c), h.streams[ch.key], ch.subID), ch.key)
  }

  lemma MarkedDoneSafe(h: Hub, c: nat)
    requires Safe(h) && c < |h.channels|
    ensures Safe(MarkedDone(h, c))
  {
    hide Exact;
    var h' := MarkedDone(h, c);
    forall i | 0 <= i < |h'.live| && !h'.live[i].closed ensures IsMapped(h', i) {
      assert IsMapped(h, i);
    }
    forall i | 0 <= i < |h'.live| ensures StreamAttached(h', i) {
      assert StreamAttached(h, i);
    }
    forall d | 0 <= d < |h'.channels|
      ensures ChannelRight(h'.live, h'.channels[d], d) && ViewerRight(h'.live, h'.channels[d])
    {
      assert ChannelRight(h.live, h.channels[d], d) && ViewerRight(h.live, h.channels[d]);
    }
  }

  lemma RemovedAttached(h: Hub, id: nat, subID: nat, i: nat)
    requires Attached(h) && id < |h.live| && subID in h.live[id].subscribers && i < |h.live|
    ensures StreamAttached(h, id) && StreamAttached(Removed(h, id, subID), i)
  {
    assert StreamAttached(h, id) && StreamAttached(h, i);
    assert Owns(h.channels, id, subID, h.live[id].subscribers[subID]);
    var h' := Removed(h, id, subID);
    forall s | s in h'.live[i].subscribers ensures Owns(h'.channels, i, s, h'.live[i].subscribers[s]) {
      assert Owns(h.channels, i, s, h.live[i].subscribers[s]);
    }
  }

  lemma RemovedSafe(h: Hub, id: nat, subID: nat)
    requires Safe(h) && id < |h.live| && subID in h.live[id].subscribers
    ensures StreamAttached(h, id) && Safe(Removed(h, id, subID))
  {
    hide Exact, Last;
    RemovedAttached(h, id, subID, id);
    var h' := Removed(h, id, subID);
    forall i | 0 <= i < |h'.live| && !h'.live[i].closed ensures IsMapped(h', i) {
      assert IsMapped(h, i);
    }
    forall i | 0 <= i < |h'.live| ensures StreamAttached(h', i) {
      RemovedAttached(h, id, subID, i);
    }
    forall d | 0 <= d < |h'.channels|
      ensures ChannelRight(h'.live, h'.channels[d], d) && ViewerRight(h'.live, h'.channels[d])
    {
      RemovedChannels(h, id, subID, d);
    }
  }

  lemma RemovedChannels(h: Hub, id: nat, subID: nat, d: nat)
    requires Safe(h) && id < |h.live| && subID in h.live[id].subscribers && d < |h.channels|
    requires StreamAttached(h, id)
    ensures var h' := Removed(h, id, subID);
      ChannelRight(h'.live, h'.channels[d], d) && ViewerRight(h'.live, h'.channels[d])
  {
    hide Exact, Last;
    assert ChannelRight(h.live, h.channels[d], d) && ViewerRight(h.live, h.channels[d]);
    assert Owns(h.channels, id, subID, h.live[id].subscribers[subID]);
  }

  lemma LingeringSafe(h: Hub, key: string)
    requires Safe(h)
    ensures Safe(Lingering(h, key))
  {
    hide Mapped, Attached, ChannelsRight, IDsDiffer, Exact, Last;
    var h' := Lingering(h, key);
    ShapeKept(h, h');
    forall d | 0 <= d < |h'.channels| ensures ViewerRight(h'.live, h'.channels[d]) {
      assert ViewerRight(h.live, h.channels[d]);
    }
  }

  lemma UnsubscribedSafe(h: Hub, c: nat)
    requires Safe(h) && c < |h.channels|
    ensures Safe(Unsubscribed(h, c))
  {
    hide Safe, Removed, Lingering;
    var ch := h.channels[c];
    if !ch.done {
      var once := MarkedDone(h, c);
      MarkedDoneSafe(h, c);
      LingeringSafe(once, ch.key);
      if Victim(h, c) != {} {
        var id := h.streams[ch.key];
        RemovedSafe(once, id, ch.subID);
        LingeringSafe(Removed(once, id, ch.subID), ch.key);
      }
    }
  }

  // ------------------------------------------------------------------ broadcasting

  /** The channels a stream sends to. */
  function Audience(stream: Stream): set<nat> {
    set id | id in stream.subscribers :: stream.subscribers[id]
  }

  function DeliverTo(channels: seq<Channel>, to: set<nat>, r: Record): (result: seq<Channel>)
    ensures |result| == |channels|
    ensures forall c :: 0 <= c < |channels| ==>
      result[c] == if c in to then channels[c].(viewer := Delivered(channels[c].viewer, r)) else channels[c]
  {
    seq(|channels|, c requires 0 <= c < |channels| =>
      if c in to then channels[c].(viewer := Delivered(channels[c].viewer, r)) else channels[c])
  }

  function Appended(stream: Stream, r: Record): Stream {
    stream.(ring := Last(stream.ring + [r]), history := stream.history + [r])
  }

  function Broadcasted(h: Hub, id: nat, r: Record): Hub
    requires id < |h.live|
  {
    if h.live[id].closed then h
    else h.(live := h.live[id := Appended(h.live[id], r)], channels := DeliverTo(h.channels, Audience(h.live[id]), r))
  }

  lemma LastGrows(history: seq<Record>, r: Record)
    ensures Last(Last(history) + [r]) == Last(history + [r])
  {
  }

  /** In a safe state the audience is every open channel of the stream. */
  lemma AudienceIsOpen(h: Hub, id: nat, c: nat)
    requires Attached(h) && ChannelsRight(h) && id < |h.live| && c < |h.channels|
    ensures c in Audience(h.live[id]) <==> h.channels[c].isOpen && h.channels[c].stream == id
  {
    assert StreamAttached(h, id) && ChannelRight(h.live, h.channels[c], c);
  }

  /** Only viewers, rings, histories, timers and cancellations differ. */
  ghost predicate SameShape(h: Hub, h': Hub) {
    && h'.streams == h.streams && |h'.live| == |h.live| && |h'.channels| == |h.channels|
    && (forall i :: 0 <= i < |h.live| ==>
      h'.live[i] == h.live[i].(ring := h'.live[i].ring, history := h'.live[i].history,
                               closeTimer := h'.live[i].closeTimer, cancelled := h'.live[i].cancelled))
    && (forall c :: 0 <= c < |h.channels| ==> h'.channels[c] == h.channels[c].(viewer := h'.channels[c].viewer))
  }

  lemma ShapeKept(h: Hub, h': Hub)
    requires Mapped(h) && Attached(h) && ChannelsRight(h) && IDsDiffer(h.channels) && SameShape(h, h')
    ensures Mapped(h') && Attached(h') && ChannelsRight(h') && IDsDiffer(h'.channels)
  {
    forall i | 0 <= i < |h'.live| && !h'.live[i].closed ensures IsMapped(h', i) {
      assert IsMapped(h, i);
    }
    forall k | k in h'.streams ensures MapsToLive(h', k) {
      assert MapsToLive(h, k);
    }
    forall i | 0 <= i < |h'.live| ensures StreamAttached(h', i) {
      assert StreamAttached(h, i);
    }
    forall d | 0 <= d < |h'.channels| ensures ChannelRight(h'.live, h'.channels[d], d) {
      assert ChannelRight(h.live, h.channels[d], d);
    }
  }

  lemma BroadcastedViewer(h: Hub, id: nat, r: Record, d: nat)
    requires Attached(h) && ChannelsRight(h) && ViewersRight(h) && id < |h.live| && d < |h.channels|
    ensures ViewerRight(Broadcasted(h, id, r).live, Broadcasted(h, id, r).channels[d])
  {
    hide Exact, Delivered, Audience, Last;
    assert ViewerRight(h.live, h.channels[d]);
    AudienceIsOpen(h, id, d);
    var ch := h.channels[d];
    if ch.isOpen && ch.stream == id && !h.live[id].closed {
      DeliveredExact(ch.viewer, r, h.live[id].history[ch.start..]);
      assert (h.live[id].history + [r])[ch.start..] == h.live[id].history[ch.start..] + [r];
    }
  }

  lemma BroadcastedSafe(h: Hub, id: nat, r: Record)
    requires Safe(h) && id < |h.live|
    ensures Safe(Broadcasted(h, id, r))
  {
    hide Mapped, Attached, ChannelsRight, IDsDiffer, ViewerRight, Delivered, Audience, Last;
    LastGrows(h.live[id].history, r);
    ShapeKept(h, Broadcasted(h, id, r));
    forall d | 0 <= d < |h.channels|
      ensures ViewerRight(Broadcasted(h, id, r).live, Broadcasted(h, id, r).channels[d])
    {
      BroadcastedViewer(h, id, r, d);
    }
  }

  // --------------------------------------------------------------- end of a stream

  function CloseAll(channels: seq<Channel>, gone: set<nat>): (result: seq<Channel>)
    ensures |result| == |channels|
    ensures forall c :: 0 <= c < |channels| ==> result[c] == if c in gone then Closed(channels[c]) else channels[c]
  {
    seq(|channels|, c requires 0 <= c < |channels| => if c in gone then Closed(channels[c]) else channels[c])
  }

  /** run's last lines. */
  function Ended(h: Hub, id: nat): Hub
    requires id < |h.live|
  {
    h.(streams := h.streams - {h.live[id].key}, live := h.live[id := h.live[id].(closed := true, subscribers := map[])],
       channels := CloseAll(h.channels, Audience(h.live[id])))
  }

  lemma EndedMapped(h: Hub, id: nat)
    requires Mapped(h) && id < |h.live| && !h.live[id].closed
    ensures Mapped(Ended(h, id))
  {
    hide Audience;
    var h' := Ended(h, id);
    assert IsMapped(h, id);
    forall i | 0 <= i < |h'.live| && !h'.live[i].closed ensures IsMapped(h', i) {
      assert IsMapped(h, i);
    }
    forall k | k in h'.streams ensures MapsToLive(h', k) {
      assert MapsToLive(h, k);
    }
  }

  lemma EndedSafe(h: Hub, id: nat)
    requires Safe(h) && id < |h.live| && !h.live[id].closed
    ensures Safe(Ended(h, id))
  {
    hide Exact, Audience, Last, Mapped;
    EndedMapped(h, id);
    var h' := Ended(h, id);
    forall i | 0 <= i < |h'.live| ensures StreamAttached(h', i) {
      EndedAttached(h, id, i);
    }
    forall d | 0 <= d < |h'.channels|
      ensures ChannelRight(h'.live, h'.channels[d], d) && ViewerRight(h'.live, h'.channels[d])
    {
      assert ChannelRight(h.live, h.channels[d], d) && ViewerRight(h.live, h.channels[d]);
      AudienceIsOpen(h, id, d);
    }
  }

  lemma EndedAttached(h: Hub, id: nat, i: nat)
    requires Attached(h) && ChannelsRight(h) && id < |h.live| && i < |h.live|
    ensures StreamAttached(Ended(h, id), i)
  {
    hide Audience;
    assert StreamAttached(h, i);
    if i != id {
      forall s | s in h.live[i].subscribers ensures Owns(Ended(h, id).channels, i, s, h.live[i].subscribers[s]) {
        assert Owns(h.channels, i, s, h.live[i].subscribers[s]);
        AudienceIsOpen(h, id, h.live[i].subscribers[s]);
      }
    }
  }

  // ------------------------------------------------------------- timers and readers

  /** Mapped, not closed, and without subscribers. */
  predicate Unused(h: Hub, id: nat) {
    id < |h.live| && IsMapped(h, id) && !h.live[id].closed && h.live[id].subscribers == map[]
  }

  /** stopIfUnused */
  function TimerFired(h: Hub, id: nat): Hub
    requires id < |h.live|
  {
    h.(live := h.live[id := h.live[id].(closeTimer := false, cancelled := h.live[id].cancelled || Unused(h, id))])
  }

  lemma TimerFiredSafe(h: Hub, id: nat)
    requires Safe(h) && id < |h.live|
    ensures Safe(TimerFired(h, id))
  {
    hide Mapped, Attached, ChannelsRight, IDsDiffer, Exact, Last;
    var h' := TimerFired(h, id);
    ShapeKept(h, h');
    forall d | 0 <= d < |h'.channels| ensures ViewerRight(h'.live, h'.channels[d]) {
      assert ViewerRight(h.live, h.channels[d]);
    }
  }

  function Read(h: Hub, c: nat): Hub
    requires c < |h.channels|
  {
    h.(channels := h.channels[c := h.channels[c].(viewer := Received(h.channels[c].viewer))])
  }

  lemma ReadSafe(h: Hub, c: nat)
    requires Safe(h) && c < |h.channels|
    ensures Safe(Read(h, c))
  {
    hide Mapped, Attached, ChannelsRight, IDsDiffer, Exact, Last, Received;
    var h' := Read(h, c);
    ShapeKept(h, h');
    forall d | 0 <= d < |h'.channels| ensures ViewerRight(h'.live, h'.channels[d]) {
      assert ViewerRight(h.live, h.channels[d]);
      var ch := h.channels[d];
      if ch.isOpen { ReceivedExact(ch.viewer, h.live[ch.stream].history[ch.start..]); }
    }
  }

  // ------------------------------------------------------------------ whole runs

  /** A lock region of the manager, or a receive by a reader. */
  datatype Action =
    Join(key: string) | Leave(channel: nat) | Publish(stream: nat, record: Record)
    | Finish(stream: nat) | Timer(stream: nat) | Take(channel: nat)

  /** The run of a stream finishes once. */
  predicate Enabled(h: Hub, a: Action) {
    match a
    case Join(_) => true
    case Leave(c) => c < |h.channels|
    case Publish(i, _) => i < |h.live|
    case Finish(i) => i < |h.live| && !h.live[i].closed
    case Timer(i) => i < |h.live|
    case Take(c) => c < |h.channels|
  }

  function Perform(h: Hub, a: Action): Hub
    requires Enabled(h, a)
  {
    match a
    case Join(key) => Subscribed(h, key)
    case Leave(c) => Unsubscribed(h, c)
    case Publish(i, r) => Broadcasted(h, i, r)
    case Finish(i) => Ended(h, i)
    case Timer(i) => TimerFired(h, i)
    case Take(c) => Read(h, c)
  }

  lemma PerformSafe(h: Hub, a: Action)
    requires Safe(h) && Enabled(h, a)
    ensures Safe(Perform(h, a))
  {
    hide Safe, Opened, Joining, Unsubscribed, Broadcasted, Ended, TimerFired, Read, MapsToLive;
    match a
    case Join(key) =>
      OpenedSafe(h, key);
      JoinedLive(Opened(h, key), key);
      JoiningSafe(Opened(h, key), Opened(h, key).streams[key]);
    case Leave(c) => UnsubscribedSafe(h, c);
    case Publish(i, r) => BroadcastedSafe(h, i, r);
    case Finish(i) => EndedSafe(h, i);
    case Timer(i) => TimerFiredSafe(h, i);
    case Take(c) => ReadSafe(h, c);
  }

  lemma JoinedLive(h: Hub, key: string)
    requires key in h.streams && MapsToLive(h, key)
    ensures h.streams[key] < |h.live| && !h.live[h.streams[key]].closed
  {
  }

  /** The state after a run, in which actions that are not enabled do nothing. */
  function Reached(actions: seq<Action>): Hub {
    if actions == [] then EMPTY
    else
      var before, a := Reached(actions[..|actions| - 1]), actions[|actions| - 1];
      if Enabled(before, a) then Perform(before, a) else before
  }

  /** Every reachable state is safe. */
  lemma {:induction false} AlwaysSafe(actions: seq<Action>)
    ensures Safe(Reached(actions))
  {
    hide Safe, Perform;
    if actions == [] {
      EmptySafe();
    } else {
      var before, a := Reached(actions[..|actions| - 1]), actions[|actions| - 1];
      AlwaysSafe(actions[..|actions| - 1]);
      if Enabled(before, a) { PerformSafe(before, a); }
    }
  }

  /** In every reachable state a key has at most one stream that is not closed,
      and it is the one a new subscriber gets. */
  lemma OneOpenStreamPerKey(actions: seq<Action>, i: nat, j: nat)
    requires var h := Reached(actions); i < |h.live| && j < |h.live| && h.live[i].key == h.live[j].key
    requires !Reached(actions).live[i].closed && !Reached(actions).live[j].closed
    ensures i == j && Opened(Reached(actions), Reached(actions).live[i].key) == Reached(actions)
  {
    var h := Reached(actions);
    AlwaysSafe(actions);
    assert IsMapped(h, i) && IsMapped(h, j);
  }

  /** No run closes a channel twice or sends on a closed one. */
  lemma NoClosedChannelUsed(actions: seq<Action>, c: nat, i: nat)
    requires c < |Reached(actions).channels| && i < |Reached(actions).live|
    ensures Reached(actions).channels[c].closes <= 1
    ensures c in Audience(Reached(actions).live[i]) ==>
      Reached(actions).channels[c].isOpen && Reached(actions).channels[c].closes == 0
  {
    hide Reached;
    var h := Reached(actions);
    AlwaysSafe(actions);
    assert ChannelRight(h.live, h.channels[c], c);
    AudienceIsOpen(h, i, c);
  }

  /** In every run an attached viewer can rebuild its stream's history from where
      its replay began. */
  lemma ViewersRebuildHistory(actions: seq<Action>, c: nat)
    requires c < |Reached(actions).channels| && Reached(actions).channels[c].isOpen
    ensures var h := Reached(actions);
      var ch := h.channels[c];
      ch.stream < |h.live| && ch.start <= |h.live[ch.stream].history|
        && Exact(ch.viewer, h.live[ch.stream].history[ch.start..])
  {
    hide Reached, Exact;
    AlwaysSafe(actions);
    assert ViewerRight(Reached(actions).live, Reached(actions).channels[c]);
  }

  // ------------------------------------------- what was broadcast, kept and replayed

  /** The stream is there and its run has not finished. */
  predicate Live(h: Hub, id: nat) {
    id < |h.live| && !h.live[id].closed
  }

  /** The records published to a stream while it was live, in order. */
  function PublishedTo(actions: seq<Action>, id: nat): seq<Record> {
    if actions == [] then []
    else
      var front, a := actions[..|actions| - 1], actions[|actions| - 1];
      PublishedTo(front, id) + if a.Publish? && a.stream == id && Live(Reached(front), id) then [a.record] else []
  }

  lemma PerformHistory(h: Hub, a: Action, id: nat)
    requires Enabled(h, a) && id < |Perform(h, a).live|
    ensures |h.live| <= |Perform(h, a).live|
    ensures Perform(h, a).live[id].history ==
      (if id < |h.live| then h.live[id].history else [])
        + if a.Publish? && a.stream == id && Live(h, id) then [a.record] else []
    ensures Perform(h, a).live[id].closed <==> id < |h.live| && (h.live[id].closed || a == Finish(id))
  {
    hide Audience, DeliverTo, CloseAll, Last, Joined, Received;
  }

  lemma PerformGrows(h: Hub, a: Action)
    requires Enabled(h, a)
    ensures |h.live| <= |Perform(h, a).live|
  {
    hide Audience, DeliverTo, CloseAll, Last, Joined, Received;
  }

  /** In every run a stream's history is what was published to it while it was
      live, and nothing else. */
  lemma {:induction false} HistoryIsPublished(actions: seq<Action>, id: nat)
    ensures PublishedTo(actions, id) == if id < |Reached(actions).live| then Reached(actions).live[id].history else []
  {
    hide Perform, Live;
    if actions != [] {
      var front, a := actions[..|actions| - 1], actions[|actions| - 1];
      HistoryIsPublished(front, id);
      LiveInRange(Reached(front), id);
      if Enabled(Reached(front), a) {
        PerformGrows(Reached(front), a);
        if id < |Perform(Reached(front), a).live| { PerformHistory(Reached(front), a, id); }
      }
    }
  }

  lemma LiveInRange(h: Hub, id: nat)
    ensures Live(h, id) ==> id < |h.live| && forall r :: Enabled(h, Publish(id, r))
  {
  }

  /** How many records a ring can hold of a history. */
  function Kept(history: seq<Record>): nat {
    if |history| < 500 then |history| else 500
  }

  /** In every run a ring holds the newest 500 records of the stream. */
  lemma RingIsNewest(actions: seq<Action>, id: nat)
    requires id < |Reached(actions).live|
    ensures var stream := Reached(actions).live[id];
      var first := |stream.history| - Kept(stream.history);
      |stream.ring| == Kept(stream.history)
      && forall i :: 0 <= i < |stream.ring| ==> stream.ring[i] == stream.history[first + i]
  {
    hide Reached;
    AlwaysSafe(actions);
    assert RingsRight(Reached(actions).live);
  }

  lemma {:induction false} AsItemsAt(rs: seq<Record>)
    ensures |AsItems(rs)| == |rs| && forall i :: 0 <= i < |rs| ==> AsItems(rs)[i] == Data(rs[i])
  {
    if rs != [] { AsItemsAt(rs[..|rs| - 1]); }
  }

  /** In every run, a viewer that joins finds the newest records of its stream in
      its channel, up to 500 of them, in order, and has nothing dropped. */
  lemma JoinReplays(actions: seq<Action>, key: string)
    ensures var h, h' := Reached(actions), Perform(Reached(actions), Join(key));
      && |h'.channels| == |h.channels| + 1
      && var ch := h'.channels[|h.channels|];
      && ch.stream < |h'.live| && h'.live[ch.stream].key == key && ch.isOpen && ch.viewer.dropped == 0
      && var history := PublishedTo(actions, ch.stream);
      && |ch.viewer.queue| == Kept(history) && ch.start == |history| - Kept(history)
      && ch.viewer.capacity >= 256 && ch.viewer.capacity >= Kept(history) + 64
      && forall i :: 0 <= i < Kept(history) ==> ch.viewer.queue[i] == Data(history[ch.start + i])
  {
    hide Reached, Exact, PublishedTo, Last;
    var h := Reached(actions);
    var h' := Perform(h, Join(key));
    AlwaysSafe(actions);
    JoinedStream(h, key);
    var id := h'.channels[|h.channels|].stream;
    HistoryIsPublished(actions, id);
    if key in h.streams {
      assert MapsToLive(h, key);
      RingIsNewest(actions, id);
      AsItemsAt(h.live[id].ring);
    } else {
      AsItemsAt([]);
    }
  }

  // ------------------------------------------------- what an unsubscribe closes

  predicate Closes(h: Hub, c: nat, d: nat)
    requires c < |h.channels| && d < |h.channels|
  {
    h.channels[d].isOpen && !Unsubscribed(h, c).channels[d].isOpen
  }

  /** While its own stream is still mapped, an unsubscribe leaves its own channel
      closed and every other channel as it was. */
  lemma LeaveClosesOwn(h: Hub, c: nat, d: nat)
    requires Safe(h) && c < |h.channels| && d < |h.channels| && !h.channels[c].done
    requires h.channels[c].key in h.streams && h.streams[h.channels[c].key] == h.channels[c].stream
    ensures !Unsubscribed(h, c).channels[c].isOpen
    ensures d != c ==> Unsubscribed(h, c).channels[d] == h.channels[d]
  {
    hide Exact;
    var ch := h.channels[c];
    assert ChannelRight(h.live, ch, c);
    assert StreamAttached(h, ch.stream);
    if ch.subID in h.live[ch.stream].subscribers {
      var v := h.live[ch.stream].subscribers[ch.subID];
      assert Owns(h.channels, ch.stream, ch.subID, v);
    }
  }

  lemma PerformKeepsDone(h: Hub, a: Action, c: nat)
    requires Enabled(h, a) && c < |h.channels| && h.channels[c].done
    ensures c < |Perform(h, a).channels| && Perform(h, a).channels[c].done
  {
    hide Audience, Last, Joined, Received, Delivered;
  }

  lemma {:induction false} DoneStays(actions: seq<Action>, later: seq<Action>, c: nat)
    requires c < |Reached(actions).channels| && Reached(actions).channels[c].done
    ensures c < |Reached(actions + later).channels| && Reached(actions + later).channels[c].done
    decreases |later|
  {
    hide Reached, Perform;
    if later == [] {
      assert actions + later == actions;
    } else {
      var front, a := later[..|later| - 1], later[|later| - 1];
      DoneStays(actions, front, c);
      assert actions + later == actions + front + [a];
      ReachedLast(actions + front, a);
      if Enabled(Reached(actions + front), a) { PerformKeepsDone(Reached(actions + front), a, c); }
    }
  }

  /** In every run an unsubscribe closure acts once: called again, at any later
      time, it changes nothing. */
  lemma LeaveActsOnce(actions: seq<Action>, c: nat, later: seq<Action>)
    requires c < |Reached(actions).channels|
    ensures var h := Reached(actions + [Leave(c)] + later);
      Enabled(h, Leave(c)) && Perform(h, Leave(c)) == h
  {
    hide Reached;
    ReachedLast(actions, Leave(c));
    LeaveMarks(Reached(actions), c);
    DoneStays(actions + [Leave(c)], later, c);
  }

  lemma LeaveMarks(h: Hub, c: nat)
    requires c < |h.channels|
    ensures c < |Perform(h, Leave(c)).channels| && Perform(h, Leave(c)).channels[c].done
  {
  }

  /** Once its stream is gone, an unsubscribe closes another viewer's channel
      exactly when a newer stream under the key has a subscriber of its number. */
  lemma LeaveClosesAnother(h: Hub, c: nat)
    requires Safe(h) && c < |h.channels| && !h.channels[c].done
    ensures (exists d :: 0 <= d < |h.channels| && d != c && Closes(h, c, d)) <==>
      var ch := h.channels[c];
      ch.key in h.streams && h.streams[ch.key] != ch.stream && ch.subID in h.live[h.streams[ch.key]].subscribers
  {
    hide Exact;
    var ch := h.channels[c];
    if ch.key in h.streams {
      var id := h.streams[ch.key];
      assert MapsToLive(h, ch.key);
      assert StreamAttached(h, id);
      if id == ch.stream {
        forall d | 0 <= d < |h.channels| && d != c ensures !Closes(h, c, d) {
          LeaveClosesOwn(h, c, d);
        }
      } else if ch.subID in h.live[id].subscribers {
        var v := h.live[id].subscribers[ch.subID];
        assert Owns(h.channels, id, ch.subID, v);
        assert v != c && Closes(h, c, v);
      }
    }
  }

  lemma ReachedLast(actions: seq<Action>, a: Action)
    ensures var before := Reached(actions);
      Reached(actions + [a]) == if Enabled(before, a) then Perform(before, a) else before
  {
    assert (actions + [a])[..|actions|] == actions;
  }

  function Fresh(key: string, id: nat, start: nat): Channel {
    Channel(Viewer(256, [], 0, []), true, 0, key, 1, false, id, start)
  }

  function OneViewer(key: string, channel: nat): Stream {
    Stream(key, map[1 := channel], 1, [], false, false, false, [])
  }

  lemma JoinFresh(h: Hub, key: string)
    requires key !in h.streams
    ensures Perform(h, Join(key)) ==
      h.(streams := h.streams[key := |h.live|], live := h.live + [OneViewer(key, |h.channels|)],
         channels := h.channels + [Fresh(key, |h.live|, 0)])
  {
    assert Subscribed(h, key).live == h.live + [OneViewer(key, |h.channels|)];
  }

  /** A viewer joins, the stream ends, a second viewer joins under the same key,
      and the first viewer leaves: the second one's channel is closed, because
      numbers start again with every stream. */
  lemma LeaveAfterRestartClosesAnother()
    ensures var before := Reached([Join("k"), Finish(0), Join("k")]);
      && |before.channels| == 2 && before.channels[1].isOpen
      && var after := Perform(before, Leave(0)); |after.channels| == 2 && !after.channels[1].isOpen
  {
    hide Perform;
    assert [] + [Join("k")] == [Join("k")];
    ReachedLast([], Join("k"));
    JoinFresh(EMPTY, "k");
    var h1 := Hub(map["k" := 0], [OneViewer("k", 0)], [Fresh("k", 0, 0)]);
    assert Reached([Join("k")]) == h1;
    assert [Join("k")] + [Finish(0)] == [Join("k"), Finish(0)];
    ReachedLast([Join("k")], Finish(0));
    var h2 := Reached([Join("k"), Finish(0)]);
    FinishOnly(h1);
    assert [Join("k"), Finish(0)] + [Join("k")] == [Join("k"), Finish(0), Join("k")];
    ReachedLast([Join("k"), Finish(0)], Join("k"));
    JoinFresh(h2, "k");
    StaleLeave(Reached([Join("k"), Finish(0), Join("k")]));
  }

  lemma FinishOnly(h: Hub)
    requires h == Hub(map["k" := 0], [OneViewer("k", 0)], [Fresh("k", 0, 0)])
    ensures var h' := Perform(h, Finish(0));
      "k" !in h'.streams && |h'.live| == 1 && |h'.channels| == 1
      && h'.channels[0].key == "k" && h'.channels[0].subID == 1 && !h'.channels[0].done
  {
    var audience := Audience(h.live[0]);
    assert CloseAll(h.channels, audience)[0] == if 0 in audience then Closed(h.channels[0]) else h.channels[0];
  }

  lemma StaleLeave(h: Hub)
    requires |h.channels| == 2 && |h.live| == 2 && "k" in h.streams && h.streams["k"] == 1
    requires h.channels[0].key == "k" && h.channels[0].subID == 1 && !h.channels[0].done
    requires h.live[1] == OneViewer("k", 1) && h.channels[1].isOpen
    ensures var h' := Perform(h, Leave(0)); |h'.channels| == 2 && !h'.channels[1].isOpen
  {
  }

  /** A viewer can join a stream that was cancelled when its last viewer left and
      whose run has not finished: it will be closed with the run. */
  lemma JoinCanFindCancelled()
    ensures var h := Reached([Join("k"), Leave(0), Timer(0), Join("k")]);
      |h.channels| == 2 && h.channels[1].isOpen && h.channels[1].stream == 0 && |h.live| == 1 && h.live[0].cancelled
  {
    hide Perform;
    assert [] + [Join("k")] == [Join("k")];
    ReachedLast([], Join("k"));
    JoinFresh(EMPTY, "k");
    assert [Join("k")] + [Leave(0)] == [Join("k"), Leave(0)];
    ReachedLast([Join("k")], Leave(0));
    LeaveOnly(Reached([Join("k")]));
    assert [Join("k"), Leave(0)] + [Timer(0)] == [Join("k"), Leave(0), Timer(0)];
    ReachedLast([Join("k"), Leave(0)], Timer(0));
    TimerOnly(Reached([Join("k"), Leave(0)]));
    assert [Join("k"), Leave(0), Timer(0)] + [Join("k")] == [Join("k"), Leave(0), Timer(0), Join("k")];
    ReachedLast([Join("k"), Leave(0), Timer(0)], Join("k"));
    JoinAgain(Reached([Join("k"), Leave(0), Timer(0)]));
  }

  ghost predicate Abandoned(h: Hub) {
    h.streams == map["k" := 0] && |h.live| == 1 && h.live[0].key == "k" && !h.live[0].closed
    && h.live[0].subscribers == map[] && |h.channels| == 1
  }

  lemma LeaveOnly(h: Hub)
    requires h == Hub(map["k" := 0], [OneViewer("k", 0)], [Fresh("k", 0, 0)])
    ensures Abandoned(Perform(h, Leave(0)))
  {
  }

  lemma TimerOnly(h: Hub)
    requires Abandoned(h)
    ensures Abandoned(Perform(h, Timer(0))) && Perform(h, Timer(0)).live[0].cancelled
  {
  }

  lemma JoinAgain(h: Hub)
    requires Abandoned(h) && h.live[0].cancelled
    ensures var h' := Perform(h, Join("k"));
      |h'.channels| == 2 && h'.channels[1].isOpen && h'.channels[1].stream == 0
        && |h'.live| == 1 && h'.live[0].cancelled
  {
  }

  // --------------------------------------------------- who is cancelled, and when

  /** What each action does to cancellations. */
  lemma PerformCancels(h: Hub, a: Action, id: nat)
    requires Enabled(h, a)
    ensures |h.live| <= |Perform(h, a).live|
    ensures id < |Perform(h, a).live| ==>
      (Perform(h, a).live[id].cancelled <==>
        id < |h.live| && (h.live[id].cancelled || (a == Timer(id) && Unused(h, id))))
  {
    hide Audience, DeliverTo, CloseAll, Last, Joined, Received;
  }

  /** In this step of the run a timer found the stream unused. */
  ghost predicate CancelsAt(actions: seq<Action>, i: nat, id: nat) {
    i < |actions| && actions[i] == Timer(id) && Unused(Reached(actions[..i]), id)
  }

  lemma CancelsAtLast(actions: seq<Action>, id: nat)
    requires actions != []
    ensures var front := actions[..|actions| - 1];
      (exists i :: CancelsAt(actions, i, id)) <==>
      (exists i :: CancelsAt(front, i, id)) || (actions[|actions| - 1] == Timer(id) && Unused(Reached(front), id))
  {
    hide Reached, Unused;
    var front := actions[..|actions| - 1];
    forall i: nat | i < |front| ensures CancelsAt(actions, i, id) <==> CancelsAt(front, i, id) {
      assert front[..i] == actions[..i];
    }
    assert actions[..|actions| - 1] == front;
    if actions[|actions| - 1] == Timer(id) && Unused(Reached(front), id) {
      assert CancelsAt(actions, |actions| - 1, id);
    }
    if i: nat :| CancelsAt(front, i, id) {
      assert CancelsAt(actions, i, id);
    }
  }

  /** A stream is cancelled exactly when, at some step of the run, a timer found
      it mapped, not closed and without subscribers. */
  lemma {:induction false} CancelledIff(actions: seq<Action>, id: nat)
    requires id < |Reached(actions).live|
    ensures Reached(actions).live[id].cancelled <==> exists i :: CancelsAt(actions, i, id)
  {
    hide Perform, Unused, CancelsAt;
    if actions != [] {
      var front, a := actions[..|actions| - 1], actions[|actions| - 1];
      CancelsAtLast(actions, id);
      if Enabled(Reached(front), a) { PerformCancels(Reached(front), a, id); }
      if id < |Reached(front).live| {
        CancelledIff(front, id);
      } else {
        NotYetCancelled(front, id);
      }
      UnusedInRange(Reached(front), id);
    }
  }

  lemma UnusedInRange(h: Hub, id: nat)
    ensures Unused(h, id) ==> id < |h.live| && Enabled(h, Timer(id))
  {
  }

  /** No step cancels a stream before it exists. */
  lemma {:induction false} NotYetCancelled(actions: seq<Action>, id: nat)
    requires id >= |Reached(actions).live|
    ensures !exists i :: CancelsAt(actions, i, id)
  {
    hide Perform, CancelsAt;
    if actions != [] {
      var front, a := actions[..|actions| - 1], actions[|actions| - 1];
      if Enabled(Reached(front), a) { PerformCancels(Reached(front), a, id); }
      NotYetCancelled(front, id);
      CancelsAtLast(actions, id);
    } else {
      NothingCancels(id);
    }
  }

  lemma NothingCancels(id: nat)
    ensures !exists i :: CancelsAt([], i, id)
  {
  }

  /** In every run a timer finds a stream unused exactly when its run has not
      finished and no viewer's channel is open on it: a stream that is watched is
      never cancelled by its timer. */
  lemma UnusedIff(actions: seq<Action>, id: nat)
    ensures var h := Reached(actions);
      Unused(h, id) <==>
        Live(h, id) && forall c :: 0 <= c < |h.channels| ==> !(h.channels[c].isOpen && h.channels[c].stream == id)
  {
    hide Reached;
    var h := Reached(actions);
    AlwaysSafe(actions);
    if Live(h, id) {
      assert IsMapped(h, id) && StreamAttached(h, id);
      forall c | 0 <= c < |h.channels| && h.channels[c].isOpen && h.channels[c].stream == id
        ensures h.live[id].subscribers != map[]
      {
        assert ChannelRight(h.live, h.channels[c], c);
      }
      if s :| s in h.live[id].subscribers { assert Owns(h.channels, id, s, h.live[id].subscribers[s]); }
    }
  }

  /** Joining attaches to a cancelled stream exactly when the key is mapped and a
      timer once found that stream unused. */
  lemma JoinFindsCancelledIff(actions: seq<Action>, key: string)
    ensures var h := Reached(actions);
      var h' := Perform(h, Join(key));
      && |h'.channels| == |h.channels| + 1 && h'.channels[|h.channels|].stream < |h'.live|
      && (h'.live[h'.channels[|h.channels|].stream].cancelled <==>
            key in h.streams && exists i :: CancelsAt(actions, i, h.streams[key]))
  {
    hide Reached, CancelsAt, Exact, Joined, Last;
    var h := Reached(actions);
    AlwaysSafe(actions);
    JoinedStream(h, key);
    if key in h.streams {
      assert MapsToLive(h, key);
      CancelledIff(actions, h.streams[key]);
    }
  }

  /** The stream a new viewer joins, and whether it was cancelled before. */
  lemma JoinedStream(h: Hub, key: string)
    requires Safe(h)
    ensures var h' := Perform(h, Join(key));
      && |h'.channels| == |h.channels| + 1
      && var id := h'.channels[|h.channels|].stream;
      && id == (if key in h.streams then h.streams[key] else |h.live|) && id < |h'.live|
      && (h'.live[id].cancelled <==> key in h.streams && h.streams[key] < |h.live| && h.live[h.streams[key]].cancelled)
  {
    hide Exact, Joined, Last;
    if key in h.streams { assert MapsToLive(h, key); }
  }

  /** Every stream without viewers is cancelled or has a timer that will do so. */
  ghost predicate NoneAbandoned(h: Hub) {
    forall i :: 0 <= i < |h.live| ==> Attended(h.live[i])
  }

  predicate Attended(stream: Stream) {
    !stream.closed && stream.subscribers == map[] ==> stream.cancelled || stream.closeTimer
  }

  lemma JoinAttends(h: Hub, key: string, i: nat)
    requires Safe(h) && NoneAbandoned(h) && i < |Perform(h, Join(key)).live|
    ensures Attended(Perform(h, Join(key)).live[i])
  {
    hide Last, Joined, Exact;
    var stream := Perform(h, Join(key)).live[i];
    if i < |h.live| { assert Attended(h.live[i]); }
    if i == Opened(h, key).streams[key] { assert stream.nextSubID in stream.subscribers; }
  }

  lemma LeaveAttends(h: Hub, c: nat, i: nat)
    requires Safe(h) && NoneAbandoned(h) && c < |h.channels| && i < |Perform(h, Leave(c)).live|
    ensures Attended(Perform(h, Leave(c)).live[i])
  {
    hide Last, Joined, Exact;
    assert Attended(h.live[i]);
  }

  lemma PerformAttends(h: Hub, a: Action)
    requires Safe(h) && NoneAbandoned(h) && Enabled(h, a)
    ensures NoneAbandoned(Perform(h, a))
  {
    hide Audience, DeliverTo, CloseAll, Last, Joined, Received, Exact, Lingering, Removed, Joining;
    forall i | 0 <= i < |Perform(h, a).live| ensures Attended(Perform(h, a).live[i]) {
      match a {
        case Join(key) => JoinAttends(h, key, i);
        case Leave(c) => LeaveAttends(h, c, i);
        case _ =>
          assert Attended(h.live[i]);
          if !h.live[i].closed { assert IsMapped(h, i); }
      }
    }
  }

  /** No stream is abandoned: in every reachable state a stream that is not closed
      and has no viewers is cancelled, or a timer is running that cancels it. */
  lemma {:induction false} NoStreamAbandoned(actions: seq<Action>)
    ensures NoneAbandoned(Reached(actions))
  {
    hide Safe, Perform, NoneAbandoned;
    if actions == [] {
      NothingAbandoned();
    } else {
      var before, a := Reached(actions[..|actions| - 1]), actions[|actions| - 1];
      NoStreamAbandoned(actions[..|actions| - 1]);
      AlwaysSafe(actions[..|actions| - 1]);
      if Enabled(before, a) { PerformAttends(before, a); }
    }
  }

  lemma NothingAbandoned()
    ensures NoneAbandoned(EMPTY)
  {
  }

  /** That timer does cancel it, if no viewer comes first. */
  lemma TimerCancels(actions: seq<Action>, id: nat)
    requires id < |Reached(actions).live| && !Reached(actions).live[id].closed
    requires Reached(actions).live[id].subscribers == map[]
    ensures Perform(Reached(actions), Timer(id)).live[id].cancelled
  {
    hide Reached;
    AlwaysSafe(actions);
    assert IsMapped(Reached(actions), id);
  }

  // ---------------------------------------------------------------- the manager

  class Manager {
    var streams: map<string, nat>
    var live: seq<Stream>
    var channels: seq<Channel>

    ghost function Contents(): Hub
      reads this
    {
      Hub(streams, live, channels)
    }

    constructor ()
      ensures Contents() == EMPTY
    {
      streams, live, channels := map[], [], [];
    }

    /** Subscribe's lock region. The replay is queued inside it and cannot block. */
    method Subscribe(key: string) returns (channel: nat)
      requires Safe(Contents())
      modifies this
      ensures Safe(Contents()) && Contents() == Perform(old(Contents()), Join(key)) && channel == |old(channels)|
    {
      hide Safe, Perform, Joined, Capacity;
      PerformSafe(Contents(), Join(key));
      MappedInRange(Contents());
      if key !in streams || live[streams[key]].closed {
        streams := streams[key := |live|];
        live := live + [NewStream(key)];
      }
      var id := streams[key];
      var stream := live[id].(closeTimer := false);
      var subID := stream.nextSubID + 1;
      channel := |channels|;
      var sub := new Subscriber(stream.ring);
      var viewer := Viewer(sub.capacity, sub.queue, sub.dropped, sub.taken);
      var start := if |stream.ring| <= |stream.history| then |stream.history| - |stream.ring| else 0;
      live := live[id := stream.(nextSubID := subID, subscribers := stream.subscribers[subID := channel])];
      channels := channels + [Channel(viewer, true, 0, stream.key, subID, false, id, start)];
      PerformJoin(old(Contents()), key);
    }

    /** The closure Subscribe returns. */
    method Unsubscribe(c: nat)
      requires Safe(Contents()) && c < |channels|
      modifies this
      ensures Safe(Contents()) && Contents() == Perform(old(Contents()), Leave(c))
    {
      hide Safe;
      PerformSafe(Contents(), Leave(c));
      MappedInRange(Contents());
      if channels[c].done { return; }
      var key, subID := channels[c].key, channels[c].subID;
      channels := channels[c := channels[c].(done := true)];
      if key in streams {
        var id := streams[key];
        if subID in live[id].subscribers {
          var existing := live[id].subscribers[subID];
          SubscriberInRange(old(Contents()), id, subID);
          live := live[id := live[id].(subscribers := live[id].subscribers - {subID})];
          channels := channels[existing := Closed(channels[existing])];
        }
        if |live[id].subscribers| == 0 && !live[id].closed {
          live := live[id := live[id].(closeTimer := true)];
        }
      }
    }

    /** broadcast's loop, in any order. */
    method Offer(to: set<nat>, r: Record)
      requires forall c :: c in to ==> c < |channels| && channels[c].isOpen
      modifies this`channels
      ensures channels == DeliverTo(old(channels), to, r)
    {
      hide Delivered, DeliverTo;
      var left, served := to, {};
      DeliverToNone(channels, r);
      while left != {}
        invariant to == left + served && left !! served && channels == DeliverTo(old(channels), served, r)
        decreases |left|
      {
        var c :| c in left;
        DeliverToOneMore(old(channels), served, c, r);
        // The channel is open, so a send cannot panic.
        assert channels[c].isOpen;
        channels := channels[c := channels[c].(viewer := Delivered(channels[c].viewer, r))];
        left, served := left - {c}, served + {c};
      }
      assert served == to;
    }

    method Broadcast(id: nat, r: Record)
      requires Safe(Contents()) && id < |live|
      modifies this
      ensures Safe(Contents()) && Contents() == Perform(old(Contents()), Publish(id, r))
    {
      hide Safe, DeliverTo;
      PerformSafe(Contents(), Publish(id, r));
      var stream := live[id];
      if stream.closed { return; }
      var ring := stream.ring + [r];
      if |ring| > RING_SIZE { ring := ring[|ring| - RING_SIZE..]; }
      live := live[id := stream.(ring := ring, history := stream.history + [r])];
      AudienceInRange(old(Contents()), id);
      Offer(Audience(stream), r);
    }

    /** Closing every subscriber of a stream that ends, in any order. */
    method CloseEach(gone: set<nat>)
      requires forall c :: c in gone ==> c < |channels| && channels[c].isOpen
      modifies this`channels
      ensures channels == CloseAll(old(channels), gone)
    {
      hide CloseAll;
      var left, shut := gone, {};
      CloseNone(channels);
      while left != {}
        invariant gone == left + shut && left !! shut && channels == CloseAll(old(channels), shut)
        decreases |left|
      {
        var c :| c in left;
        CloseOneMore(old(channels), shut, c);
        // It is closed here for the first time.
        assert channels[c].isOpen;
        channels := channels[c := Closed(channels[c])];
        left, shut := left - {c}, shut + {c};
      }
      assert shut == gone;
    }

    /** run's last lines. */
    method End(id: nat)
      requires Safe(Contents()) && id < |live| && !live[id].closed
      modifies this
      ensures Safe(Contents()) && Contents() == Perform(old(Contents()), Finish(id))
    {
      hide Safe, CloseAll;
      PerformSafe(Contents(), Finish(id));
      var stream := live[id];
      streams := streams - {stream.key};
      AudienceInRange(old(Contents()), id);
      CloseEach(Audience(stream));
      live := live[id := stream.(closed := true, subscribers := map[])];
    }

    /** What a linger timer runs; by then it has gone off. */
    method StopIfUnused(id: nat)
      requires Safe(Contents()) && id < |live|
      modifies this
      ensures Safe(Contents()) && Contents() == Perform(old(Contents()), Timer(id))
    {
      hide Safe;
      PerformSafe(Contents(), Timer(id));
      var key := live[id].key;
      live := live[id := live[id].(closeTimer := false)];
      if key !in streams || streams[key] != id || live[id].closed || |live[id].subscribers| != 0 { return; }
      live := live[id := live[id].(cancelled := true)];
      assert live == old(live)[id := old(live)[id].(closeTimer := false, cancelled := true)];
    }
  }

  lemma SubscriberInRange(h: Hub, id: nat, s: nat)
    requires Safe(h) && id < |h.live| && s in h.live[id].subscribers
    ensures Owns(h.channels, id, s, h.live[id].subscribers[s])
  {
    assert StreamAttached(h, id);
  }

  lemma DeliverToNone(channels: seq<Channel>, r: Record)
    ensures DeliverTo(channels, {}, r) == channels
  {
  }

  lemma DeliverToOneMore(channels: seq<Channel>, served: set<nat>, c: nat, r: Record)
    requires c < |channels| && c !in served
    ensures var now := DeliverTo(channels, served, r);
      |now| == |channels| && now[c] == channels[c]
      && now[c := channels[c].(viewer := Delivered(channels[c].viewer, r))] == DeliverTo(channels, served + {c}, r)
  {
    hide Delivered;
  }

  lemma CloseNone(channels: seq<Channel>)
    ensures CloseAll(channels, {}) == channels
  {
  }

  lemma CloseOneMore(channels: seq<Channel>, shut: set<nat>, c: nat)
    requires c < |channels| && c !in shut
    ensures var now := CloseAll(channels, shut);
      |now| == |channels| && now[c] == channels[c] && now[c := Closed(channels[c])] == CloseAll(channels, shut + {c})
  {
  }

  lemma AudienceInRange(h: Hub, id: nat)
    requires Safe(h) && id < |h.live|
    ensures forall c :: c in Audience(h.live[id]) ==> c < |h.channels| && h.channels[c].isOpen
  {
    assert StreamAttached(h, id);
    forall c | c in Audience(h.live[id]) ensures c < |h.channels| && h.channels[c].isOpen {
      var s :| s in h.live[id].subscribers && h.live[id].subscribers[s] == c;
      assert Owns(h.channels, id, s, c);
    }
  }

  lemma MappedInRange(h: Hub)
    requires Safe(h)
    ensures forall k :: k in h.streams ==> h.streams[k] < |h.live|
  {
    forall k | k in h.streams ensures h.streams[k] < |h.live| {
      assert MapsToLive(h, k);
    }
  }

  lemma PerformJoin(h: Hub, key: string)
    ensures Perform(h, Join(key)) == Subscribed(h, key)
  {
  }
}
