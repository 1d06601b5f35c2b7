/** A remote agent's attachments, and the stream and command queues that belong to
    them (internal/agent/hub.go). */
module AgentSessions {
  import opened AgentQueues
  import opened Wrappers

  const STREAM_CAPACITY: nat := 512
  const METRIC_CAPACITY: nat := 128
  const COMMAND_CAPACITY: nat := 128
  const DISCONNECTED := Some("remote agent disconnected")

  /** A call of sendCommand: the queue it took under the lock, named by its
      generation, and whether it still waits for room there. */
  datatype Sender = Sender(generation: nat, command: string, waiting: bool)

  /** The sink maps name open queues by the order of their creation. Every
      generation has a command queue of its own; the first one belongs to no
      attachment. */
  datatype Attachments = Attachments(
    generation: nat, attached: bool, streamSinks: map<string, nat>, metricSinks: map<string, nat>,
    queues: seq<Sink>, commands: seq<seq<string>>, senders: seq<Sender>)

  // ---------------------------------------------------------------------- steps

  function Owned(a: Attachments): set<nat> {
    a.streamSinks.Values + a.metricSinks.Values
  }

  /** What the readers receive while the closure sends to their queues. */
  type Meanwhile = map<nat, Gaps>

  function GapsAt(meanwhile: Meanwhile, q: nat): Gaps {
    if q in meanwhile then meanwhile[q] else Gaps(0, 0, 0)
  }

  function Ending(s: Sink, meanwhile: Meanwhile, q: nat): Sink {
    Sending(s, DISCONNECTED, GapsAt(meanwhile, q))
  }

  function AllEnded(queues: seq<Sink>, ending: set<nat>, meanwhile: Meanwhile): (result: seq<Sink>)
    ensures |result| == |queues|
    ensures forall q :: 0 <= q < |queues| ==>
      result[q] == if q in ending then Ending(queues[q], meanwhile, q) else queues[q]
  {
    seq(|queues|, q requires 0 <= q < |queues| => if q in ending then Ending(queues[q], meanwhile, q) else queues[q])
  }

  /** Every attachment gets a fresh command queue. */
  function Attached(a: Attachments): Attachments {
    a.(generation := a.generation + 1, attached := true, commands := a.commands + [[]])
  }

  /** The closure that AttachCommands returned for a generation. */
  function Detached(a: Attachments, generation: nat, meanwhile: Meanwhile): Attachments {
    if a.generation == generation then
      a.(attached := false, streamSinks := map[], metricSinks := map[],
          queues := AllEnded(a.queues, Owned(a), meanwhile))
    else a
  }

  /** OpenStream's registration; recent says that the agent was seen lately. */
  function StreamOpened(a: Attachments, id: string, recent: bool): Attachments {
    if a.attached && recent then
      a.(streamSinks := a.streamSinks[id := |a.queues|], queues := a.queues + [NewSink(STREAM_CAPACITY)])
    else a
  }

  /** OpenMetricStream's registration. */
  function MetricsOpened(a: Attachments, id: string, recent: bool): Attachments {
    if a.attached && recent then
      a.(metricSinks := a.metricSinks[id := |a.queues|], queues := a.queues + [NewSink(METRIC_CAPACITY)])
    else a
  }

  /** The locked part of sendCommand: it takes the queue of the newest attachment. */
  function QueueTaken(a: Attachments, command: string, recent: bool): Attachments {
    if a.attached && recent then a.(senders := a.senders + [Sender(a.generation, command, true)]) else a
  }

  /** A sender still waits, and the queue it took has room. */
  predicate CanSend(a: Attachments, sender: nat) {
    && sender < |a.senders| && a.senders[sender].waiting
    && a.senders[sender].generation < |a.commands|
    && |a.commands[a.senders[sender].generation]| < COMMAND_CAPACITY
  }

  function DoneWaiting(a: Attachments, sender: nat): Attachments {
    if sender < |a.senders| then a.(senders := a.senders[sender := a.senders[sender].(waiting := false)]) else a
  }

  /** The rest of sendCommand, without the lock: it sends to the queue it took. */
  function CommandSent(a: Attachments, sender: nat): Attachments {
    if CanSend(a, sender) then
      var g := a.senders[sender].generation;
      DoneWaiting(a, sender).(commands := a.commands[g := a.commands[g] + [a.senders[sender].command]])
    else a
  }

  /** The session of one attachment fetches a command. */
  function CommandFetched(a: Attachments, generation: nat): Attachments {
    if generation < |a.commands| && a.commands[generation] != [] then
      a.(commands := a.commands[generation := a.commands[generation][1..]])
    else a
  }

  datatype Event =
    Attach | Detach(generation: nat, meanwhile: Meanwhile)
    | OpenStream(id: string, recent: bool) | OpenMetrics(id: string, recent: bool)
    | RemoveStream(id: string) | RemoveMetrics(id: string)
    | TakeQueue(command: string, recent: bool) | Send(sender: nat) | GiveUp(sender: nat) | Fetch(generation: nat)
    | Progress(queue: nat, step: Step)

  const UNATTACHED := Attachments(0, false, map[], map[], [], [[]], [])

  function Happened(a: Attachments, e: Event): Attachments {
    match e
    case Attach => Attached(a)
    case Detach(g, meanwhile) => Detached(a, g, meanwhile)
    case OpenStream(id, recent) => StreamOpened(a, id, recent)
    case OpenMetrics(id, recent) => MetricsOpened(a, id, recent)
    case RemoveStream(id) => a.(streamSinks := a.streamSinks - {id})
    case RemoveMetrics(id) => a.(metricSinks := a.metricSinks - {id})
    case TakeQueue(command, recent) => QueueTaken(a, command, recent)
    case Send(sender) => CommandSent(a, sender)
    case GiveUp(sender) => DoneWaiting(a, sender)
    case Fetch(g) => CommandFetched(a, g)
    case Progress(q, step) => if q < |a.queues| then a.(queues := a.queues[q := Perform(a.queues[q], step)]) else a
  }

  function After(events: seq<Event>): Attachments {
    if events == [] then UNATTACHED else Happened(After(events[..|events| - 1]), events[|events| - 1])
  }

  lemma AfterLast(events: seq<Event>, e: Event)
    ensures After(events + [e]) == Happened(After(events), e)
  {
    assert (events + [e])[..|events|] == events;
  }

  // ---------------------------------------------------------------- who is attached

  function Attaches(events: seq<Event>): nat {
    if events == [] then 0 else Attaches(events[..|events| - 1]) + if events[|events| - 1].Attach? then 1 else 0
  }

  /** Has the newest attachment's closure run since it attached? */
  predicate NewestDetached(events: seq<Event>) {
    events != [] &&
    match events[|events| - 1]
    case Attach => false
    case Detach(g, _) => g == Attaches(events) || NewestDetached(events[..|events| - 1])
    case _ => NewestDetached(events[..|events| - 1])
  }

  /** In every run the agent counts as attached exactly when it attached and the
      newest attachment has not detached, whatever older closures did. */
  lemma {:induction false} AttachedIff(events: seq<Event>)
    ensures After(events).generation == Attaches(events)
    ensures After(events).attached <==> Attaches(events) > 0 && !NewestDetached(events)
  {
    hide AllEnded, Perform, Owned;
    if events != [] { AttachedIff(events[..|events| - 1]); }
  }

  /** At any time the closure of an attachment that is no longer the newest
      changes nothing. */
  lemma StaleDetachIgnored(events: seq<Event>, g: nat, meanwhile: Meanwhile)
    requires g < Attaches(events)
    ensures After(events + [Detach(g, meanwhile)]) == After(events)
  {
    hide After, AllEnded, Owned;
    AfterLast(events, Detach(g, meanwhile));
    AttachedIff(events);
  }

  // ----------------------------------------------------------------- command queues

  /** Every generation has its queue, and every sender took an existing one. */
  ghost predicate OwnQueues(a: Attachments) {
    && |a.commands| == a.generation + 1
    && forall i :: 0 <= i < |a.senders| ==> a.senders[i].generation <= a.generation
  }

  /** The step puts a command into the queue of a generation. */
  predicate Fills(a: Attachments, e: Event, g: nat) {
    e.Send? && CanSend(a, e.sender) && a.senders[e.sender].generation == g
  }

  lemma HappenedOwnQueues(a: Attachments, e: Event)
    requires OwnQueues(a)
    ensures OwnQueues(Happened(a, e)) && a.generation <= Happened(a, e).generation
  {
    hide AllEnded, Perform, Owned;
  }

  /** All that can happen to an existing command queue. */
  lemma HappenedCommands(a: Attachments, e: Event, g: nat)
    requires g < |a.commands|
    ensures g < |Happened(a, e).commands|
    ensures Happened(a, e).commands[g] ==
      if Fills(a, e, g) then a.commands[g] + [a.senders[e.sender].command]
      else if e == Fetch(g) && a.commands[g] != [] then a.commands[g][1..]
      else a.commands[g]
  {
    hide AllEnded, Perform, Owned;
  }

  /** Senders keep their queue and their command, and new ones take the queue of
      the newest attachment. */
  lemma HappenedSenders(a: Attachments, e: Event)
    ensures |a.senders| <= |Happened(a, e).senders|
    ensures forall i :: 0 <= i < |a.senders| ==>
      && Happened(a, e).senders[i].generation == a.senders[i].generation
      && Happened(a, e).senders[i].command == a.senders[i].command
      && (Happened(a, e).senders[i].waiting ==> a.senders[i].waiting)
    ensures forall i :: |a.senders| <= i < |Happened(a, e).senders| ==>
      && i == |a.senders| && a.attached && e == TakeQueue(Happened(a, e).senders[i].command, true)
      && Happened(a, e).senders[i].generation == a.generation
  {
    hide AllEnded, Perform, Owned;
  }

  lemma {:induction false} AlwaysOwnQueues(events: seq<Event>)
    ensures OwnQueues(After(events))
  {
    hide Happened, OwnQueues;
    if events == [] {
      FirstOwnQueues();
    } else {
      AlwaysOwnQueues(events[..|events| - 1]);
      HappenedOwnQueues(After(events[..|events| - 1]), events[|events| - 1]);
    }
  }

  lemma FirstOwnQueues()
    ensures OwnQueues(UNATTACHED)
  {
  }

  /** A sender that took its queue after an attach took no older queue, and one
      that took it before keeps it. */
  lemma {:induction false} QueueTakenIsNewest(events: seq<Event>, later: seq<Event>, i: nat)
    requires i < |After(events + later).senders|
    ensures var a, b := After(events), After(events + later);
      if i < |a.senders| then
        b.senders[i].generation == a.senders[i].generation && (b.senders[i].waiting ==> a.senders[i].waiting)
      else a.generation <= b.senders[i].generation
    ensures After(events).generation <= After(events + later).generation
    decreases |later|
  {
    hide After, Happened, OwnQueues;
    if later == [] {
      assert events + later == events;
    } else {
      var front, e := later[..|later| - 1], later[|later| - 1];
      assert events + later == events + front + [e];
      AfterLast(events + front, e);
      var b := After(events + front);
      HappenedSenders(b, e);
      AlwaysOwnQueues(events + front);
      HappenedOwnQueues(b, e);
      if i < |b.senders| {
        QueueTakenIsNewest(events, front, i);
      } else {
        GenerationsGrow(events, front);
        SendersGrow(events, front);
      }
    }
  }

  lemma {:induction false} GenerationsGrow(events: seq<Event>, later: seq<Event>)
    ensures After(events).generation <= After(events + later).generation
    decreases |later|
  {
    hide After, Happened, OwnQueues;
    if later == [] {
      assert events + later == events;
    } else {
      var front, e := later[..|later| - 1], later[|later| - 1];
      assert events + later == events + front + [e];
      AfterLast(events + front, e);
      GenerationsGrow(events, front);
      AlwaysOwnQueues(events + front);
      HappenedOwnQueues(After(events + front), e);
    }
  }

  lemma {:induction false} SendersGrow(events: seq<Event>, later: seq<Event>)
    ensures |After(events).senders| <= |After(events + later).senders|
    decreases |later|
  {
    hide After, Happened;
    if later == [] {
      assert events + later == events;
    } else {
      var front, e := later[..|later| - 1], later[|later| - 1];
      assert events + later == events + front + [e];
      AfterLast(events + front, e);
      SendersGrow(events, front);
      HappenedSenders(After(events + front), e);
    }
  }

  // --------------------------------------------------- when an old queue still grows

  /** A sender waits for room in the queue of a generation. */
  predicate Awaited(a: Attachments, g: nat) {
    exists i :: 0 <= i < |a.senders| && a.senders[i].waiting && a.senders[i].generation == g
  }

  /** Some later step puts a command into the queue of a generation. */
  ghost predicate FilledIn(events: seq<Event>, later: seq<Event>, g: nat) {
    exists j :: 0 <= j < |later| && Fills(After(events + later[..j]), later[j], g)
  }

  /** The queue of an older generation is filled in some later run exactly when a
      sender that took it still waits. */
  lemma OldQueueFillsIff(events: seq<Event>, g: nat)
    requires g < After(events).generation
    ensures (exists later :: FilledIn(events, later, g)) <==> Awaited(After(events), g)
  {
    hide After, Happened;
    if later :| FilledIn(events, later, g) { FilledByWaiting(events, later, g); }
    if Awaited(After(events), g) {
      var a := After(events);
      var i :| 0 <= i < |a.senders| && a.senders[i].waiting && a.senders[i].generation == g;
      AlwaysOwnQueues(events);
      AlwaysBounded(events);
      var later := [Fetch(g), Send(i)];
      assert later[..1] == [Fetch(g)];
      AfterLast(events, Fetch(g));
      HappenedCommands(a, Fetch(g), g);
      FetchKeepsSenders(a, g);
      assert Fills(After(events + later[..1]), later[1], g);
      assert FilledIn(events, later, g);
    }
  }

  lemma FetchKeepsSenders(a: Attachments, g: nat)
    ensures Happened(a, Fetch(g)).senders == a.senders
    ensures |Happened(a, Fetch(g)).commands| == |a.commands|
  {
  }

  /** No command queue ever exceeds its capacity. */
  lemma {:induction false} AlwaysBounded(events: seq<Event>)
    ensures Bounded(After(events))
  {
    hide Happened, Bounded;
    if events == [] {
      FirstBounded();
    } else {
      AlwaysBounded(events[..|events| - 1]);
      HappenedBounded(After(events[..|events| - 1]), events[|events| - 1]);
    }
  }

  ghost predicate Bounded(a: Attachments) {
    forall g :: 0 <= g < |a.commands| ==> |a.commands[g]| <= COMMAND_CAPACITY
  }

  lemma HappenedBounded(a: Attachments, e: Event)
    requires Bounded(a)
    ensures Bounded(Happened(a, e))
  {
    hide AllEnded, Perform, Owned;
  }

  lemma FirstBounded()
    ensures Bounded(UNATTACHED)
  {
  }

  /** A step that fills an older queue is that of a sender which took the queue
      before, and which was still waiting. */
  lemma FilledByWaiting(events: seq<Event>, later: seq<Event>, g: nat)
    requires g < After(events).generation && FilledIn(events, later, g)
    ensures Awaited(After(events), g)
  {
    hide After, Happened;
    var j :| 0 <= j < |later| && Fills(After(events + later[..j]), later[j], g);
    QueueTakenIsNewest(events, later[..j], later[j].sender);
  }

  /** b holds what is left of a at its end. */
  ghost predicate IsSuffix(b: seq<string>, a: seq<string>) {
    |b| <= |a| && b == a[|a| - |b|..]
  }

  lemma SuffixOfSuffix(c: seq<string>, b: seq<string>, a: seq<string>)
    requires IsSuffix(c, b) && IsSuffix(b, a)
    ensures IsSuffix(c, a)
  {
    assert b[|b| - |c|..] == a[|a| - |c|..];
  }

  lemma StepShrinksIff(a: Attachments, e: Event, g: nat)
    requires g < |a.commands|
    ensures g < |Happened(a, e).commands|
    ensures IsSuffix(Happened(a, e).commands[g], a.commands[g]) <==> !Fills(a, e, g)
  {
    hide Happened;
    HappenedCommands(a, e, g);
    if !Fills(a, e, g) && e == Fetch(g) && a.commands[g] != [] {
      assert a.commands[g][1..] == a.commands[g][|a.commands[g]| - (|a.commands[g]| - 1)..];
    }
  }

  /** What one step of a later run leaves of a queue. */
  ghost predicate ShrinksAt(events: seq<Event>, later: seq<Event>, g: nat, j: nat)
    requires j < |later|
  {
    var a, b := After(events + later[..j]), After(events + later[..j + 1]);
    g < |a.commands| && g < |b.commands| && IsSuffix(b.commands[g], a.commands[g])
  }

  /** In every later run the queue of an older generation shrinks at every step
      but those at which a sender that had taken it before, and still waited,
      sends. In particular it only shrinks when no sender waits for it. */
  lemma OldCommandsOnlyShrink(events: seq<Event>, later: seq<Event>, g: nat)
    requires g < After(events).generation
    ensures forall j :: 0 <= j < |later| ==>
      (ShrinksAt(events, later, g, j) <==> !Fills(After(events + later[..j]), later[j], g))
    ensures FilledIn(events, later, g) ==> Awaited(After(events), g)
    ensures !Awaited(After(events), g) ==>
      var a, b := After(events), After(events + later);
      g < |a.commands| && g < |b.commands| && IsSuffix(b.commands[g], a.commands[g])
  {
    hide After, Happened, IsSuffix, Awaited, Fills;
    forall j | 0 <= j < |later|
      ensures ShrinksAt(events, later, g, j) <==> !Fills(After(events + later[..j]), later[j], g)
    {
      QueueThere(events, later[..j], g);
      assert events + later[..j + 1] == events + later[..j] + [later[j]];
      AfterLast(events + later[..j], later[j]);
      StepShrinksIff(After(events + later[..j]), later[j], g);
    }
    if FilledIn(events, later, g) {
      FilledByWaiting(events, later, g);
    } else {
      UnfilledShrinks(events, later, g);
    }
  }

  lemma QueueThere(events: seq<Event>, later: seq<Event>, g: nat)
    requires g <= After(events).generation
    ensures g < |After(events + later).commands|
  {
    hide After;
    GenerationsGrow(events, later);
    AlwaysOwnQueues(events + later);
  }

  lemma {:induction false} UnfilledShrinks(events: seq<Event>, later: seq<Event>, g: nat)
    requires g <= After(events).generation && !FilledIn(events, later, g)
    ensures var a, b := After(events), After(events + later);
      g < |a.commands| && g < |b.commands| && IsSuffix(b.commands[g], a.commands[g])
    decreases |later|
  {
    hide After, Happened, IsSuffix, Fills;
    AlwaysOwnQueues(events);
    if later == [] {
      assert events + later == events;
      WholeSuffix(After(events).commands[g]);
    } else {
      var n := |later| - 1;
      var front, e := later[..n], later[n];
      forall j | 0 <= j < n ensures !Fills(After(events + front[..j]), front[j], g) {
        assert front[..j] == later[..j];
      }
      UnfilledShrinks(events, front, g);
      assert events + later == events + front + [e];
      AfterLast(events + front, e);
      assert !Fills(After(events + later[..n]), later[n], g);
      StepShrinksIff(After(events + front), e, g);
      SuffixOfSuffix(After(events + later).commands[g], After(events + front).commands[g], After(events).commands[g]);
    }
  }

  lemma WholeSuffix(a: seq<string>)
    ensures IsSuffix(a, a)
  {
  }

  /** A send that took the queue before a reconnect fills it afterwards. */
  lemma LateSendFillsOldQueue()
    ensures var a := After([Attach, TakeQueue("x", true), Attach, Send(0)]);
      a.generation == 2 && a.attached && a.commands == [[], ["x"], []]
  {
    hide After, AllEnded, Perform, Owned;
    AfterLast([], Attach);
    AfterLast([Attach], TakeQueue("x", true));
    AfterLast([Attach, TakeQueue("x", true)], Attach);
    AfterLast([Attach, TakeQueue("x", true), Attach], Send(0));
    assert [] + [Attach] == [Attach];
    assert [Attach] + [TakeQueue("x", true)] == [Attach, TakeQueue("x", true)];
    assert [Attach, TakeQueue("x", true)] + [Attach] == [Attach, TakeQueue("x", true), Attach];
    assert [Attach, TakeQueue("x", true), Attach] + [Send(0)] == [Attach, TakeQueue("x", true), Attach, Send(0)];
    NothingYet();
    var one := After([Attach]);
    assert one == Attachments(1, true, map[], map[], [], [[], []], []);
    var two := After([Attach, TakeQueue("x", true)]);
    assert two == one.(senders := [Sender(1, "x", true)]);
    var three := After([Attach, TakeQueue("x", true), Attach]);
    assert three == Attachments(2, true, map[], map[], [], [[], [], []], [Sender(1, "x", true)]);
    assert CanSend(three, 0);
    var g := three.senders[0].generation;
    assert CommandSent(three, 0).commands == three.commands[g := three.commands[g] + [three.senders[0].command]];
    assert g == 1 && three.commands[1] + ["x"] == ["x"];
    assert After([Attach, TakeQueue("x", true), Attach, Send(0)]) == CommandSent(three, 0);
  }

  lemma NothingYet()
    ensures After([]) == UNATTACHED
  {
  }

  // ------------------------------------------------------- which commands a session gets

  /** What was put into the queue of a generation, in order. */
  function FilledInto(events: seq<Event>, g: nat): seq<string> {
    if events == [] then []
    else
      var front, e := events[..|events| - 1], events[|events| - 1];
      FilledInto(front, g) + if Fills(After(front), e, g) then [After(front).senders[e.sender].command] else []
  }

  /** What the session of a generation fetched, in order. */
  function FetchedFrom(events: seq<Event>, g: nat): seq<string> {
    if events == [] then []
    else
      var front, e := events[..|events| - 1], events[|events| - 1];
      var a := After(front);
      FetchedFrom(front, g)
        + if e == Fetch(g) && g < |a.commands| && a.commands[g] != [] then [a.commands[g][0]] else []
  }

  function QueueOf(a: Attachments, g: nat): seq<string> {
    if g < |a.commands| then a.commands[g] else []
  }

  /** No command is lost, invented or overtaken: in every run what was sent to a
      generation is what its session fetched and what is still queued. */
  lemma {:induction false} CommandsConserved(events: seq<Event>, g: nat)
    ensures FilledInto(events, g) == FetchedFrom(events, g) + QueueOf(After(events), g)
  {
    hide Happened, After;
    if events == [] {
      NothingYet();
      EmptyQueue(UNATTACHED, g);
    } else {
      var front, e := events[..|events| - 1], events[|events| - 1];
      CommandsConserved(front, g);
      QueueStep(After(front), e, g);
      AfterLast(front, e);
      assert events == front + [e];
      var q := QueueOf(After(front), g);
      if e == Fetch(g) && q != [] {
        assert FetchedFrom(front, g) + [q[0]] + q[1..] == FetchedFrom(front, g) + q;
      } else if Fills(After(front), e, g) {
        var command := After(front).senders[e.sender].command;
        assert FetchedFrom(front, g) + q + [command] == FetchedFrom(front, g) + (q + [command]);
      }
    }
  }

  lemma EmptyQueue(a: Attachments, g: nat)
    requires a == UNATTACHED
    ensures QueueOf(a, g) == []
  {
  }

  lemma QueueStep(a: Attachments, e: Event, g: nat)
    ensures QueueOf(Happened(a, e), g) ==
      if Fills(a, e, g) then QueueOf(a, g) + [a.senders[e.sender].command]
      else if e == Fetch(g) && QueueOf(a, g) != [] then QueueOf(a, g)[1..]
      else QueueOf(a, g)
  {
    hide AllEnded, Perform, Owned;
    if g < |a.commands| { HappenedCommands(a, e, g); }
  }

  /** Everything sent to a generation was taken up by a sendCommand while that
      generation was the newest and attached: an older session gets no command
      that was meant for a newer one. */
  lemma FilledWhileNewest(events: seq<Event>, k: nat, g: nat)
    requires k < |events| && Fills(After(events[..k]), events[k], g)
    ensures exists j :: 0 <= j < k && TakenAt(events, j, g, After(events[..k]).senders[events[k].sender].command)
  {
    hide After, Happened;
    TakenWhileNewest(events[..k], events[k].sender);
    var sender := After(events[..k]).senders[events[k].sender];
    var j :| 0 <= j < k && TakenAt(events[..k], j, sender.generation, sender.command);
    assert events[..k][..j] == events[..j];
    assert TakenAt(events, j, g, sender.command);
  }

  lemma {:induction false} StopsWaiting(events: seq<Event>, later: seq<Event>, i: nat)
    requires i < |After(events).senders| && !After(events).senders[i].waiting
    ensures i < |After(events + later).senders| && !After(events + later).senders[i].waiting
    decreases |later|
  {
    hide After, Happened;
    if later == [] {
      assert events + later == events;
    } else {
      var front, e := later[..|later| - 1], later[|later| - 1];
      StopsWaiting(events, front, i);
      assert events + later == events + front + [e];
      AfterLast(events + front, e);
      HappenedSenders(After(events + front), e);
    }
  }

  /** The step ends a sender's wait: it sends, or it gives up. */
  predicate EndsWait(a: Attachments, e: Event, i: nat) {
    i < |a.senders| && ((e == Send(i) && CanSend(a, i)) || e == GiveUp(i))
  }

  /** In every run a sendCommand sends its command at most once, and never after it
      gave up. */
  lemma SendsOnce(events: seq<Event>, k: nat, later: seq<Event>, i: nat)
    requires k < |events| && EndsWait(After(events[..k]), events[k], i)
    ensures !CanSend(After(events + later), i)
  {
    hide After;
    assert events[..k + 1] == events[..k] + [events[k]];
    AfterLast(events[..k], events[k]);
    WaitEnded(After(events[..k]), events[k], i);
    StopsWaiting(events[..k + 1], events[k + 1..] + later, i);
    assert events + later == events[..k + 1] + (events[k + 1..] + later);
  }

  lemma WaitEnded(a: Attachments, e: Event, i: nat)
    requires EndsWait(a, e, i)
    ensures i < |Happened(a, e).senders| && !Happened(a, e).senders[i].waiting
  {
  }

  /** At this step a sendCommand took the queue of this generation. */
  ghost predicate TakenAt(events: seq<Event>, j: nat, g: nat, command: string)
    requires j < |events|
  {
    events[j] == TakeQueue(command, true) && After(events[..j]).attached && After(events[..j]).generation == g
  }

  lemma {:induction false} TakenWhileNewest(events: seq<Event>, i: nat)
    requires i < |After(events).senders|
    ensures var sender := After(events).senders[i];
      exists j :: 0 <= j < |events| && TakenAt(events, j, sender.generation, sender.command)
  {
    hide Happened;
    assert events != [];
    var n := |events| - 1;
    var front, e := events[..n], events[n];
    HappenedSenders(After(front), e);
    var sender := After(events).senders[i];
    if i < |After(front).senders| {
      TakenWhileNewest(front, i);
      var j :| 0 <= j < n && TakenAt(front, j, sender.generation, sender.command);
      assert front[..j] == events[..j];
      assert TakenAt(events, j, sender.generation, sender.command);
    } else {
      assert TakenAt(events, n, sender.generation, sender.command);
    }
  }

  // --------------------------------------------------------- what a detach leaves

  ghost predicate Named(a: Attachments) {
    forall q :: q in Owned(a) ==> q < |a.queues|
  }

  /** Queues below n are owned by nobody, and new ones come after them. */
  ghost predicate Beyond(a: Attachments, n: nat) {
    n <= |a.queues| && forall q :: q in Owned(a) ==> n <= q
  }

  lemma HappenedOwned(a: Attachments, e: Event, q: nat)
    requires q in Owned(Happened(a, e))
    ensures q in Owned(a) || q == |a.queues|
    ensures |a.queues| <= |Happened(a, e).queues|
    ensures q == |a.queues| && q !in Owned(a) ==> q < |Happened(a, e).queues|
  {
    hide AllEnded, Perform;
  }

  lemma HappenedGrows(a: Attachments, e: Event)
    ensures |a.queues| <= |Happened(a, e).queues|
  {
    hide Perform, Owned;
  }

  lemma HappenedNamed(a: Attachments, e: Event, n: nat)
    ensures Named(a) ==> Named(Happened(a, e))
    ensures Beyond(a, n) ==> Beyond(Happened(a, e), n)
  {
    hide Owned, Happened;
    HappenedGrows(a, e);
    forall q | q in Owned(Happened(a, e)) ensures (q in Owned(a) || q == |a.queues|)
      && (q == |a.queues| && q !in Owned(a) ==> q < |Happened(a, e).queues|)
    {
      HappenedOwned(a, e, q);
    }
  }

  lemma {:induction false} AlwaysNamed(events: seq<Event>)
    ensures Named(After(events))
  {
    hide Happened, Named;
    if events == [] {
      NobodyNamed();
    } else {
      AlwaysNamed(events[..|events| - 1]);
      HappenedNamed(After(events[..|events| - 1]), events[|events| - 1], 0);
    }
  }

  lemma NobodyNamed()
    ensures Named(UNATTACHED)
  {
  }

  // --------------------------------------------------------- which streams are open

  /** Streams and metric streams alike. */
  function Sinks(a: Attachments, metric: bool): map<string, nat> {
    if metric then a.metricSinks else a.streamSinks
  }

  function Opening(metric: bool, id: string): Event {
    if metric then OpenMetrics(id, true) else OpenStream(id, true)
  }

  function Removing(metric: bool, id: string): Event {
    if metric then RemoveMetrics(id) else RemoveStream(id)
  }

  /** At this step the stream is opened with this queue. */
  ghost predicate OpenedAt(events: seq<Event>, metric: bool, id: string, q: nat, i: int) {
    && 0 <= i < |events| && events[i] == Opening(metric, id)
    && After(events[..i]).attached && q == |After(events[..i]).queues|
  }

  /** The step takes the stream's name away: it removes or reopens it, or detaches
      the current attachment. */
  predicate TakesAway(a: Attachments, e: Event, metric: bool, id: string) {
    e == Removing(metric, id) || (e.Detach? && e.generation == a.generation)
    || (e == Opening(metric, id) && a.attached)
  }

  lemma HappenedSinks(a: Attachments, e: Event, metric: bool, id: string)
    ensures var sinks, now := Sinks(a, metric), Sinks(Happened(a, e), metric);
      && (e == Opening(metric, id) && a.attached ==> id in now && now[id] == |a.queues|)
      && (!TakesAway(a, e, metric, id) ==> (id in now <==> id in sinks) && (id in sinks ==> now[id] == sinks[id]))
      && (TakesAway(a, e, metric, id) && e != Opening(metric, id) ==> id !in now)
  {
    hide AllEnded, Perform, Owned;
  }

  /** A step opened it with this queue, and no later one took it away. */
  ghost predicate StaysOpen(events: seq<Event>, metric: bool, id: string, q: nat, i: int) {
    && OpenedAt(events, metric, id, q, i)
    && forall j :: i < j < |events| ==> !TakesAway(After(events[..j]), events[j], metric, id)
  }

  /** In every run an id names a queue exactly when some step opened it with that
      queue, on an attached agent seen lately, and no later step took it away. */
  lemma {:induction false} OpenIff(events: seq<Event>, metric: bool, id: string, q: nat)
    ensures (id in Sinks(After(events), metric) && Sinks(After(events), metric)[id] == q) <==>
      exists i :: StaysOpen(events, metric, id, q, i)
  {
    hide Happened, OpenedAt, StaysOpen;
    if events == [] {
      NothingOpened(metric, id, q);
    } else {
      var n := |events| - 1;
      OpenIff(events[..n], metric, id, q);
      HappenedSinks(After(events[..n]), events[n], metric, id);
      StaysOpenLast(events, metric, id, q);
    }
  }

  lemma StaysOpenLast(events: seq<Event>, metric: bool, id: string, q: nat)
    requires events != []
    ensures var n := |events| - 1;
      var a, e := After(events[..n]), events[n];
      (exists i :: StaysOpen(events, metric, id, q, i)) <==>
        if e == Opening(metric, id) && a.attached then q == |a.queues|
        else !TakesAway(a, e, metric, id) && exists i :: StaysOpen(events[..n], metric, id, q, i)
  {
    hide After, OpenedAt;
    var n := |events| - 1;
    var front := events[..n];
    OpenedBefore(events, metric, id, q);
    forall j | 0 <= j < n ensures TakesAway(After(front[..j]), front[j], metric, id)
      <==> TakesAway(After(events[..j]), events[j], metric, id)
    {
      assert front[..j] == events[..j];
    }
    if i :| StaysOpen(events, metric, id, q, i) {
      if i < n { assert StaysOpen(front, metric, id, q, i); }
    }
    if OpenedAt(events, metric, id, q, n) { assert StaysOpen(events, metric, id, q, n); }
    if i :| StaysOpen(front, metric, id, q, i) {
      if !TakesAway(After(front), events[n], metric, id) { assert StaysOpen(events, metric, id, q, i); }
    }
  }

  lemma NothingOpened(metric: bool, id: string, q: nat)
    ensures id !in Sinks(After([]), metric) && forall i :: !StaysOpen([], metric, id, q, i)
  {
  }

  lemma OpenedBefore(events: seq<Event>, metric: bool, id: string, q: nat)
    requires events != []
    ensures var n := |events| - 1;
      && (forall i :: 0 <= i < n ==> (OpenedAt(events, metric, id, q, i) <==> OpenedAt(events[..n], metric, id, q, i)))
      && (forall i :: OpenedAt(events, metric, id, q, i) ==> 0 <= i <= n)
      && (forall i :: OpenedAt(events[..n], metric, id, q, i) ==> 0 <= i < n)
      && (OpenedAt(events, metric, id, q, n) <==>
            events[n] == Opening(metric, id) && After(events[..n]).attached && q == |After(events[..n]).queues|)
      && (OpenedAt(events, metric, id, q, n) ==> TakesAway(After(events[..n]), events[n], metric, id))
  {
    hide After;
    var n := |events| - 1;
    forall i | 0 <= i < n ensures OpenedAt(events, metric, id, q, i) <==> OpenedAt(events[..n], metric, id, q, i) {
      assert events[..n][..i] == events[..i];
    }
  }

  /** A queue that an opening step makes is new and empty; streams get room for 512
      results and metric streams for 128. */
  lemma OpenedQueueIsNew(events: seq<Event>, metric: bool, id: string)
    requires After(events).attached
    ensures var a, b := After(events), After(events + [Opening(metric, id)]);
      && id in Sinks(b, metric) && Sinks(b, metric)[id] == |a.queues| && |b.queues| == |a.queues| + 1
      && b.queues[..|a.queues|] == a.queues
      && b.queues[|a.queues|] == Sink(if metric then 128 else 512, [], [], Idle, false)
  {
    hide After;
    AfterLast(events, Opening(metric, id));
  }

  // ------------------------------------------------------ readers after a detach

  ghost predicate AllRight(a: Attachments) {
    forall q :: 0 <= q < |a.queues| ==> Right(a.queues[q])
  }

  ghost predicate OwnersIdle(a: Attachments) {
    forall q :: q in Owned(a) && q < |a.queues| ==> a.queues[q].phase.Idle?
  }

  /** The assumption of one producer: a detach does not send to a queue while
      another send to it is under way. */
  ghost predicate OneProducer(events: seq<Event>) {
    forall i :: 0 <= i < |events| ==> DetachAlone(After(events[..i]), events[i])
  }

  ghost predicate DetachAlone(a: Attachments, e: Event) {
    e.Detach? && e.generation == a.generation ==> OwnersIdle(a)
  }

  lemma HappenedRight(a: Attachments, e: Event)
    requires AllRight(a) && DetachAlone(a, e)
    ensures AllRight(Happened(a, e))
  {
    hide Perform, Sending, Right, Owned, HasTerminal;
    NewRight(STREAM_CAPACITY);
    NewRight(METRIC_CAPACITY);
    forall q | 0 <= q < |Happened(a, e).queues| ensures Right(Happened(a, e).queues[q]) {
      if q < |a.queues| {
        if e.Detach? && a.queues[q].phase.Idle? {
          SendingDelivers(a.queues[q], DISCONNECTED, GapsAt(e.meanwhile, q));
        }
        if e.Progress? { PerformRight(a.queues[q], e.step); }
      }
    }
  }

  lemma {:induction false} AlwaysAllRight(events: seq<Event>)
    requires OneProducer(events)
    ensures AllRight(After(events))
  {
    hide Happened, AllRight, DetachAlone;
    if events == [] {
      NoQueuesRight();
    } else {
      var n := |events| - 1;
      forall i | 0 <= i < n ensures DetachAlone(After(events[..n][..i]), events[..n][i]) {
        assert events[..n][..i] == events[..i];
        assert DetachAlone(After(events[..i]), events[i]);
      }
      AlwaysAllRight(events[..n]);
      assert DetachAlone(After(events[..n]), events[n]);
      HappenedRight(After(events[..n]), events[n]);
    }
  }

  lemma NoQueuesRight()
    ensures AllRight(UNATTACHED)
  {
  }

  /** The steps of a run at one queue. */
  function StepsAt(events: seq<Event>, q: nat): seq<Step> {
    if events == [] then []
    else
      var before := StepsAt(events[..|events| - 1], q);
      match events[|events| - 1]
      case Progress(queue, step) => if queue == q then before + [step] else before
      case _ => before
  }

  lemma HappenedElsewhere(a: Attachments, e: Event, q: nat)
    requires q < |a.queues| && q !in Owned(a)
    ensures q < |Happened(a, e).queues|
    ensures Happened(a, e).queues[q] == if e.Progress? && e.queue == q then Perform(a.queues[q], e.step)
      else a.queues[q]
  {
    hide Perform, Owned, Ending;
  }

  /** A queue that is no longer owned changes by its own steps only. */
  lemma {:induction false} LeftAlone(events: seq<Event>, later: seq<Event>, n: nat, q: nat)
    requires Beyond(After(events), n) && q < n
    ensures Beyond(After(events + later), n)
    ensures After(events + later).queues[q] == Run(After(events).queues[q], StepsAt(later, q))
    decreases |later|
  {
    hide After, Happened, Perform;
    if later == [] {
      assert events + later == events;
    } else {
      var front, e := later[..|later| - 1], later[|later| - 1];
      LeftAlone(events, front, n, q);
      assert events + later == events + front + [e];
      AfterLast(events + front, e);
      HappenedNamed(After(events + front), e, n);
      HappenedElsewhere(After(events + front), e, q);
      if e.Progress? && e.queue == q {
        assert (StepsAt(front, q) + [e.step])[..|StepsAt(front, q)|] == StepsAt(front, q);
      }
    }
  }

  /** No send to an open stream's queue is under way, now or at an earlier detach. */
  ghost predicate ReadyToDetach(events: seq<Event>) {
    OneProducer(events) && OwnersIdle(After(events))
  }

  /** A detach of the current attachment ends every open stream, metric streams
      included: whatever their readers receive meanwhile, a terminal result is
      queued or received. The streams are forgotten and all other queues stay. */
  lemma DetachEndsStreams(events: seq<Event>, meanwhile: Meanwhile)
    ensures var a := After(events);
      var a' := Detached(a, a.generation, meanwhile);
      && !a'.attached && Owned(a') == {} && |a'.queues| == |a.queues|
      && forall q :: 0 <= q < |a.queues| ==>
           if q in Owned(a) then ReadyToDetach(events) ==> EndedAt(a.queues[q], a'.queues[q])
           else a'.queues[q] == a.queues[q]
  {
    hide After, OneProducer, Ending;
    var a := After(events);
    if ReadyToDetach(events) {
      AlwaysAllRight(events);
      forall q | 0 <= q < |a.queues| && q in Owned(a) ensures EndedAt(a.queues[q], Ending(a.queues[q], meanwhile, q)) {
        EndingEnds(a.queues[q], meanwhile, q);
      }
    }
  }

  /** The queue has its terminal result, and no send is under way. */
  ghost predicate EndedAt(s: Sink, s': Sink) {
    Holds(s', Terminal(DISCONNECTED)) && s'.sent && s'.phase.Idle? && Right(s') && s'.capacity == s.capacity
  }

  lemma EndingEnds(s: Sink, meanwhile: Meanwhile, q: nat)
    requires Right(s) && s.phase.Idle?
    ensures EndedAt(s, Ending(s, meanwhile, q))
  {
    hide Right, Sending;
    SendingDelivers(s, DISCONNECTED, GapsAt(meanwhile, q));
  }

  /** The reader ends by its (capacity + n)-th receive, where n records are still
      offered, and it always has something to receive. */
  ghost predicate ReaderWillEnd(s: Sink, later: seq<Step>) {
    var s' := Run(s, later);
    && (|s'.taken| - |s.taken| >= s.capacity + Offers(later) ==> Ended(s'))
    && (!Ended(s') && !s'.phase.Retrying? ==> s'.queue != [])
  }

  /** After a detach of the current attachment the reader of every stream that was
      open ends, whatever messages are still under way. */
  lemma DetachedReadersEnd(events: seq<Event>, meanwhile: Meanwhile, later: seq<Event>, q: nat)
    ensures var detach := [Detach(After(events).generation, meanwhile)];
      var before, after := After(events + detach), After(events + detach + later);
      q in Owned(After(events)) && ReadyToDetach(events) ==>
        && q < |before.queues| && q < |after.queues|
        && after.queues[q] == Run(before.queues[q], StepsAt(later, q))
        && ReaderWillEnd(before.queues[q], StepsAt(later, q))
  {
    hide After, Right, Ending, Run, Ended, Offers, Holds, OneProducer;
    var a := After(events);
    if q in Owned(a) && ReadyToDetach(events) {
      var detach := Detach(a.generation, meanwhile);
      AlwaysNamed(events);
      AfterLast(events, detach);
      DetachEndsStreams(events, meanwhile);
      LeftAlone(events + [detach], later, |a.queues|, q);
      ReaderEnds(After(events + [detach]).queues[q], StepsAt(later, q));
    }
  }

  // ------------------------------------------------------------------- the session

  class Session {
    var generation: nat
    var commandsAttached: bool
    var streamSinks: map<string, nat>
    var metricSinks: map<string, nat>
    var queues: seq<Sink>
    var commands: seq<seq<string>>
    var senders: seq<Sender>

    ghost function Contents(): Attachments
      reads this
    {
      Attachments(generation, commandsAttached, streamSinks, metricSinks, queues, commands, senders)
    }

    constructor ()
      ensures Contents() == UNATTACHED
    {
      generation, commandsAttached, streamSinks, metricSinks := 0, false, map[], map[];
      queues, commands, senders := [], [[]], [];
    }

    method AttachCommands() returns (attachment: nat)
      requires OwnQueues(Contents())
      modifies this
      ensures Contents() == Happened(old(Contents()), Attach) && attachment == generation
      ensures OwnQueues(Contents()) && commands[generation] == []
    {
      generation := generation + 1;
      attachment := generation;
      commands := commands + [[]];
      commandsAttached := true;
    }

    /** The closure's loop over one sink map, in any order. */
    method EndEach(ending: set<nat>, meanwhile: Meanwhile)
      requires forall q :: q in ending ==> q < |queues|
      modifies this`queues
      ensures queues == AllEnded(old(queues), ending, meanwhile)
    {
      hide Ending, AllEnded;
      var left, done := ending, {};
      EndedNone(queues, meanwhile);
      while left != {}
        invariant ending == left + done && left !! done && queues == AllEnded(old(queues), done, meanwhile)
        decreases |left|
      {
        var q :| q in left;
        EndedOneMore(old(queues), done, q, meanwhile);
        queues := queues[q := Ending(queues[q], meanwhile, q)];
        left, done := left - {q}, done + {q};
      }
      assert done == ending;
    }

    /** The closure AttachCommands returns, for the generation it captured. */
    method DetachCommands(attachment: nat, meanwhile: Meanwhile)
      requires Apart(Contents())
      modifies this
      ensures Contents() == Happened(old(Contents()), Detach(attachment, meanwhile))
    {
      if generation != attachment { return; }
      OwnersInRange(Contents());
      commandsAttached := false;
      EndEach(streamSinks.Values, meanwhile);
      EndEach(metricSinks.Values, meanwhile);
      EndedTwice(old(queues), streamSinks.Values, metricSinks.Values, meanwhile);
      streamSinks, metricSinks := map[], map[];
    }

    method OpenStreamSink(id: string, recent: bool) returns (registered: bool)
      modifies this
      ensures Contents() == Happened(old(Contents()), OpenStream(id, recent))
      ensures registered == (old(commandsAttached) && recent)
    {
      registered := commandsAttached && recent;
      if !registered { return; }
      streamSinks := streamSinks[id := |queues|];
      queues := queues + [NewSink(STREAM_CAPACITY)];
    }

    /** sendCommand up to the release of its lock. */
    method TakeCommandQueue(command: string, recent: bool) returns (sender: Option<nat>)
      requires OwnQueues(Contents())
      modifies this`senders
      ensures Contents() == Happened(old(Contents()), TakeQueue(command, recent)) && OwnQueues(Contents())
      ensures sender == if commandsAttached && recent then Some(|old(senders)|) else None
      ensures sender.Some? ==> senders[sender.value] == Sender(generation, command, true)
    {
      if !commandsAttached || !recent { return None; }
      sender := Some(|senders|);
      senders := senders + [Sender(generation, command, true)];
    }

    /** Its send, once there is room in the queue it took. */
    method SendCommand(sender: nat) returns (sent: bool)
      requires OwnQueues(Contents()) && sender < |senders| && senders[sender].waiting
      modifies this`commands, this`senders
      ensures Contents() == Happened(old(Contents()), Send(sender)) && OwnQueues(Contents())
      ensures var g := old(senders)[sender].generation;
        && sent == (|old(commands)[g]| < COMMAND_CAPACITY)
        && commands[g] == old(commands)[g] + (if sent then [old(senders)[sender].command] else [])
        && forall h :: 0 <= h < |commands| && h != g ==> commands[h] == old(commands)[h]
    {
      var g := senders[sender].generation;
      sent := |commands[g]| < COMMAND_CAPACITY;
      if sent {
        commands := commands[g := commands[g] + [senders[sender].command]];
        senders := senders[sender := senders[sender].(waiting := false)];
      }
    }
  }

  lemma OwnersInRange(a: Attachments)
    requires Named(a)
    ensures forall q :: q in a.streamSinks.Values ==> q < |a.queues|
    ensures forall q :: q in a.metricSinks.Values ==> q < |a.queues|
  {
    forall q | q in a.streamSinks.Values || q in a.metricSinks.Values ensures q < |a.queues| {
      assert q in Owned(a);
    }
  }

  lemma EndedNone(queues: seq<Sink>, meanwhile: Meanwhile)
    ensures AllEnded(queues, {}, meanwhile) == queues
  {
  }

  lemma EndedOneMore(queues: seq<Sink>, done: set<nat>, q: nat, meanwhile: Meanwhile)
    requires q < |queues| && q !in done
    ensures var now := AllEnded(queues, done, meanwhile);
      |now| == |queues| && now[q] == queues[q]
      && now[q := Ending(queues[q], meanwhile, q)] == AllEnded(queues, done + {q}, meanwhile)
  {
    hide Ending;
  }

  lemma EndedTwice(queues: seq<Sink>, some: set<nat>, others: set<nat>, meanwhile: Meanwhile)
    requires some !! others
    ensures AllEnded(AllEnded(queues, some, meanwhile), others, meanwhile) == AllEnded(queues, some + others, meanwhile)
  {
    hide Ending;
  }

  ghost predicate Injective(sinks: map<string, nat>) {
    forall id, id' :: id in sinks && id' in sinks && sinks[id] == sinks[id'] ==> id == id'
  }

  /** No two names, of streams or of metric streams, name one queue. */
  ghost predicate Apart(a: Attachments) {
    && Injective(a.streamSinks) && Injective(a.metricSinks)
    && a.streamSinks.Values !! a.metricSinks.Values && Named(a)
  }

  lemma HappenedApart(a: Attachments, e: Event)
    requires Apart(a)
    ensures Apart(Happened(a, e))
  {
    hide Perform, Ending, Injective, AllEnded, Happened;
    HappenedNamed(a, e, 0);
    OwnersInRange(a);
    HappenedInjective(a, e);
    forall q ensures !(q in Happened(a, e).streamSinks.Values && q in Happened(a, e).metricSinks.Values) {
      SinkIsOldOrNew(a, e, q);
    }
  }

  lemma HappenedInjective(a: Attachments, e: Event)
    requires Injective(a.streamSinks) && Injective(a.metricSinks) && Named(a)
    ensures Injective(Happened(a, e).streamSinks) && Injective(Happened(a, e).metricSinks)
  {
    hide Perform, Ending, AllEnded, Owned;
    OwnersInRange(a);
    forall id | id in a.streamSinks ensures a.streamSinks[id] < |a.queues| {
      assert a.streamSinks[id] in a.streamSinks.Values;
    }
    forall id | id in a.metricSinks ensures a.metricSinks[id] < |a.queues| {
      assert a.metricSinks[id] in a.metricSinks.Values;
    }
  }

  lemma SinkIsOldOrNew(a: Attachments, e: Event, q: nat)
    ensures q in Happened(a, e).streamSinks.Values ==> q in a.streamSinks.Values || (q == |a.queues| && e.OpenStream?)
    ensures q in Happened(a, e).metricSinks.Values ==> q in a.metricSinks.Values || (q == |a.queues| && e.OpenMetrics?)
  {
    hide AllEnded, Perform;
  }

  /** No two open streams share a queue, in any run. */
  lemma {:induction false} AlwaysApart(events: seq<Event>)
    ensures Apart(After(events))
  {
    hide Happened, Apart;
    if events == [] {
      NobodyApart();
    } else {
      AlwaysApart(events[..|events| - 1]);
      HappenedApart(After(events[..|events| - 1]), events[|events| - 1]);
    }
  }

  lemma NobodyApart()
    ensures Apart(UNATTACHED)
  {
  }
}
