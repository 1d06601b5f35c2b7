/** The bounded queues between a remote agent's messages and the streams reading
    them (internal/agent/hub.go). One producer sends to a queue at a time; its
    reader may receive between any two steps. */
module AgentQueues {
  import opened Wrappers

  /** A streamResult: a record, or the end with an optional error. */
  datatype Result = Data(record: string) | Terminal(err: Option<string>)

  /** How far the producer is inside sendTerminal. */
  datatype Phase = Idle | Trying(result: Result) | Evicting(result: Result) | Retrying(result: Result)

  /** taken is what OpenStream has received; sent says that some sendTerminal has
      returned. */
  datatype Sink = Sink(capacity: nat, queue: seq<Result>, taken: seq<Result>, phase: Phase, sent: bool)

  const TOO_SLOW := Terminal(Some("remote stream consumer is too slow"))

  /** Offer is a record message and End a final one; Proceed is the producer's
      next step inside sendTerminal. */
  datatype Step = Offer(record: string) | End(err: Option<string>) | Proceed | Take

  predicate HasRoom(s: Sink) {
    |s.queue| < s.capacity
  }

  /** OpenStream returns when it receives a terminal result. */
  predicate Ended(s: Sink) {
    s.taken != [] && s.taken[|s.taken| - 1].Terminal?
  }

  function Queued(s: Sink, result: Result): Sink {
    s.(queue := s.queue + [result])
  }

  /** What a step does; a step that cannot happen does nothing. */
  function Perform(s: Sink, step: Step): Sink {
    match step
    case Offer(record) =>
      if !s.phase.Idle? then s
      else if HasRoom(s) then Queued(s, Data(record))
      else s.(phase := Trying(TOO_SLOW))
    case End(err) => if s.phase.Idle? then s.(phase := Trying(Terminal(err))) else s
    case Proceed => Proceeded(s)
    case Take => if Ended(s) || s.queue == [] then s else s.(queue := s.queue[1..], taken := s.taken + [s.queue[0]])
  }

  /** sendTerminal: send, or else evict the oldest result and send again. */
  function Proceeded(s: Sink): Sink {
    match s.phase
    case Idle => s
    case Trying(result) => if HasRoom(s) then Queued(s, result).(phase := Idle, sent := true)
      else s.(phase := Evicting(result))
    case Evicting(result) => s.(queue := if s.queue == [] then [] else s.queue[1..], phase := Retrying(result))
    case Retrying(result) =>
      if HasRoom(s) then Queued(s, result).(phase := Idle, sent := true) else s.(phase := Idle, sent := true)
  }

  function Run(s: Sink, steps: seq<Step>): Sink {
    if steps == [] then s else Perform(Run(s, steps[..|steps| - 1]), steps[|steps| - 1])
  }

  function NewSink(capacity: nat): Sink {
    Sink(capacity, [], [], Idle, false)
  }

  // ------------------------------------------------------------ terminal delivery

  ghost predicate HasTerminal(queue: seq<Result>) {
    exists i :: 0 <= i < |queue| && queue[i].Terminal?
  }

  predicate Carries(phase: Phase) {
    phase.Idle? || phase.result.Terminal?
  }

  ghost predicate Right(s: Sink) {
    && 0 < s.capacity && |s.queue| <= s.capacity && Carries(s.phase)
    && (s.phase.Retrying? ==> HasRoom(s))
    && (s.sent && !s.phase.Retrying? ==> HasTerminal(s.queue) || Ended(s))
  }

  lemma PerformRight(s: Sink, step: Step)
    requires Right(s)
    ensures Right(Perform(s, step))
  {
    var s' := Perform(s, step);
    if s.sent && !s.phase.Retrying? && HasTerminal(s.queue) {
      var i :| 0 <= i < |s.queue| && s.queue[i].Terminal?;
      if s'.queue == s.queue || (exists r :: s'.queue == s.queue + [r]) {
        assert s'.queue[i].Terminal?;
      } else if step.Take? && i > 0 {
        assert s'.queue[i - 1].Terminal?;
      }
    }
    if !s.phase.Idle? && s'.queue == s.queue + [s.phase.result] {
      assert s'.queue[|s.queue|].Terminal?;
    }
  }

  lemma {:induction false} RunRight(s: Sink, steps: seq<Step>)
    requires Right(s)
    ensures Right(Run(s, steps)) && Run(s, steps).capacity == s.capacity
  {
    hide Perform, Right;
    if steps != [] {
      RunRight(s, steps[..|steps| - 1]);
      PerformRight(Run(s, steps[..|steps| - 1]), steps[|steps| - 1]);
      CapacityKept(Run(s, steps[..|steps| - 1]), steps[|steps| - 1]);
    }
  }

  lemma AlwaysRight(capacity: nat, steps: seq<Step>)
    requires 0 < capacity
    ensures Right(Run(NewSink(capacity), steps)) && Run(NewSink(capacity), steps).capacity == capacity
  {
    hide Run, Right;
    NewRight(capacity);
    RunRight(NewSink(capacity), steps);
  }

  lemma CapacityKept(s: Sink, step: Step)
    ensures Perform(s, step).capacity == s.capacity
  {
  }

  lemma NewRight(capacity: nat)
    requires 0 < capacity
    ensures Right(NewSink(capacity))
  {
  }

  /** sendTerminal always queues its result: whatever its reader receives in the
      meantime, the step that returns appends the result. */
  lemma SendTerminalQueues(capacity: nat, steps: seq<Step>)
    requires 0 < capacity
    requires var s := Run(NewSink(capacity), steps); !s.phase.Idle? && Perform(s, Proceed).phase.Idle?
    ensures var s := Run(NewSink(capacity), steps);
      s.phase.result.Terminal? && Perform(s, Proceed).queue == s.queue + [s.phase.result] && |s.queue| < capacity
  {
    hide Run;
    AlwaysRight(capacity, steps);
  }

  /** Once a sendTerminal has returned, a terminal result is queued or received,
      except between the eviction and the second send of a later sendTerminal. */
  lemma TerminalNeverLost(capacity: nat, steps: seq<Step>)
    requires 0 < capacity && Run(NewSink(capacity), steps).sent
    ensures var s := Run(NewSink(capacity), steps);
      HasTerminal(s.queue) || Ended(s) || (s.phase.Retrying? && s.phase.result.Terminal? && HasRoom(s))
  {
    hide Run, HasTerminal;
    AlwaysRight(capacity, steps);
  }

  // --------------------------------------------------------- how long a reader reads

  function Records(queue: seq<Result>): nat {
    if queue == [] then 0 else Records(queue[..|queue| - 1]) + if queue[|queue| - 1].Data? then 1 else 0
  }

  ghost predicate NoOffers(steps: seq<Step>) {
    forall i :: 0 <= i < |steps| ==> !steps[i].Offer?
  }

  lemma RecordsLast(queue: seq<Result>, result: Result)
    ensures Records(queue + [result]) == Records(queue) + if result.Data? then 1 else 0
  {
    assert (queue + [result])[..|queue|] == queue;
  }

  lemma {:induction false} RecordsFirst(queue: seq<Result>)
    requires queue != []
    ensures Records(queue) == Records(queue[1..]) + if queue[0].Data? then 1 else 0
  {
    if |queue| > 1 {
      var front, last := queue[..|queue| - 1], queue[|queue| - 1];
      RecordsFirst(front);
      assert queue[1..] == front[1..] + [last];
      RecordsLast(front[1..], last);
    } else {
      assert queue[..0] == [] && queue[1..] == [];
    }
  }

  lemma {:induction false} RecordsBound(queue: seq<Result>)
    ensures Records(queue) <= |queue|
    ensures HasTerminal(queue) ==> Records(queue) < |queue|
  {
    if queue != [] {
      var front := queue[..|queue| - 1];
      RecordsBound(front);
      if HasTerminal(queue) && queue[|queue| - 1].Data? {
        var i :| 0 <= i < |queue| && queue[i].Terminal?;
        assert front[i].Terminal?;
      }
    }
  }

  function Offers(steps: seq<Step>): nat {
    if steps == [] then 0 else Offers(steps[..|steps| - 1]) + if steps[|steps| - 1].Offer? then 1 else 0
  }

  /** Every receive that does not end the stream uses up a queued record, and
      only an offer adds one. */
  lemma BudgetStep(s: Sink, step: Step)
    requires Carries(s.phase)
    ensures Carries(Perform(s, step).phase)
    ensures Ended(Perform(s, step))
      || |Perform(s, step).taken| + Records(Perform(s, step).queue)
         <= |s.taken| + Records(s.queue) + if step.Offer? then 1 else 0
  {
    hide Records;
    if step.Offer? { RecordsLast(s.queue, Data(step.record)); }
    if step.Proceed? && !s.phase.Idle? { RecordsLast(s.queue, s.phase.result); }
    if s.queue != [] { RecordsFirst(s.queue); }
  }

  lemma {:induction false} BudgetRun(s: Sink, steps: seq<Step>)
    requires Carries(s.phase)
    ensures Carries(Run(s, steps).phase)
    ensures Ended(Run(s, steps))
      || |Run(s, steps).taken| + Records(Run(s, steps).queue) <= |s.taken| + Records(s.queue) + Offers(steps)
  {
    hide Records, Perform, Ended;
    if steps != [] {
      var front := steps[..|steps| - 1];
      BudgetRun(s, front);
      BudgetStep(Run(s, front), steps[|steps| - 1]);
      if Ended(Run(s, front)) { EndedKept(Run(s, front), steps[|steps| - 1]); }
    }
  }

  lemma EndedKept(s: Sink, step: Step)
    requires Ended(s)
    ensures Ended(Perform(s, step))
  {
  }

  /** Once a terminal result was sent, the reader ends by its (capacity + n)-th
      receive, where n records are still offered in the meantime, and except
      inside a later sendTerminal it always has something to receive. */
  lemma ReaderEnds(s: Sink, later: seq<Step>)
    requires Right(s) && s.sent && s.phase.Idle?
    ensures var s' := Run(s, later);
      && (|s'.taken| - |s.taken| >= s.capacity + Offers(later) ==> Ended(s'))
      && (!Ended(s') && !s'.phase.Retrying? ==> s'.queue != [])
  {
    hide Perform, Records, Ended, Offers;
    BudgetRun(s, later);
    RecordsBound(s.queue);
    RunRight(s, later);
    SentKept(s, later);
    if Ended(s) { NothingAfterEnd(s, later); }
  }

  lemma {:induction false} NoOffersMade(steps: seq<Step>)
    requires NoOffers(steps)
    ensures Offers(steps) == 0
  {
    if steps != [] { NoOffersMade(steps[..|steps| - 1]); }
  }

  /** In every run: when no further record is offered the reader ends by its
      capacity-th receive. */
  lemma QuietStreamEnds(capacity: nat, steps: seq<Step>, quiet: seq<Step>)
    requires 0 < capacity && NoOffers(quiet)
    requires var s := Run(NewSink(capacity), steps); s.sent && s.phase.Idle?
    ensures var s := Run(NewSink(capacity), steps);
      var s' := Run(s, quiet);
      && (|s'.taken| - |s.taken| >= capacity ==> Ended(s'))
      && (!Ended(s') && !s'.phase.Retrying? ==> s'.queue != [])
  {
    hide Run, Right, Offers;
    AlwaysRight(capacity, steps);
    NoOffersMade(quiet);
    ReaderEnds(Run(NewSink(capacity), steps), quiet);
  }

  lemma {:induction false} RunConcat(s: Sink, a: seq<Step>, b: seq<Step>)
    ensures Run(s, a + b) == Run(Run(s, a), b)
  {
    hide Perform;
    if b == [] {
      assert a + b == a;
    } else {
      RunConcat(s, a, b[..|b| - 1]);
      assert (a + b)[..|a + b| - 1] == a + b[..|b| - 1];
    }
  }

  lemma {:induction false} SentKept(s: Sink, steps: seq<Step>)
    requires s.sent
    ensures Run(s, steps).sent
  {
    if steps != [] { SentKept(s, steps[..|steps| - 1]); }
  }

  /** A reader that has ended receives nothing more. */
  lemma {:induction false} NothingAfterEnd(s: Sink, steps: seq<Step>)
    requires Ended(s)
    ensures Run(s, steps).taken == s.taken
  {
    if steps != [] { NothingAfterEnd(s, steps[..|steps| - 1]); }
  }

  // ---------------------------------------------------- order, and what can be lost

  /** a is what is left of b when some elements are taken out. */
  predicate PartOf(a: seq<Result>, b: seq<Result>) {
    a == [] || (b != [] && ((a[|a| - 1] == b[|b| - 1] && PartOf(a[..|a| - 1], b[..|b| - 1]))
                            || PartOf(a, b[..|b| - 1])))
  }

  lemma {:induction false} PartOfItself(a: seq<Result>)
    ensures PartOf(a, a)
  {
    if a != [] { PartOfItself(a[..|a| - 1]); }
  }

  lemma {:induction false} PartOfPart(a: seq<Result>, b: seq<Result>, c: seq<Result>)
    requires PartOf(a, b) && PartOf(b, c)
    ensures PartOf(a, c)
    decreases |c|, |b|
  {
    if a != [] && c != [] {
      var c' := c[..|c| - 1];
      if PartOf(b, c') {
        PartOfPart(a, b, c');
      } else if PartOf(a, b[..|b| - 1]) {
        PartOfPart(a, b[..|b| - 1], c');
      } else {
        PartOfPart(a[..|a| - 1], b[..|b| - 1], c');
      }
    }
  }

  lemma {:induction false} OneTakenOut(x: seq<Result>, y: seq<Result>, r: Result)
    ensures PartOf(x + y, x + [r] + y)
  {
    if y == [] {
      PartOfItself(x);
      assert x + y == x && (x + [r] + y)[..|x|] == x;
    } else {
      var n := |y| - 1;
      OneTakenOut(x, y[..n], r);
      assert (x + y)[..|x + y| - 1] == x + y[..n];
      assert (x + [r] + y)[..|x| + 1 + n] == x + [r] + y[..n];
    }
  }

  /** What a step sets out to send. */
  function SetOut(s: Sink, step: Step): seq<Result> {
    if !s.phase.Idle? then []
    else
      match step
      case Offer(record) => [if HasRoom(s) then Data(record) else TOO_SLOW]
      case End(err) => [Terminal(err)]
      case _ => []
  }

  function AllSetOut(s: Sink, steps: seq<Step>): seq<Result> {
    if steps == [] then []
    else AllSetOut(s, steps[..|steps| - 1]) + SetOut(Run(s, steps[..|steps| - 1]), steps[|steps| - 1])
  }

  function Unsent(phase: Phase): seq<Result> {
    if phase.Idle? then [] else [phase.result]
  }

  /** Everything received, queued or on its way, in order. */
  function Passage(s: Sink): seq<Result> {
    s.taken + s.queue + Unsent(s.phase)
  }

  /** The step evicts the oldest result, or gives up on its own. */
  predicate Loses(s: Sink, step: Step) {
    step.Proceed? && ((s.phase.Evicting? && s.queue != []) || (s.phase.Retrying? && !HasRoom(s)))
  }

  lemma AllKept(s: Sink, step: Step)
    requires !Loses(s, step)
    ensures Passage(Perform(s, step)) == Passage(s) + SetOut(s, step)
  {
    if step.Take? && s.queue != [] {
      assert s.taken + [s.queue[0]] + s.queue[1..] == s.taken + s.queue;
    }
  }

  lemma OneLost(s: Sink, step: Step)
    requires Loses(s, step)
    ensures PartOf(Passage(Perform(s, step)), Passage(s))
  {
    hide PartOf;
    if s.phase.Evicting? {
      OneTakenOut(s.taken, s.queue[1..] + [s.phase.result], s.queue[0]);
      assert s.taken + [s.queue[0]] + (s.queue[1..] + [s.phase.result]) == Passage(s);
      assert s.taken + (s.queue[1..] + [s.phase.result]) == Passage(Perform(s, step));
    } else {
      OneTakenOut(s.taken + s.queue, [], s.phase.result);
      assert s.taken + s.queue + [s.phase.result] + [] == Passage(s);
      assert s.taken + s.queue + [] == Passage(Perform(s, step));
    }
  }

  lemma StepKeepsOrder(s: Sink, step: Step)
    ensures PartOf(Passage(Perform(s, step)), Passage(s) + SetOut(s, step))
    ensures !Loses(s, step) ==> Passage(Perform(s, step)) == Passage(s) + SetOut(s, step)
  {
    hide PartOf, Perform, Passage;
    if Loses(s, step) {
      OneLost(s, step);
      assert Passage(s) + SetOut(s, step) == Passage(s);
    } else {
      AllKept(s, step);
      PartOfItself(Passage(s) + SetOut(s, step));
    }
  }

  lemma {:induction false} PartOfBoth(a: seq<Result>, b: seq<Result>, c: seq<Result>)
    requires PartOf(a, b)
    ensures PartOf(a + c, b + c)
  {
    if c == [] {
      assert a + c == a && b + c == b;
    } else {
      var n := |c| - 1;
      PartOfBoth(a, b, c[..n]);
      assert (a + c)[..|a + c| - 1] == a + c[..n] && (b + c)[..|b + c| - 1] == b + c[..n];
    }
  }

  /** In every run: what is received, queued or on its way is what the producer set
      out to send, in that order, with evicted results taken out; without an
      eviction it is all of it. */
  lemma {:induction false} OrderIsKept(capacity: nat, steps: seq<Step>)
    ensures PartOf(Passage(Run(NewSink(capacity), steps)), AllSetOut(NewSink(capacity), steps))
    ensures (forall i :: 0 <= i < |steps| ==> !Loses(Run(NewSink(capacity), steps[..i]), steps[i])) ==>
      Passage(Run(NewSink(capacity), steps)) == AllSetOut(NewSink(capacity), steps)
  {
    hide PartOf, Perform, SetOut, Loses, Passage;
    if steps == [] {
      NothingThrough(capacity);
    } else {
      var n := |steps| - 1;
      var front, s := steps[..n], Run(NewSink(capacity), steps[..n]);
      OrderIsKept(capacity, front);
      StepKeepsOrder(s, steps[n]);
      PartOfBoth(Passage(s), AllSetOut(NewSink(capacity), front), SetOut(s, steps[n]));
      PartOfPart(Passage(Perform(s, steps[n])), Passage(s) + SetOut(s, steps[n]),
                 AllSetOut(NewSink(capacity), front) + SetOut(s, steps[n]));
      forall i | 0 <= i < n ensures front[..i] == steps[..i] && front[i] == steps[i] {}
    }
  }

  lemma NothingThrough(capacity: nat)
    ensures Passage(NewSink(capacity)) == [] && PartOf([], [])
  {
  }

  // ----------------------------------------------- records after a terminal result

  function Repeat(step: Step, n: nat): seq<Step> {
    if n == 0 then [] else Repeat(step, n - 1) + [step]
  }

  function Blank(n: nat): seq<Result> {
    if n == 0 then [] else Blank(n - 1) + [Data("")]
  }

  lemma {:induction false} BlankLength(n: nat)
    ensures |Blank(n)| == n && (n > 0 ==> Blank(n)[0] == Data("") && Blank(n)[1..] == Blank(n - 1))
  {
    if n > 1 {
      BlankLength(n - 1);
      assert Blank(n)[1..] == Blank(n - 1)[1..] + [Data("")];
    } else if n == 1 {
      assert Blank(1) == [Data("")];
    }
  }

  /** A full queue whose results but for the oldest are records. */
  ghost predicate Brimming(s: Sink) {
    s.phase.Idle? && !Ended(s) && s.capacity >= 2 && |s.queue| == s.capacity && s.queue[1..] == Blank(s.capacity - 1)
  }

  /** One record too many: the oldest result, terminal or not, is evicted. */
  const AGAIN := [Offer(""), Proceed, Proceed, Proceed]

  lemma RunLast(s: Sink, steps: seq<Step>, step: Step)
    ensures Run(s, steps + [step]) == Perform(Run(s, steps), step)
  {
    assert (steps + [step])[..|steps|] == steps;
  }

  lemma NoSteps(s: Sink)
    ensures Run(s, []) == s
  {
  }

  lemma AgainMovesLast(s: Sink)
    requires Brimming(s)
    ensures Run(s, AGAIN) == s.(queue := Blank(s.capacity - 1) + [TOO_SLOW], sent := true)
  {
    hide Run;
    BlankLength(s.capacity - 1);
    RunLast(s, [], Offer(""));
    RunLast(s, [Offer("")], Proceed);
    RunLast(s, [Offer(""), Proceed], Proceed);
    RunLast(s, [Offer(""), Proceed, Proceed], Proceed);
    assert [] + [Offer("")] == [Offer("")] && [Offer("")] + [Proceed] == [Offer(""), Proceed];
    assert [Offer(""), Proceed] + [Proceed] == [Offer(""), Proceed, Proceed];
    assert [Offer(""), Proceed, Proceed] + [Proceed] == AGAIN;
    NoSteps(s);
  }

  lemma {:induction false} TakesRecords(s: Sink, n: nat, rest: seq<Result>)
    requires !Ended(s) && s.queue == Blank(n) + rest
    ensures var s' := Run(s, Repeat(Take, n));
      s' == s.(queue := rest, taken := s'.taken) && |s'.taken| == |s.taken| + n && !Ended(s')
  {
    if n == 0 {
      assert Blank(0) + rest == rest;
    } else {
      BlankLength(n);
      TakesFirst(s, n, rest);
      TakesRecords(s, n - 1, [Data("")] + rest);
      assert Blank(n - 1) + [Data("")] + rest == Blank(n - 1) + ([Data("")] + rest);
    }
  }

  lemma TakesFirst(s: Sink, n: nat, rest: seq<Result>)
    requires n > 0
    ensures Run(s, Repeat(Take, n)) == Perform(Run(s, Repeat(Take, n - 1)), Take)
  {
  }

  lemma {:induction false} OffersRecords(s: Sink, n: nat)
    requires s.phase.Idle? && |s.queue| + n <= s.capacity
    ensures Run(s, Repeat(Offer(""), n)) == s.(queue := s.queue + Blank(n))
  {
    BlankLength(n);
    if n == 0 {
      assert s.queue + Blank(0) == s.queue;
    } else {
      OffersRecords(s, n - 1);
      BlankLength(n - 1);
      assert s.queue + Blank(n - 1) + [Data("")] == s.queue + Blank(n);
    }
  }

  function Cycle(capacity: nat): seq<Step>
    requires capacity > 0
  {
    AGAIN + Repeat(Take, capacity - 1) + Repeat(Offer(""), capacity - 1)
  }

  lemma CycleRepeats(s: Sink)
    requires Brimming(s)
    ensures var s' := Run(s, Cycle(s.capacity));
      Brimming(s') && s'.sent && s'.capacity == s.capacity && |s'.taken| == |s.taken| + s.capacity - 1
  {
    hide Perform, Run, Repeat, Blank, Ended;
    var n := s.capacity - 1;
    AgainMovesLast(s);
    var s1 := s.(queue := Blank(n) + [TOO_SLOW], sent := true);
    EndedIs(s, s1);
    TakesRecords(s1, n, [TOO_SLOW]);
    var s2 := Run(s1, Repeat(Take, n));
    OffersRecords(s2, n);
    EndedIs(s2, s2.(queue := s2.queue + Blank(n)));
    RunConcat(s, AGAIN, Repeat(Take, n));
    RunConcat(s, AGAIN + Repeat(Take, n), Repeat(Offer(""), n));
    BlankLength(n);
    assert ([TOO_SLOW] + Blank(n))[1..] == Blank(n);
  }

  lemma EndedIs(s: Sink, s': Sink)
    requires s.taken == s'.taken
    ensures Ended(s) <==> Ended(s')
  {
  }

  function Cycles(capacity: nat, n: nat): seq<Step>
    requires capacity > 0
  {
    if n == 0 then [] else Cycles(capacity, n - 1) + Cycle(capacity)
  }

  lemma {:induction false} CyclesRepeat(s: Sink, n: nat)
    requires Brimming(s)
    ensures var s' := Run(s, Cycles(s.capacity, n));
      Brimming(s') && s'.capacity == s.capacity && |s'.taken| >= |s.taken| + n
  {
    hide Perform, Cycle, Ended, Blank;
    if n > 0 {
      CyclesRepeat(s, n - 1);
      RunConcat(s, Cycles(s.capacity, n - 1), Cycle(s.capacity));
      CycleRepeats(Run(s, Cycles(s.capacity, n - 1)));
    }
  }

  /** With records still being offered there is no such bound: for every n there
      is a run in which a sendTerminal has returned and the reader then receives
      n results without ever reaching a terminal one. */
  lemma ReaderCanStarve(capacity: nat, n: nat)
    requires capacity >= 2
    ensures var s := Run(NewSink(capacity), Repeat(Offer(""), capacity) + Cycle(capacity));
      var s' := Run(s, Cycles(capacity, n));
      s.sent && s.phase.Idle? && |s'.taken| >= |s.taken| + n && !Ended(s')
  {
    hide Perform, Run, Repeat, Blank, Cycle, Cycles;
    OffersRecords(NewSink(capacity), capacity);
    BlankLength(capacity);
    assert [] + Blank(capacity) == Blank(capacity);
    RunConcat(NewSink(capacity), Repeat(Offer(""), capacity), Cycle(capacity));
    var full := Run(NewSink(capacity), Repeat(Offer(""), capacity));
    CycleRepeats(full);
    CyclesRepeat(Run(full, Cycle(capacity)), n);
  }

  // -------------------------------------------------------- sendTerminal in one go

  /** A sendTerminal during which nothing is received. */
  function Terminated(s: Sink, err: Option<string>): Sink {
    s.(queue := (if HasRoom(s) || s.queue == [] then s.queue else s.queue[1..]) + [Terminal(err)], sent := true)
  }

  lemma TerminatedIsRun(s: Sink, err: Option<string>)
    requires s.phase.Idle? && 0 < s.capacity && |s.queue| <= s.capacity
    ensures Terminated(s, err) == Run(s, [End(err), Proceed, Proceed, Proceed])
  {
    hide Run;
    RunLast(s, [], End(err));
    RunLast(s, [End(err)], Proceed);
    RunLast(s, [End(err), Proceed], Proceed);
    RunLast(s, [End(err), Proceed, Proceed], Proceed);
    assert [] + [End(err)] == [End(err)] && [End(err)] + [Proceed] == [End(err), Proceed];
    assert [End(err), Proceed] + [Proceed] == [End(err), Proceed, Proceed];
    assert [End(err), Proceed, Proceed] + [Proceed] == [End(err), Proceed, Proceed, Proceed];
    NoSteps(s);
  }

  class StreamSink {
    const capacity: nat
    var queue: seq<Result>
    var taken: seq<Result>
    var sent: bool

    ghost function Contents(): Sink
      reads this
    {
      Sink(capacity, queue, taken, Idle, sent)
    }

    ghost predicate Valid()
      reads this
    {
      0 < capacity && |queue| <= capacity
    }

    constructor (capacity: nat)
      requires 0 < capacity
      ensures Valid() && Contents() == NewSink(capacity)
    {
      this.capacity := capacity;
      queue, taken, sent := [], [], false;
    }

    method TrySend(result: Result) returns (ok: bool)
      modifies this`queue
      ensures ok == (|old(queue)| < capacity) && queue == if ok then old(queue) + [result] else old(queue)
    {
      ok := |queue| < capacity;
      if ok { queue := queue + [result]; }
    }

    method SendTerminal(err: Option<string>)
      requires Valid()
      modifies this
      ensures Valid() && Contents() == Run(old(Contents()), [End(err), Proceed, Proceed, Proceed])
      ensures Terminal(err) in queue
    {
      TerminatedIsRun(Contents(), err);
      sent := true;
      var ok := TrySend(Terminal(err));
      if ok { return; }
      if queue != [] { queue := queue[1..]; }
      ok := TrySend(Terminal(err));
    }

    /** A record message: a reader that is too slow is told so and ended. */
    method HandleRecord(record: string)
      requires Valid()
      modifies this
      ensures Valid() && Contents() == Run(old(Contents()), [Offer(record), Proceed, Proceed, Proceed])
    {
      HandleRun(Contents(), record);
      var ok := TrySend(Data(record));
      if !ok { SendTerminal(TOO_SLOW.err); }
    }
  }

  lemma HandleRun(s: Sink, record: string)
    requires s.phase.Idle? && 0 < s.capacity && |s.queue| <= s.capacity
    ensures Run(s, [Offer(record), Proceed, Proceed, Proceed]) ==
      if HasRoom(s) then Queued(s, Data(record)) else Run(s, [End(TOO_SLOW.err), Proceed, Proceed, Proceed])
  {
    hide Run;
    var first := if HasRoom(s) then Queued(s, Data(record)) else s.(phase := Trying(TOO_SLOW));
    RunLast(s, [], Offer(record));
    RunLast(s, [Offer(record)], Proceed);
    RunLast(s, [Offer(record), Proceed], Proceed);
    RunLast(s, [Offer(record), Proceed, Proceed], Proceed);
    assert [] + [Offer(record)] == [Offer(record)] && [Offer(record)] + [Proceed] == [Offer(record), Proceed];
    assert [Offer(record), Proceed] + [Proceed] == [Offer(record), Proceed, Proceed];
    assert [Offer(record), Proceed, Proceed] + [Proceed] == [Offer(record), Proceed, Proceed, Proceed];
    NoSteps(s);
    TerminatedIsRun(s, TOO_SLOW.err);
  }

  // ---------------------------------------- sendTerminal while its reader receives

  /** How often the reader receives before each step of a sendTerminal. */
  datatype Gaps = Gaps(first: nat, second: nat, third: nat)

  function SendSteps(err: Option<string>, g: Gaps): seq<Step> {
    [End(err)] + Repeat(Take, g.first) + [Proceed] + Repeat(Take, g.second)
      + [Proceed] + Repeat(Take, g.third) + [Proceed]
  }

  /** A whole sendTerminal. */
  function Sending(s: Sink, err: Option<string>, g: Gaps): Sink {
    Run(s, SendSteps(err, g))
  }

  predicate Holds(s: Sink, result: Result) {
    result in s.queue || result in s.taken
  }

  predicate Through(s: Sink, result: Result) {
    s.phase.Idle? && s.sent && Holds(s, result)
  }

  /** The result is sent, or this phase of sending it is reached. */
  predicate Reached(s: Sink, result: Result, phase: Phase) {
    Through(s, result) || s.phase == phase
  }

  lemma {:induction false} TakesKeep(s: Sink, n: nat, result: Result, phase: Phase)
    requires Reached(s, result, phase)
    ensures Reached(Run(s, Repeat(Take, n)), result, phase)
  {
    hide Reached, Perform;
    if n > 0 {
      TakesKeep(s, n - 1, result, phase);
      TakeKeeps(Run(s, Repeat(Take, n - 1)), result, phase);
    }
  }

  lemma TakeKeeps(s: Sink, result: Result, phase: Phase)
    requires Reached(s, result, phase)
    ensures Reached(Perform(s, Take), result, phase)
  {
    if !Ended(s) && s.queue != [] && result in s.queue {
      assert s.queue == [s.queue[0]] + s.queue[1..];
    }
  }

  lemma ProceedReaches(s: Sink, result: Result)
    requires Right(s)
    ensures Reached(s, result, Trying(result)) ==> Reached(Perform(s, Proceed), result, Evicting(result))
    ensures Reached(s, result, Evicting(result)) ==> Reached(Perform(s, Proceed), result, Retrying(result))
    ensures Reached(s, result, Retrying(result)) ==> Through(Perform(s, Proceed), result)
  {
  }

  /** Whatever its reader receives in between, a sendTerminal leaves its result
      queued or received. */
  lemma SendingDelivers(s: Sink, err: Option<string>, g: Gaps)
    requires Right(s) && s.phase.Idle?
    ensures var s' := Sending(s, err, g);
      Right(s') && s'.capacity == s.capacity && s'.phase.Idle? && s'.sent && Holds(s', Terminal(err))
  {
    hide Right, Run, Perform, Repeat, Reached;
    var t := Terminal(err);
    var first := [End(err)] + Repeat(Take, g.first);
    var second := first + [Proceed] + Repeat(Take, g.second);
    var third := second + [Proceed] + Repeat(Take, g.third);
    RunRight(s, first);
    RunRight(s, second);
    RunRight(s, third);
    RunRight(s, SendSteps(err, g));
    RunLast(s, [], End(err));
    NoSteps(s);
    assert [] + [End(err)] == [End(err)];
    Begun(s, err);
    RunConcat(s, [End(err)], Repeat(Take, g.first));
    TakesKeep(Run(s, [End(err)]), g.first, t, Trying(t));
    ProceedThenTake(s, first, g.second, t, Trying(t), Evicting(t));
    ProceedThenTake(s, second, g.third, t, Evicting(t), Retrying(t));
    RunLast(s, third, Proceed);
    ProceedReaches(Run(s, third), t);
  }

  lemma Begun(s: Sink, err: Option<string>)
    requires s.phase.Idle?
    ensures Reached(Perform(s, End(err)), Terminal(err), Trying(Terminal(err)))
  {
  }

  lemma ProceedThenTake(s: Sink, steps: seq<Step>, n: nat, result: Result, phase: Phase, next: Phase)
    requires Right(Run(s, steps)) && Reached(Run(s, steps), result, phase)
    requires (phase == Trying(result) && next == Evicting(result))
      || (phase == Evicting(result) && next == Retrying(result))
    ensures Reached(Run(s, steps + [Proceed] + Repeat(Take, n)), result, next)
  {
    hide Right, Run, Perform, Repeat, Reached;
    RunLast(s, steps, Proceed);
    ProceedReaches(Run(s, steps), result);
    RunConcat(s, steps + [Proceed], Repeat(Take, n));
    TakesKeep(Run(s, steps + [Proceed]), n, result, next);
  }
}
