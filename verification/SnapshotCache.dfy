/** The metrics snapshot cache (internal/metrics/manager.go): concurrent callers
    share one load, and an invalidation forgets what was cached. Each step below
    is one lock region, a wait, or the end of a load; steps of different calls
    interleave in any way. */
module SnapshotCache {
  import opened Wrappers

  /** What a load gives: items, or an error, which is cached as well. */
  datatype Payload = Payload(items: seq<string>, err: Option<string>)

  /** created and began are instants: when the entry was made, and when the load
      that filled it began. loading names the call that is loading. */
  datatype Entry = Entry(connection: string, created: nat, payload: Option<Payload>, began: nat, loading: Option<nat>)

  /** snapshots names entries; an entry that is no longer named is an orphan. */
  datatype Cache = Cache(snapshots: map<string, nat>, entries: seq<Entry>)

  datatype Outcome = Hit(payload: Payload, began: nat) | Wait(loader: nat) | Load(entry: nat)

  /** Where a call of Snapshot is. */
  datatype Point =
    Top | Waiting(loader: nat) | Loading(entry: nat, began: nat) | Returned(payload: Payload, began: nat) | Abandoned

  /** floor is the instant of the last invalidation before the call started. */
  datatype Call = Call(connection: string, floor: nat, at: Point)

  /** loads is every finished load: its connection, the instant it began and what
      it gave. */
  datatype World = World(
    cache: Cache, calls: seq<Call>, now: nat, invalidated: map<string, nat>, loads: set<(string, nat, Payload)>)

  datatype Step =
    Begin(connection: string) | LookUp(call: nat, young: bool) | Wake(call: nat) | GiveUp(call: nat)
    | Finish(call: nat, payload: Payload) | Invalidate(connection: string)

  // --------------------------------------------------------------- lock regions

  predicate Known(c: Cache, connection: string) {
    connection in c.snapshots && c.snapshots[connection] < |c.entries|
  }

  /** The lock region at the top of Snapshot's loop; young says that the cached
      data is younger than the caller's limit. */
  function Looked(c: Cache, connection: string, young: bool, caller: nat, now: nat): (Cache, Outcome) {
    if !Known(c, connection) then
      var entry := Entry(connection, now, None, 0, Some(caller));
      (Cache(c.snapshots[connection := |c.entries|], c.entries + [entry]), Load(|c.entries|))
    else
      var e := c.snapshots[connection];
      var entry := c.entries[e];
      if entry.loading.None? && entry.payload.Some? && young then (c, Hit(entry.payload.value, entry.began))
      else if entry.loading.Some? then (c, Wait(entry.loading.value))
      else (c.(entries := c.entries[e := entry.(loading := Some(caller))]), Load(e))
  }

  /** The lock region after a load. */
  function Stored(c: Cache, e: nat, payload: Payload, began: nat): Cache {
    if e >= |c.entries| then c
    else c.(entries := c.entries[e := c.entries[e].(payload := Some(payload), began := began, loading := None)])
  }

  /** InvalidateSnapshot */
  function Forgotten(c: Cache, connection: string): Cache {
    c.(snapshots := c.snapshots - {connection})
  }

  class Manager {
    var snapshots: map<string, nat>
    var entries: seq<Entry>

    ghost function Contents(): Cache
      reads this
    {
      Cache(snapshots, entries)
    }

    constructor ()
      ensures Contents() == Cache(map[], [])
    {
      snapshots, entries := map[], [];
    }

    method Look(connection: string, young: bool, caller: nat, now: nat) returns (outcome: Outcome)
      requires connection in snapshots ==> Known(Contents(), connection)
      modifies this
      ensures (Contents(), outcome) == Looked(old(Contents()), connection, young, caller, now)
    {
      if connection in snapshots {
        var entry := entries[snapshots[connection]];
        if entry.loading.None? && entry.payload.Some? && young {
          return Hit(entry.payload.value, entry.began);
        }
        if entry.loading.Some? {
          return Wait(entry.loading.value);
        }
      } else {
        snapshots := snapshots[connection := |entries|];
        entries := entries + [Entry(connection, now, None, 0, None)];
      }
      var e := snapshots[connection];
      entries := entries[e := entries[e].(loading := Some(caller))];
      outcome := Load(e);
      if connection !in old(snapshots) {
        assert entries == old(entries) + [Entry(connection, now, None, 0, Some(caller))];
      }
    }

    /** The entry is written even when it has become an orphan. */
    method Store(e: nat, payload: Payload, began: nat)
      requires e < |entries|
      modifies this`entries
      ensures Contents() == Stored(old(Contents()), e, payload, began)
    {
      entries := entries[e := entries[e].(payload := Some(payload), began := began, loading := None)];
    }

    method InvalidateSnapshot(connection: string)
      modifies this`snapshots
      ensures Contents() == Forgotten(old(Contents()), connection)
    {
      snapshots := snapshots - {connection};
    }
  }

  // ---------------------------------------------------------------------- steps

  const START := World(Cache(map[], []), [], 0, map[], {})

  function LastInvalidated(w: World, connection: string): nat {
    if connection in w.invalidated then w.invalidated[connection] else 0
  }

  predicate Enabled(w: World, step: Step) {
    match step
    case Begin(_) => true
    case LookUp(t, _) => t < |w.calls| && w.calls[t].at.Top?
    case Wake(t) => t < |w.calls| && w.calls[t].at.Waiting? && Finished(w, w.calls[t].at.loader)
    case GiveUp(t) => t < |w.calls| && w.calls[t].at.Waiting?
    case Finish(t, _) => t < |w.calls| && w.calls[t].at.Loading?
    case Invalidate(_) => true
  }

  /** The channel of a load is closed when the load is over. */
  predicate Finished(w: World, loader: nat) {
    loader < |w.calls| && !w.calls[loader].at.Loading?
  }

  function Arrived(outcome: Outcome, now: nat): Point {
    match outcome
    case Hit(payload, began) => Returned(payload, began)
    case Wait(loader) => Waiting(loader)
    case Load(e) => Loading(e, now)
  }

  function Moved(w: World, t: nat, at: Point): World
    requires t < |w.calls|
  {
    w.(calls := w.calls[t := w.calls[t].(at := at)], now := w.now + 1)
  }

  function Perform(w: World, step: Step): World
    requires Enabled(w, step)
  {
    match step
    case Begin(connection) =>
      w.(calls := w.calls + [Call(connection, LastInvalidated(w, connection), Top)], now := w.now + 1)
    case LookUp(t, young) =>
      var (cache, outcome) := Looked(w.cache, w.calls[t].connection, young, t, w.now);
      Moved(w, t, Arrived(outcome, w.now)).(cache := cache)
    case Wake(t) => Moved(w, t, Top)
    case GiveUp(t) => Moved(w, t, Abandoned)
    case Finish(t, payload) =>
      var at := w.calls[t].at;
      Moved(w, t, Returned(payload, at.began)).(cache := Stored(w.cache, at.entry, payload, at.began),
          loads := w.loads + {(w.calls[t].connection, at.began, payload)})
    case Invalidate(connection) =>
      w.(cache := Forgotten(w.cache, connection),
         invalidated := w.invalidated[connection := w.now + 1], now := w.now + 1)
  }

  /** The world after a run, in which steps that are not enabled do nothing. */
  function After(steps: seq<Step>): World {
    if steps == [] then START
    else
      var before := After(steps[..|steps| - 1]);
      if Enabled(before, steps[|steps| - 1]) then Perform(before, steps[|steps| - 1]) else before
  }

  // ----------------------------------------------------------------- invariants

  predicate EntryRight(w: World, e: nat)
    requires e < |w.cache.entries|
  {
    var entry := w.cache.entries[e];
    && entry.created <= w.now
    && (entry.payload.Some? ==>
      entry.began >= entry.created && (entry.connection, entry.began, entry.payload.value) in w.loads)
    && (entry.loading.Some? ==>
      entry.loading.value < |w.calls| && w.calls[entry.loading.value].at.Loading?
        && w.calls[entry.loading.value].at.entry == e)
  }

  predicate NameRight(w: World, connection: string)
    requires connection in w.cache.snapshots
  {
    var e := w.cache.snapshots[connection];
    e < |w.cache.entries| && w.cache.entries[e].connection == connection
      && w.cache.entries[e].created >= LastInvalidated(w, connection)
  }

  predicate CallRight(w: World, t: nat)
    requires t < |w.calls|
  {
    var call := w.calls[t];
    && call.floor <= LastInvalidated(w, call.connection) <= w.now
    && match call.at
       case Top => true
       case Abandoned => true
       case Waiting(loader) => loader < |w.calls| && loader != t && !w.calls[loader].at.Top?
         && !w.calls[loader].at.Waiting?
       case Loading(e, began) =>
         && e < |w.cache.entries| && w.cache.entries[e].loading == Some(t)
         && w.cache.entries[e].connection == call.connection
         && began >= w.cache.entries[e].created && began >= call.floor
       case Returned(payload, began) => began >= call.floor && (call.connection, began, payload) in w.loads
  }

  ghost predicate Right(w: World) {
    && (forall e :: 0 <= e < |w.cache.entries| ==> EntryRight(w, e))
    && (forall c :: c in w.cache.snapshots ==> NameRight(w, c))
    && (forall t :: 0 <= t < |w.calls| ==> CallRight(w, t))
    && (forall c :: c in w.invalidated ==> w.invalidated[c] <= w.now)
  }

  lemma BegunRight(w: World, connection: string)
    requires Right(w)
    ensures Right(Perform(w, Begin(connection)))
  {
    var w' := Perform(w, Begin(connection));
    forall e | 0 <= e < |w'.cache.entries| ensures EntryRight(w', e) { assert EntryRight(w, e); }
    forall c | c in w'.cache.snapshots ensures NameRight(w', c) { assert NameRight(w, c); }
    forall t | 0 <= t < |w'.calls| ensures CallRight(w', t) { if t < |w.calls| { assert CallRight(w, t); } }
  }

  lemma InvalidatedRight(w: World, connection: string)
    requires Right(w)
    ensures Right(Perform(w, Invalidate(connection)))
  {
    var w' := Perform(w, Invalidate(connection));
    forall e | 0 <= e < |w'.cache.entries| ensures EntryRight(w', e) { assert EntryRight(w, e); }
    forall c | c in w'.cache.snapshots ensures NameRight(w', c) { assert NameRight(w, c); }
    forall t | 0 <= t < |w'.calls| ensures CallRight(w', t) { assert CallRight(w, t); }
  }

  /** Leaving a wait, by waking or by giving up. */
  lemma LeftWaitRight(w: World, t: nat, at: Point)
    requires Right(w) && t < |w.calls| && w.calls[t].at.Waiting? && (at.Top? || at.Abandoned?)
    ensures Right(Moved(w, t, at))
  {
    var w' := Moved(w, t, at);
    forall e | 0 <= e < |w'.cache.entries| ensures EntryRight(w', e) { assert EntryRight(w, e); }
    forall c | c in w'.cache.snapshots ensures NameRight(w', c) { assert NameRight(w, c); }
    forall u | 0 <= u < |w'.calls| ensures CallRight(w', u) { assert CallRight(w, u); }
  }

  lemma LookedEntryRight(w: World, t: nat, young: bool, e: nat)
    requires Right(w) && Enabled(w, LookUp(t, young)) && e < |Perform(w, LookUp(t, young)).cache.entries|
    ensures EntryRight(Perform(w, LookUp(t, young)), e)
  {
    assert CallRight(w, t);
    if e < |w.cache.entries| { assert EntryRight(w, e); }
  }

  lemma LookedNameRight(w: World, t: nat, young: bool, c: string)
    requires Right(w) && Enabled(w, LookUp(t, young)) && c in Perform(w, LookUp(t, young)).cache.snapshots
    ensures NameRight(Perform(w, LookUp(t, young)), c)
  {
    assert CallRight(w, t);
    if c in w.cache.snapshots { assert NameRight(w, c); }
  }

  lemma LookedOwnCallRight(w: World, t: nat, young: bool)
    requires Right(w) && Enabled(w, LookUp(t, young))
    ensures CallRight(Perform(w, LookUp(t, young)), t)
  {
    assert CallRight(w, t);
    var connection := w.calls[t].connection;
    if connection in w.cache.snapshots {
      assert NameRight(w, connection) && EntryRight(w, w.cache.snapshots[connection]);
    }
  }

  lemma LookedOtherCallRight(w: World, t: nat, young: bool, u: nat)
    requires Right(w) && Enabled(w, LookUp(t, young)) && u < |w.calls| && u != t
    ensures CallRight(Perform(w, LookUp(t, young)), u)
  {
    assert CallRight(w, t) && CallRight(w, u);
  }

  lemma LookedRight(w: World, t: nat, young: bool)
    requires Right(w) && Enabled(w, LookUp(t, young))
    ensures Right(Perform(w, LookUp(t, young)))
  {
    hide EntryRight, NameRight, CallRight, Looked;
    var w' := Perform(w, LookUp(t, young));
    forall e | 0 <= e < |w'.cache.entries| ensures EntryRight(w', e) { LookedEntryRight(w, t, young, e); }
    forall c | c in w'.cache.snapshots ensures NameRight(w', c) { LookedNameRight(w, t, young, c); }
    forall u | 0 <= u < |w'.calls| ensures CallRight(w', u) {
      if u == t { LookedOwnCallRight(w, t, young); } else { LookedOtherCallRight(w, t, young, u); }
    }
  }

  lemma FinishedRight(w: World, t: nat, payload: Payload)
    requires Right(w) && Enabled(w, Finish(t, payload))
    ensures Right(Perform(w, Finish(t, payload)))
  {
    var w' := Perform(w, Finish(t, payload));
    assert CallRight(w, t);
    forall e | 0 <= e < |w'.cache.entries| ensures EntryRight(w', e) { assert EntryRight(w, e); }
    forall c | c in w'.cache.snapshots ensures NameRight(w', c) { assert NameRight(w, c); }
    forall u | 0 <= u < |w'.calls| ensures CallRight(w', u) { assert CallRight(w, u); }
  }

  lemma {:induction false} AlwaysRight(steps: seq<Step>)
    ensures Right(After(steps))
  {
    hide Right, Perform;
    if steps == [] {
      StartRight();
    } else {
      var w, step := After(steps[..|steps| - 1]), steps[|steps| - 1];
      AlwaysRight(steps[..|steps| - 1]);
      if Enabled(w, step) { PerformRight(w, step); }
    }
  }

  lemma StartRight()
    ensures Right(START)
  {
  }

  lemma PerformRight(w: World, step: Step)
    requires Right(w) && Enabled(w, step)
    ensures Right(Perform(w, step))
  {
    hide Right, Looked, Stored, Forgotten;
    match step
    case Begin(connection) => BegunRight(w, connection);
    case LookUp(t, young) => LookedRight(w, t, young);
    case Wake(t) => LeftWaitRight(w, t, Top);
    case GiveUp(t) => LeftWaitRight(w, t, Abandoned);
    case Finish(t, payload) => FinishedRight(w, t, payload);
    case Invalidate(connection) => InvalidatedRight(w, connection);
  }

  // --------------------------------------------------------------- what it means

  /** Each entry has at most one load in flight. */
  lemma OneLoadPerEntry(steps: seq<Step>, t: nat, u: nat)
    requires var w := After(steps);
      t < |w.calls| && u < |w.calls| && w.calls[t].at.Loading? && w.calls[u].at.Loading?
    requires After(steps).calls[t].at.entry == After(steps).calls[u].at.entry
    ensures t == u
  {
    hide After;
    AlwaysRight(steps);
    assert CallRight(After(steps), t) && CallRight(After(steps), u);
  }

  /** In every interleaving, a call that starts after an invalidation returns what a
      load gave that began after it. */
  lemma NoStaleSnapshot(before: seq<Step>, connection: string, between: seq<Step>, later: seq<Step>, t: nat)
    requires t == |After(before + [Invalidate(connection)] + between).calls|
    requires var w := After(before + [Invalidate(connection)] + between + [Begin(connection)] + later);
      t < |w.calls| && w.calls[t].at.Returned?
    ensures var w := After(before + [Invalidate(connection)] + between + [Begin(connection)] + later);
      var at := w.calls[t].at;
      (connection, at.began, at.payload) in w.loads && at.began > After(before).now
  {
    hide After, Perform;
    var s1 := before + [Invalidate(connection)];
    var s3 := s1 + between + [Begin(connection)];
    AlwaysRight(s3 + later);
    AfterLast(before, Invalidate(connection));
    AfterLast(s1 + between, Begin(connection));
    InvalidationsGrow(s1, between, connection);
    BegunCall(After(s1 + between), connection);
    InvalidatedNow(After(before), connection);
    CallsKept(s3, later, t);
    assert CallRight(After(s3 + later), t);
  }

  lemma BegunCall(w: World, connection: string)
    ensures var w' := Perform(w, Begin(connection));
      |w'.calls| == |w.calls| + 1 && w'.calls[|w.calls|] == Call(connection, LastInvalidated(w, connection), Top)
  {
  }

  lemma InvalidatedNow(w: World, connection: string)
    ensures LastInvalidated(Perform(w, Invalidate(connection)), connection) == w.now + 1
  {
  }

  lemma AfterLast(steps: seq<Step>, step: Step)
    ensures After(steps + [step]) == if Enabled(After(steps), step) then Perform(After(steps), step) else After(steps)
  {
    assert (steps + [step])[..|steps|] == steps;
  }

  lemma PerformGrows(w: World, step: Step, connection: string)
    requires Right(w) && Enabled(w, step)
    ensures LastInvalidated(w, connection) <= LastInvalidated(Perform(w, step), connection)
  {
    hide Looked, Stored, Forgotten;
  }

  lemma {:induction false} InvalidationsGrow(earlier: seq<Step>, later: seq<Step>, connection: string)
    ensures LastInvalidated(After(earlier), connection) <= LastInvalidated(After(earlier + later), connection)
    decreases |later|
  {
    hide After, Perform, Right;
    if later == [] {
      assert earlier + later == earlier;
    } else {
      var front := later[..|later| - 1];
      InvalidationsGrow(earlier, front, connection);
      assert earlier + later == (earlier + front) + [later[|later| - 1]];
      AfterLast(earlier + front, later[|later| - 1]);
      AlwaysRight(earlier + front);
      if Enabled(After(earlier + front), later[|later| - 1]) {
        PerformGrows(After(earlier + front), later[|later| - 1], connection);
      }
    }
  }

  lemma PerformKeepsCall(w: World, step: Step, t: nat)
    requires Enabled(w, step) && t < |w.calls|
    ensures t < |Perform(w, step).calls|
    ensures Perform(w, step).calls[t].connection == w.calls[t].connection
      && Perform(w, step).calls[t].floor == w.calls[t].floor
  {
    hide Looked, Stored, Forgotten;
  }

  lemma {:induction false} CallsKept(earlier: seq<Step>, later: seq<Step>, t: nat)
    requires t < |After(earlier).calls|
    ensures var w, w' := After(earlier), After(earlier + later);
      t < |w'.calls| && w'.calls[t].connection == w.calls[t].connection && w'.calls[t].floor == w.calls[t].floor
    decreases |later|
  {
    hide After, Perform;
    if later == [] {
      assert earlier + later == earlier;
    } else {
      var front := later[..|later| - 1];
      CallsKept(earlier, front, t);
      assert earlier + later == (earlier + front) + [later[|later| - 1]];
      AfterLast(earlier + front, later[|later| - 1]);
      if Enabled(After(earlier + front), later[|later| - 1]) {
        PerformKeepsCall(After(earlier + front), later[|later| - 1], t);
      }
    }
  }

  // ------------------------------------------------- what a look comes to, and single flight

  /** A call is loading for this connection since its last invalidation. */
  predicate Flies(w: World, connection: string, u: nat) {
    && u < |w.calls| && w.calls[u].connection == connection
    && w.calls[u].at.Loading? && w.calls[u].at.began >= LastInvalidated(w, connection)
  }

  /** A call has returned data of this connection that was loaded since its last
      invalidation. */
  predicate HasReturned(w: World, connection: string, u: nat) {
    && u < |w.calls| && w.calls[u].connection == connection
    && w.calls[u].at.Returned? && w.calls[u].at.began >= LastInvalidated(w, connection)
  }

  predicate IsNamed(w: World, connection: string, e: nat) {
    connection in w.cache.snapshots && w.cache.snapshots[connection] == e && e < |w.cache.entries|
  }

  predicate CallShared(w: World, u: nat)
    requires u < |w.calls|
  {
    var c := w.calls[u].connection;
    && (w.calls[u].at.Loading? ==> w.calls[u].at.began <= w.now)
    && (w.calls[u].at.Returned? ==> w.calls[u].at.began <= w.now)
    && (Flies(w, c, u) ==> IsNamed(w, c, w.calls[u].at.entry))
    && (HasReturned(w, c, u) ==>
          IsNamed(w, c, NamedEntry(w, c)) && w.cache.entries[NamedEntry(w, c)].payload.Some?)
  }

  function NamedEntry(w: World, connection: string): nat {
    if connection in w.cache.snapshots then w.cache.snapshots[connection] else 0
  }

  ghost predicate NameShared(w: World, connection: string) {
    IsNamed(w, connection, NamedEntry(w, connection)) && w.cache.entries[NamedEntry(w, connection)].payload.Some? ==>
      exists u :: HasReturned(w, connection, u)
  }

  /** What is loaded or in flight since an invalidation is the named entry's. */
  ghost predicate Shared(w: World) {
    && (forall u :: 0 <= u < |w.calls| ==> CallShared(w, u))
    && (forall c :: NameShared(w, c))
    && (forall e :: 0 <= e < |w.cache.entries| && w.cache.entries[e].payload.Some? ==>
          w.cache.entries[e].began <= w.now)
  }

  lemma LookedShared(w: World, t: nat, young: bool)
    requires Right(w) && Shared(w) && Enabled(w, LookUp(t, young))
    ensures Shared(Perform(w, LookUp(t, young)))
  {
    hide Right;
    var w', c := Perform(w, LookUp(t, young)), w.calls[t].connection;
    RightNamed(w, c);
    forall u | 0 <= u < |w'.calls| ensures CallShared(w', u) { assert CallShared(w, u); }
    forall d ensures NameShared(w', d) {
      assert NameShared(w, d);
      if u :| HasReturned(w, d, u) { assert HasReturned(w', d, u); }
    }
  }

  lemma RightNamed(w: World, connection: string)
    requires Right(w)
    ensures connection in w.cache.snapshots ==>
      && w.cache.snapshots[connection] < |w.cache.entries|
      && NameRight(w, connection) && EntryRight(w, w.cache.snapshots[connection])
  {
    if connection in w.cache.snapshots { assert NameRight(w, connection); }
  }

  lemma FinishedShared(w: World, t: nat, payload: Payload)
    requires Right(w) && Shared(w) && Enabled(w, Finish(t, payload))
    ensures Shared(Perform(w, Finish(t, payload)))
  {
    hide Right;
    var w', at := Perform(w, Finish(t, payload)), w.calls[t].at;
    RightCall(w, t);
    assert CallShared(w, t);
    forall u | 0 <= u < |w'.calls| ensures CallShared(w', u) { assert CallShared(w, u); }
    forall d ensures NameShared(w', d) {
      assert NameShared(w, d);
      RightNamed(w, d);
      if IsNamed(w', d, at.entry) {
        assert HasReturned(w', d, t);
      } else if u :| HasReturned(w, d, u) {
        assert HasReturned(w', d, u);
      }
    }
  }

  lemma RightCall(w: World, t: nat)
    requires Right(w) && t < |w.calls|
    ensures CallRight(w, t)
  {
  }

  lemma OthersShared(w: World, step: Step)
    requires Right(w) && Shared(w) && Enabled(w, step) && !step.LookUp? && !step.Finish?
    ensures Shared(Perform(w, step))
  {
    hide Right;
    var w' := Perform(w, step);
    forall u | 0 <= u < |w'.calls| ensures CallShared(w', u) { if u < |w.calls| { assert CallShared(w, u); } }
    forall d ensures NameShared(w', d) {
      assert NameShared(w, d);
      if u :| HasReturned(w, d, u) {
        if d in w'.cache.snapshots { assert HasReturned(w', d, u); }
      }
    }
  }

  lemma {:induction false} AlwaysShared(steps: seq<Step>)
    ensures Shared(After(steps))
  {
    hide Right, Shared, Perform;
    if steps == [] {
      StartShared();
    } else {
      var w, step := After(steps[..|steps| - 1]), steps[|steps| - 1];
      AlwaysShared(steps[..|steps| - 1]);
      AlwaysRight(steps[..|steps| - 1]);
      if Enabled(w, step) {
        match step {
          case LookUp(t, young) => LookedShared(w, t, young);
          case Finish(t, payload) => FinishedShared(w, t, payload);
          case _ => OthersShared(w, step);
        }
      }
    }
  }

  lemma StartShared()
    ensures Shared(START)
  {
  }

  /** In every run, a look waits exactly if a load for its connection is in flight
      that began since the last invalidation, returns exactly if there is none, the
      cached data is young enough and such a load has returned its data, and loads
      otherwise. */
  lemma LookDecides(steps: seq<Step>, t: nat, young: bool)
    requires Enabled(After(steps), LookUp(t, young))
    ensures var w := After(steps);
      var c, next := w.calls[t].connection, Perform(w, LookUp(t, young)).calls[t].at;
      var flying, cached := exists u :: Flies(w, c, u), exists u :: HasReturned(w, c, u);
      && (next.Waiting? <==> flying) && (next.Waiting? ==> Flies(w, c, next.loader))
      && (next.Returned? <==> !flying && young && cached)
      && (next.Loading? <==> !flying && !(young && cached))
  {
    hide After, Right;
    var w := After(steps);
    var c := w.calls[t].connection;
    AlwaysRight(steps);
    AlwaysShared(steps);
    RightNamed(w, c);
    assert NameShared(w, c);
    if u :| Flies(w, c, u) {
      assert CallShared(w, u);
      RightCall(w, u);
    }
    if u :| HasReturned(w, c, u) { assert CallShared(w, u); }
    if c in w.cache.snapshots && w.cache.entries[w.cache.snapshots[c]].loading.Some? {
      var loader := w.cache.entries[w.cache.snapshots[c]].loading.value;
      RightCall(w, loader);
      assert Flies(w, c, loader);
    }
  }

  /** Single flight: since an invalidation at most one load per connection is in
      flight, whichever entries there are. */
  lemma OneLoadPerConnection(steps: seq<Step>, connection: string, t: nat, u: nat)
    requires Flies(After(steps), connection, t) && Flies(After(steps), connection, u)
    ensures t == u
  {
    hide After;
    AlwaysShared(steps);
    assert CallShared(After(steps), t) && CallShared(After(steps), u);
    OneLoadPerEntry(steps, t, u);
  }

  /** No call is stuck: it can move, or it waits for a load that can finish. */
  lemma NobodyStuck(steps: seq<Step>, t: nat, payload: Payload)
    requires t < |After(steps).calls|
    ensures var w := After(steps);
      match w.calls[t].at
      case Top => Enabled(w, LookUp(t, true))
      case Waiting(loader) => Enabled(w, Wake(t)) || Enabled(w, Finish(loader, payload))
      case Loading(_, _) => Enabled(w, Finish(t, payload))
      case _ => true
  {
    hide After;
    AlwaysRight(steps);
    assert CallRight(After(steps), t);
  }

  /** In every run, a call that returns from a look gets the data of the entry named
      at that moment, from a load that began after the connection's last
      invalidation of all, whenever the call itself began: never an orphan's. */
  lemma HitsAreNamed(steps: seq<Step>, t: nat, young: bool)
    requires Enabled(After(steps), LookUp(t, young)) && After(steps + [LookUp(t, young)]).calls[t].at.Returned?
    ensures var w, at := After(steps), After(steps + [LookUp(t, young)]).calls[t].at;
      var connection := w.calls[t].connection;
      && young && connection in w.cache.snapshots
      && w.cache.entries[w.cache.snapshots[connection]].payload == Some(at.payload)
      && (connection, at.began, at.payload) in w.loads && at.began >= LastInvalidated(w, connection)
  {
    hide After;
    AlwaysRight(steps);
    AfterLast(steps, LookUp(t, young));
    var w := After(steps);
    if w.calls[t].connection in w.cache.snapshots {
      assert NameRight(w, w.calls[t].connection) && EntryRight(w, w.cache.snapshots[w.calls[t].connection]);
    }
  }
}
