/** The pod-stream reconciler inside Stream (internal/kube/kubectl.go and
    internal/kube/incluster.go): one log stream per listed pod, restarted when
    the pod's containers change and cancelled when the pod is gone. */
module Reconciler {
  import opened Fingerprint
  import opened Wrappers

  datatype Pod = Pod(uid: string, namespace: string, name: string, phase: string, status: PodStatus)

  /** podIdentity */
  function Identity(pod: Pod): string {
    if pod.uid != "" then pod.uid else pod.namespace + "/" + pod.name
  }

  /** Streams are named by the order of their start. */
  datatype Entry = Entry(pod: Pod, fingerprint: string, stream: nat)
  datatype Start = Start(pod: Pod, includeRecentEvents: bool)

  /** StateChange stands for the records that podStateRecords gives. */
  datatype Output =
    Added(pod: Pod) | Removed(pod: Pod) | StateChange(previous: Pod, current: Pod) | Waiting | ReadError(text: string)

  datatype State = State(
    active: map<string, Entry>, waitingNotified: bool, lastReadError: string,
    started: seq<Start>, cancelled: set<nat>, out: seq<Output>)

  /** What one read of the cluster gives; order is the order in which the second
      loop happens to visit the active map. */
  datatype Listing = Pods(pods: seq<Pod>, order: seq<string>) | Failed(error: string)

  const INITIAL := State(map[], false, "", [], {}, [])

  // ---------------------------------------------------------------------- steps

  /** filterActivityPods */
  function Filtered(pods: seq<Pod>, name: string): (r: seq<Pod>)
    ensures name == "" ==> r == pods
    ensures name != "" && r == [] ==> forall i :: 0 <= i < |pods| ==> pods[i].name != name
    ensures name != "" && r != [] ==> exists i :: FirstNamed(pods, name, i) && r == [pods[i]]
  {
    if name == "" || pods == [] then pods
    else if pods[0].name == name then assert FirstNamed(pods, name, 0); [pods[0]]
    else
      var rest := Filtered(pods[1..], name);
      FirstNamedLater(pods, name);
      rest
  }

  /** The first pod of a name. */
  ghost predicate FirstNamed(pods: seq<Pod>, name: string, i: int) {
    0 <= i < |pods| && pods[i].name == name && forall j :: 0 <= j < i ==> pods[j].name != name
  }

  lemma FirstNamedLater(pods: seq<Pod>, name: string)
    requires pods != [] && pods[0].name != name
    ensures forall i :: FirstNamed(pods[1..], name, i) ==> FirstNamed(pods, name, i + 1) && pods[1..][i] == pods[i + 1]
    ensures (forall i :: 0 <= i < |pods[1..]| ==> pods[1..][i].name != name) ==>
      forall i :: 0 <= i < |pods| ==> pods[i].name != name
  {
    var rest := pods[1..];
    forall i | FirstNamed(rest, name, i) ensures FirstNamed(pods, name, i + 1) && rest[i] == pods[i + 1] {
      forall j | 0 <= j < i + 1 ensures pods[j].name != name {
        if j > 0 { assert pods[j] == rest[j - 1]; }
      }
    }
    if forall i :: 0 <= i < |rest| ==> rest[i].name != name {
      forall i | 0 <= i < |pods| ensures pods[i].name != name {
        if i > 0 { assert pods[i] == rest[i - 1]; }
      }
    }
  }

  function Emitted(st: State, record: Output): State {
    st.(out := st.out + [record])
  }

  function Started(st: State, pod: Pod, includeRecentEvents: bool): State {
    st.(active := st.active[Identity(pod) := Entry(pod, FingerprintOf(pod.status), |st.started|)],
        started := st.started + [Start(pod, includeRecentEvents)])
  }

  function Cancelled(st: State, key: string): State
    requires key in st.active
  {
    st.(active := st.active - {key}, cancelled := st.cancelled + {st.active[key].stream})
  }

  /** One turn of the first loop. */
  function Visited(st: State, pod: Pod): State {
    var key := Identity(pod);
    if key !in st.active then Started(Emitted(st, Added(pod)), pod, true)
    else
      var current := st.active[key];
      var changed := Emitted(st, StateChange(current.pod, pod));
      if FingerprintOf(pod.status) != current.fingerprint then Started(Cancelled(changed, key), pod, false)
      else changed.(active := changed.active[key := current.(pod := pod)])
  }

  function VisitedAll(st: State, pods: seq<Pod>): State {
    if pods == [] then st else Visited(VisitedAll(st, pods[..|pods| - 1]), pods[|pods| - 1])
  }

  function Identities(pods: seq<Pod>): set<string> {
    set p | p in pods :: Identity(p)
  }

  /** One turn of the second loop. */
  function Dropped(st: State, seen: set<string>, key: string): State {
    if key in st.active && key !in seen then Emitted(Cancelled(st, key), Removed(st.active[key].pod)) else st
  }

  function DroppedAll(st: State, seen: set<string>, order: seq<string>): State {
    if order == [] then st else Dropped(DroppedAll(st, seen, order[..|order| - 1]), seen, order[|order| - 1])
  }

  function Noticed(st: State, empty: bool): State {
    if empty && !st.waitingNotified then Emitted(st, Waiting).(waitingNotified := true)
    else if !empty then st.(waitingNotified := false)
    else st
  }

  /** reconcile, after the first pass. */
  function Reconciled(st: State, listing: Listing, name: string): State {
    match listing
    case Failed(error) =>
      if error != st.lastReadError then Emitted(st, ReadError(error)).(lastReadError := error) else st
    case Pods(pods, order) =>
      var listed := Filtered(pods, name);
      Noticed(DroppedAll(VisitedAll(st.(lastReadError := ""), listed), Identities(listed), order), listed == [])
  }

  /** The state after a run of passes whose first one succeeded. */
  function After(listings: seq<Listing>, name: string): State {
    if listings == [] then INITIAL
    else Reconciled(After(listings[..|listings| - 1], name), listings[|listings| - 1], name)
  }

  // ----------------------------------------------------------------- the ledger

  /** An active entry carries its pod's fingerprint and a stream that was started
      for that fingerprint and is running. */
  predicate EntryRight(st: State, key: string)
    requires key in st.active
  {
    var e := st.active[key];
    && Identity(e.pod) == key && e.fingerprint == FingerprintOf(e.pod.status)
    && e.stream < |st.started| && e.stream !in st.cancelled
    && Identity(st.started[e.stream].pod) == key && FingerprintOf(st.started[e.stream].pod.status) == e.fingerprint
  }

  predicate IsActive(st: State, s: nat)
    requires s < |st.started|
  {
    Identity(st.started[s].pod) in st.active && st.active[Identity(st.started[s].pod)].stream == s
  }

  /** Every started stream is either active or cancelled, never both. */
  ghost predicate Ledger(st: State) {
    && (forall k :: k in st.active ==> EntryRight(st, k))
    && (forall s :: s in st.cancelled ==> s < |st.started|)
    && (forall s :: 0 <= s < |st.started| ==> (s in st.cancelled <==> !IsActive(st, s)))
  }

  // ------------------------------------------------------------------ the trace

  /** What the records say of one pod; Broken if they contradict themselves. */
  datatype Presence = Absent | Present(pod: Pod) | Broken

  function Follow(out: seq<Output>, key: string): Presence {
    if out == [] then Absent else Next(Follow(out[..|out| - 1], key), out[|out| - 1], key)
  }

  /** A pod is added while absent, changes from what was last said of it, and is
      removed as what was last said of it. */
  function Next(before: Presence, record: Output, key: string): Presence {
    match record
    case Added(pod) => if Identity(pod) != key then before else if before == Absent then Present(pod) else Broken
    case Removed(pod) => if Identity(pod) != key then before else if before == Present(pod) then Absent else Broken
    case StateChange(previous, current) =>
      if Identity(current) != key then before else if before == Present(previous) then Present(current) else Broken
    case _ => before
  }

  /** What the records say of each pod is what the active map holds. */
  ghost predicate Traced(st: State) {
    forall key :: Follow(st.out, key) == if key in st.active then Present(st.active[key].pod) else Absent
  }

  lemma EmittedFollow(out: seq<Output>, record: Output, key: string)
    ensures Follow(out + [record], key) == Next(Follow(out, key), record, key)
  {
    assert (out + [record])[..|out|] == out;
  }

  lemma StartedLedger(st: State, pod: Pod, events: bool)
    requires Ledger(st) && Identity(pod) !in st.active
    ensures Ledger(Started(st, pod, events))
  {
    hide FingerprintOf, Identity;
    var st' := Started(st, pod, events);
    forall k | k in st'.active ensures EntryRight(st', k) {
      if k in st.active { assert EntryRight(st, k); }
    }
    forall s | 0 <= s < |st'.started| ensures s in st'.cancelled <==> !IsActive(st', s) {
      if s < |st.started| {
        assert IsActive(st', s) <==> IsActive(st, s);
      }
    }
  }

  lemma CancelledLedger(st: State, key: string)
    requires Ledger(st) && key in st.active
    ensures Ledger(Cancelled(st, key))
  {
    hide FingerprintOf, Identity;
    var st' := Cancelled(st, key);
    assert EntryRight(st, key);
    forall k | k in st'.active ensures EntryRight(st', k) {
      assert EntryRight(st, k);
    }
    forall s | 0 <= s < |st'.started| ensures s in st'.cancelled <==> !IsActive(st', s) {
      assert IsActive(st, s) || s in st.cancelled;
    }
  }

  lemma RefreshedLedger(st: State, pod: Pod)
    requires Ledger(st) && Identity(pod) in st.active
      && FingerprintOf(pod.status) == st.active[Identity(pod)].fingerprint
    ensures Ledger(st.(active := st.active[Identity(pod) := st.active[Identity(pod)].(pod := pod)]))
  {
    hide FingerprintOf, Identity;
    var key := Identity(pod);
    var st' := st.(active := st.active[key := st.active[key].(pod := pod)]);
    assert EntryRight(st, key);
    forall k | k in st'.active ensures EntryRight(st', k) {
      assert EntryRight(st, k);
    }
    forall s | 0 <= s < |st'.started| ensures s in st'.cancelled <==> !IsActive(st', s) {
      assert IsActive(st', s) <==> IsActive(st, s);
    }
  }

  lemma VisitedLedger(st: State, pod: Pod)
    requires Ledger(st)
    ensures Ledger(Visited(st, pod))
  {
    hide FingerprintOf, Identity;
    var key := Identity(pod);
    if key !in st.active {
      StartedLedger(Emitted(st, Added(pod)), pod, true);
    } else {
      var current := st.active[key];
      var changed := Emitted(st, StateChange(current.pod, pod));
      assert Ledger(changed) by { EmittedLedger(st, StateChange(current.pod, pod)); }
      if FingerprintOf(pod.status) != current.fingerprint {
        CancelledLedger(changed, key);
        StartedLedger(Cancelled(changed, key), pod, false);
      } else {
        RefreshedLedger(changed, pod);
      }
    }
  }

  lemma EmittedLedger(st: State, record: Output)
    requires Ledger(st)
    ensures Ledger(Emitted(st, record))
  {
    hide FingerprintOf, Identity;
    var st' := Emitted(st, record);
    forall k | k in st'.active ensures EntryRight(st', k) {
      assert EntryRight(st, k);
    }
    forall s | 0 <= s < |st'.started| ensures s in st'.cancelled <==> !IsActive(st', s) {
      assert IsActive(st', s) <==> IsActive(st, s);
    }
  }

  lemma VisitedOut(st: State, pod: Pod)
    ensures var key := Identity(pod);
      var st' := Visited(st, pod);
      && st'.active.Keys == st.active.Keys + {key} && st'.active[key].pod == pod
      && (forall k :: k in st.active && k != key ==> st'.active[k] == st.active[k])
      && st'.out == st.out + [if key in st.active then StateChange(st.active[key].pod, pod) else Added(pod)]
  {
    hide FingerprintOf, Identity;
  }

  lemma VisitedTraced(st: State, pod: Pod)
    requires Traced(st)
    ensures Traced(Visited(st, pod))
  {
    hide Visited, Identity;
    VisitedOut(st, pod);
    var st', k := Visited(st, pod), Identity(pod);
    forall key ensures Follow(st'.out, key) == if key in st'.active then Present(st'.active[key].pod) else Absent {
      EmittedFollow(st.out, if k in st.active then StateChange(st.active[k].pod, pod) else Added(pod), key);
    }
  }

  lemma DroppedTraced(st: State, seen: set<string>, key: string)
    requires Traced(st) && Ledger(st)
    ensures Traced(Dropped(st, seen, key))
  {
    hide FingerprintOf, Identity;
    var st' := Dropped(st, seen, key);
    if key in st.active && key !in seen {
      assert EntryRight(st, key);
      forall k ensures Follow(st'.out, k) == if k in st'.active then Present(st'.active[k].pod) else Absent {
        EmittedFollow(st.out, Removed(st.active[key].pod), k);
      }
    }
  }

  /** Between any two turns of reconcile's loops the ledger and the trace are right. */
  ghost predicate Right(st: State) {
    Ledger(st) && Traced(st)
  }

  lemma {:induction false} VisitedAllRight(st: State, pods: seq<Pod>)
    requires Right(st)
    ensures Right(VisitedAll(st, pods))
  {
    hide Ledger, Traced, Visited;
    if pods != [] {
      var before := VisitedAll(st, pods[..|pods| - 1]);
      VisitedAllRight(st, pods[..|pods| - 1]);
      VisitedLedger(before, pods[|pods| - 1]);
      VisitedTraced(before, pods[|pods| - 1]);
    }
  }

  lemma DroppedLedger(st: State, seen: set<string>, key: string)
    requires Ledger(st)
    ensures Ledger(Dropped(st, seen, key))
  {
    hide Ledger, Cancelled;
    if key in st.active && key !in seen {
      CancelledLedger(st, key);
      EmittedLedger(Cancelled(st, key), Removed(st.active[key].pod));
    }
  }

  lemma {:induction false} DroppedAllRight(st: State, seen: set<string>, order: seq<string>)
    requires Right(st)
    ensures Right(DroppedAll(st, seen, order))
  {
    hide Ledger, Traced, Dropped;
    if order != [] {
      var before := DroppedAll(st, seen, order[..|order| - 1]);
      DroppedAllRight(st, seen, order[..|order| - 1]);
      DroppedLedger(before, seen, order[|order| - 1]);
      DroppedTraced(before, seen, order[|order| - 1]);
    }
  }

  /** Flags and notices leave the ledger and the trace alone. */
  lemma NoticeRight(st: State, st': State, record: Output)
    requires Right(st) && (record.Waiting? || record.ReadError?)
    requires st'.active == st.active && st'.started == st.started && st'.cancelled == st.cancelled
    requires st'.out == st.out || st'.out == st.out + [record]
    ensures Right(st')
  {
    hide FingerprintOf, Identity;
    forall k | k in st'.active ensures EntryRight(st', k) {
      assert EntryRight(st, k);
    }
    forall s | 0 <= s < |st'.started| ensures s in st'.cancelled <==> !IsActive(st', s) {
      assert IsActive(st', s) <==> IsActive(st, s);
    }
    forall key ensures Follow(st'.out, key) == if key in st'.active then Present(st'.active[key].pod) else Absent {
      EmittedFollow(st.out, record, key);
    }
  }

  lemma ReconciledRight(st: State, listing: Listing, name: string)
    requires Right(st)
    ensures Right(Reconciled(st, listing, name))
  {
    hide Right, VisitedAll, DroppedAll, Filtered, Identities;
    match listing
    case Failed(error) => NoticeRight(st, Reconciled(st, listing, name), ReadError(error));
    case Pods(pods, order) =>
      var listed := Filtered(pods, name);
      NoticeRight(st, st.(lastReadError := ""), Waiting);
      VisitedAllRight(st.(lastReadError := ""), listed);
      var visited := VisitedAll(st.(lastReadError := ""), listed);
      DroppedAllRight(visited, Identities(listed), order);
      NoticeRight(DroppedAll(visited, Identities(listed), order), Reconciled(st, listing, name), Waiting);
  }

  /** Over every run of passes, failed reads included, each started stream is
      either active or cancelled, and each pod's "added" and "removed" records
      tell exactly whether it is active. */
  lemma {:induction false} AlwaysRight(listings: seq<Listing>, name: string)
    ensures Right(After(listings, name))
  {
    hide Reconciled;
    if listings != [] {
      AlwaysRight(listings[..|listings| - 1], name);
      ReconciledRight(After(listings[..|listings| - 1], name), listings[|listings| - 1], name);
    }
  }

  // ------------------------------------------------------------ strict alternation

  /** The "added" (true) and "removed" (false) records of one pod, in order. */
  function Story(out: seq<Output>, key: string): seq<bool> {
    if out == [] then []
    else
      var before := Story(out[..|out| - 1], key);
      match out[|out| - 1]
      case Added(pod) => if Identity(pod) == key then before + [true] else before
      case Removed(pod) => if Identity(pod) == key then before + [false] else before
      case _ => before
  }

  predicate Alternates(story: seq<bool>) {
    forall i :: 0 <= i < |story| ==> story[i] == (i % 2 == 0)
  }

  lemma AlternatesLast(story: seq<bool>, b: bool)
    ensures Alternates(story + [b]) <==> Alternates(story) && b == (|story| % 2 == 0)
  {
    if Alternates(story + [b]) {
      assert (story + [b])[|story|] == b;
      assert forall i :: 0 <= i < |story| ==> (story + [b])[i] == story[i];
    }
  }

  lemma {:induction false} FollowAlternates(out: seq<Output>, key: string)
    ensures Follow(out, key) != Broken ==> Alternates(Story(out, key))
    ensures Follow(out, key) != Broken ==> (Follow(out, key).Present? <==> |Story(out, key)| % 2 == 1)
  {
    hide Alternates, Identity;
    if out == [] {
      NothingAlternates();
    } else {
      FollowAlternates(out[..|out| - 1], key);
      AlternatesLast(Story(out[..|out| - 1], key), true);
      AlternatesLast(Story(out[..|out| - 1], key), false);
    }
  }

  lemma NothingAlternates()
    ensures Alternates([])
  {
  }

  /** For every pod, "added" and "removed" strictly alternate, starting with
      "added", despite restarts and failed reads. */
  lemma AddedAndRemovedAlternate(listings: seq<Listing>, name: string, key: string)
    ensures Alternates(Story(After(listings, name).out, key))
    ensures key in After(listings, name).active <==> |Story(After(listings, name).out, key)| % 2 == 1
  {
    hide After, Alternates, Ledger;
    AlwaysRight(listings, name);
    FollowAlternates(After(listings, name).out, key);
  }

  // ----------------------------------------------------- recent events, once a pod

  /** The starts of a pod's stream that asked for recent events. */
  function WithEvents(started: seq<Start>, key: string): nat {
    if started == [] then 0
    else
      var last := started[|started| - 1];
      WithEvents(started[..|started| - 1], key) + if Identity(last.pod) == key && last.includeRecentEvents then 1 else 0
  }

  function Additions(out: seq<Output>, key: string): nat {
    if out == [] then 0
    else
      var last := out[|out| - 1];
      Additions(out[..|out| - 1], key) + if last.Added? && Identity(last.pod) == key then 1 else 0
  }

  ghost predicate EventsOnce(st: State, key: string) {
    WithEvents(st.started, key) == Additions(st.out, key)
  }

  lemma StartsLast(started: seq<Start>, start: Start, key: string)
    ensures WithEvents(started + [start], key)
      == WithEvents(started, key) + if Identity(start.pod) == key && start.includeRecentEvents then 1 else 0
  {
    assert (started + [start])[..|started|] == started;
  }

  lemma AdditionsLast(out: seq<Output>, record: Output, key: string)
    ensures Additions(out + [record], key)
      == Additions(out, key) + if record.Added? && Identity(record.pod) == key then 1 else 0
  {
    assert (out + [record])[..|out|] == out;
  }

  lemma VisitedEvents(st: State, pod: Pod, key: string)
    requires EventsOnce(st, key)
    ensures EventsOnce(Visited(st, pod), key)
  {
    hide FingerprintOf, Identity, WithEvents, Additions;
    StartsLast(st.started, Start(pod, true), key);
    StartsLast(st.started, Start(pod, false), key);
    AdditionsLast(st.out, Added(pod), key);
    if Identity(pod) in st.active { AdditionsLast(st.out, StateChange(st.active[Identity(pod)].pod, pod), key); }
  }

  lemma DroppedEvents(st: State, seen: set<string>, dropped: string, key: string)
    requires EventsOnce(st, key)
    ensures EventsOnce(Dropped(st, seen, dropped), key)
  {
    hide Identity, WithEvents, Additions;
    if dropped in st.active { AdditionsLast(st.out, Removed(st.active[dropped].pod), key); }
  }

  lemma {:induction false} LoopsEvents(st: State, pods: seq<Pod>, seen: set<string>, order: seq<string>, key: string)
    requires EventsOnce(st, key)
    ensures EventsOnce(DroppedAll(VisitedAll(st, pods), seen, order), key)
    decreases |pods| + |order|
  {
    hide EventsOnce, Visited, Dropped;
    if order != [] {
      LoopsEvents(st, pods, seen, order[..|order| - 1], key);
      DroppedEvents(DroppedAll(VisitedAll(st, pods), seen, order[..|order| - 1]), seen, order[|order| - 1], key);
    } else if pods != [] {
      LoopsEvents(st, pods[..|pods| - 1], seen, order, key);
      VisitedEvents(VisitedAll(st, pods[..|pods| - 1]), pods[|pods| - 1], key);
    }
  }

  lemma NoticeEvents(st: State, st': State, record: Output, key: string)
    requires EventsOnce(st, key) && (record.Waiting? || record.ReadError?)
    requires st'.started == st.started && (st'.out == st.out || st'.out == st.out + [record])
    ensures EventsOnce(st', key)
  {
    hide Identity, WithEvents;
    AdditionsLast(st.out, record, key);
  }

  /** Recent events are asked for once for each time a pod is added, and not when
      its stream is restarted. */
  lemma {:induction false} EventsOncePerAddition(listings: seq<Listing>, name: string, key: string)
    ensures EventsOnce(After(listings, name), key)
  {
    hide EventsOnce, VisitedAll, DroppedAll, Filtered, Identities;
    if listings == [] {
      NoEvents(key);
    } else {
      var st, listing := After(listings[..|listings| - 1], name), listings[|listings| - 1];
      EventsOncePerAddition(listings[..|listings| - 1], name, key);
      match listing {
        case Failed(error) => NoticeEvents(st, Reconciled(st, listing, name), ReadError(error), key);
        case Pods(pods, order) =>
          var listed := Filtered(pods, name);
          var calm := st.(lastReadError := "");
          NoticeEvents(st, calm, Waiting, key);
          LoopsEvents(calm, listed, Identities(listed), order, key);
          var looped := DroppedAll(VisitedAll(calm, listed), Identities(listed), order);
          NoticeEvents(looped, Reconciled(st, listing, name), Waiting, key);
      }
    }
  }

  lemma NoEvents(key: string)
    ensures EventsOnce(INITIAL, key)
  {
  }

  // --------------------------------------------------- active equals the listing

  /** The last listed pod of an identity. */
  function LastListed(pods: seq<Pod>, key: string): Option<Pod> {
    if pods == [] then None
    else if Identity(pods[|pods| - 1]) == key then Some(pods[|pods| - 1])
    else LastListed(pods[..|pods| - 1], key)
  }

  lemma IdentitiesLast(pods: seq<Pod>, pod: Pod)
    ensures Identities(pods + [pod]) == Identities(pods) + {Identity(pod)}
  {
    hide Identity;
    forall key ensures key in Identities(pods + [pod]) <==> key in Identities(pods) + {Identity(pod)} {
      if key in Identities(pods) {
        var p :| p in pods && Identity(p) == key;
        assert p in pods + [pod];
      }
      if key == Identity(pod) { assert pod in pods + [pod]; }
    }
  }

  lemma {:induction false} ListedIdentities(pods: seq<Pod>, key: string)
    ensures key in Identities(pods) <==> LastListed(pods, key).Some?
  {
    hide Identity, Identities;
    if pods == [] {
      NoIdentities();
    } else {
      var front, last := pods[..|pods| - 1], pods[|pods| - 1];
      assert pods == front + [last];
      IdentitiesLast(front, last);
      ListedIdentities(front, key);
    }
  }

  lemma NoIdentities()
    ensures Identities([]) == {}
  {
  }

  /** After the first loop an entry holds the last listed pod of its identity, or
      is as it was. */
  lemma {:induction false} VisitedAllEntries(st: State, pods: seq<Pod>, key: string)
    ensures key in VisitedAll(st, pods).active <==> key in st.active || LastListed(pods, key).Some?
    ensures key in VisitedAll(st, pods).active ==>
      VisitedAll(st, pods).active[key].pod ==
        if LastListed(pods, key).Some? then LastListed(pods, key).value else st.active[key].pod
  {
    hide FingerprintOf, Identity;
    if pods != [] { VisitedAllEntries(st, pods[..|pods| - 1], key); }
  }

  /** The second loop removes exactly the visited keys that were not seen. */
  lemma {:induction false} DroppedAllEntries(st: State, seen: set<string>, order: seq<string>, key: string)
    ensures key in DroppedAll(st, seen, order).active <==> key in st.active && (key in seen || key !in order)
    ensures key in DroppedAll(st, seen, order).active ==> DroppedAll(st, seen, order).active[key] == st.active[key]
  {
    hide Identity;
    if order != [] {
      DroppedAllEntries(st, seen, order[..|order| - 1], key);
      assert order == order[..|order| - 1] + [order[|order| - 1]];
    }
  }

  /** The second loop visits every key of the map. */
  ghost predicate Covers(st: State, listing: Listing, name: string) {
    listing.Pods? ==>
      var visited := VisitedAll(st.(lastReadError := ""), Filtered(listing.pods, name));
      forall k :: k in visited.active ==> k in listing.order
  }

  /** After a successful pass the active keys are the identities of the listed
      pods, and each entry holds the pod as last listed, with its fingerprint. */
  lemma ActiveIsListing(listings: seq<Listing>, listing: Listing, name: string, key: string)
    requires listing.Pods? && Covers(After(listings, name), listing, name)
    ensures var st := After(listings + [listing], name);
      var listed := Filtered(listing.pods, name);
      && (key in st.active <==> key in Identities(listed))
      && (key in st.active ==>
        && LastListed(listed, key) == Some(st.active[key].pod)
        && st.active[key].fingerprint == FingerprintOf(st.active[key].pod.status))
  {
    hide VisitedAll, DroppedAll, Filtered, Identities, LastListed, FingerprintOf, Traced;
    var before := After(listings, name).(lastReadError := "");
    var listed := Filtered(listing.pods, name);
    assert (listings + [listing])[..|listings|] == listings;
    AlwaysRight(listings + [listing], name);
    VisitedAllEntries(before, listed, key);
    DroppedAllEntries(VisitedAll(before, listed), Identities(listed), listing.order, key);
    ListedIdentities(listed, key);
    if key in After(listings + [listing], name).active { assert EntryRight(After(listings + [listing], name), key); }
  }

  // ------------------------------------------------------ which pods are one and the same

  /** The same pod, as Kubernetes tells pods apart: by UID, and without UIDs by
      namespace and name. */
  predicate SamePod(p: Pod, q: Pod) {
    if p.uid != "" || q.uid != "" then p.uid == q.uid else p.namespace == q.namespace && p.name == q.name
  }

  /** No UID reads like a namespace and a name, and no namespace holds a slash;
      neither matters if both pods have a UID. */
  predicate Comparable(p: Pod, q: Pod) {
    (p.uid != "" && q.uid != "") || forall pod :: pod in {p, q} ==> '/' !in pod.uid && '/' !in pod.namespace
  }

  ghost predicate AllComparable(pods: seq<Pod>) {
    forall p, q :: p in pods && q in pods ==> Comparable(p, q)
  }

  ghost predicate AllDifferent(pods: seq<Pod>) {
    forall i, j :: 0 <= i < j < |pods| ==> !SamePod(pods[i], pods[j])
  }

  lemma IdentityTells(p: Pod, q: Pod)
    requires Comparable(p, q)
    ensures Identity(p) == Identity(q) <==> SamePod(p, q)
  {
    if p.uid == "" { SlashAt(p.namespace, p.name); }
    if q.uid == "" { SlashAt(q.namespace, q.name); }
    if p.uid == "" && q.uid == "" && Identity(p) == Identity(q) {
      assert |p.namespace| == |q.namespace|;
      assert Identity(p)[..|p.namespace|] == p.namespace && Identity(q)[..|q.namespace|] == q.namespace;
      assert Identity(p)[|p.namespace| + 1..] == p.name && Identity(q)[|q.namespace| + 1..] == q.name;
    }
  }

  /** The first slash ends the namespace. */
  lemma SlashAt(namespace: string, name: string)
    ensures var s := namespace + "/" + name;
      s[|namespace|] == '/' && ('/' !in namespace ==> forall i :: 0 <= i < |namespace| ==> s[i] != '/')
  {
  }

  /** A stream that was started and not cancelled. */
  function Running(st: State): set<nat> {
    set s: nat | s < |st.started| && s !in st.cancelled
  }

  /** The active entries are the listed pods, one for each pod. */
  ghost predicate OneEntryEach(st: State, listed: seq<Pod>) {
    && (forall k :: k in st.active ==> st.active[k].pod in listed)
    && (forall p :: p in listed ==> HasEntry(st, p))
    && (forall k, l :: k in st.active && l in st.active && SamePod(st.active[k].pod, st.active[l].pod) ==> k == l)
  }

  ghost predicate HasEntry(st: State, p: Pod) {
    exists k :: k in st.active && SamePod(st.active[k].pod, p)
  }

  /** Every entry has a running stream of its own, and no other stream runs. */
  ghost predicate OneStreamEach(st: State) {
    && Running(st) == (set k | k in st.active :: st.active[k].stream)
    && (forall k, l :: k in st.active && l in st.active && st.active[k].stream == st.active[l].stream ==> k == l)
  }

  lemma LastListedIsListed(pods: seq<Pod>, key: string)
    ensures LastListed(pods, key).Some? ==>
      LastListed(pods, key).value in pods && Identity(LastListed(pods, key).value) == key
  {
  }

  lemma LedgerStreams(st: State)
    requires Ledger(st)
    ensures OneStreamEach(st)
  {
    hide FingerprintOf, Identity;
    forall k | k in st.active ensures st.active[k].stream in Running(st)
      && Identity(st.started[st.active[k].stream].pod) == k
    {
      assert EntryRight(st, k);
    }
    forall s | s in Running(st) ensures exists k :: k in st.active && st.active[k].stream == s {
      assert IsActive(st, s);
    }
  }

  /** In every run, after a successful pass each listed pod has one entry, and each
      entry one running stream; pods that differ do not share them. */
  lemma OneEntryPerPod(listings: seq<Listing>, listing: Listing, name: string)
    requires listing.Pods? && Covers(After(listings, name), listing, name)
    requires AllComparable(Filtered(listing.pods, name))
    ensures var st, listed := After(listings + [listing], name), Filtered(listing.pods, name);
      OneEntryEach(st, listed) && OneStreamEach(st)
  {
    hide After, Filtered, Ledger, Traced, Covers, AllComparable, OneEntryEach, OneStreamEach, KeysListed;
    AlwaysRight(listings + [listing], name);
    LedgerStreams(After(listings + [listing], name));
    KeysAreListed(listings, listing, name);
    KeysTell(After(listings + [listing], name), Filtered(listing.pods, name));
  }

  /** Each entry holds a listed pod under its identity. */
  ghost predicate KeysListed(st: State, listed: seq<Pod>) {
    && st.active.Keys == Identities(listed)
    && forall k :: k in st.active ==> st.active[k].pod in listed && Identity(st.active[k].pod) == k
  }

  lemma KeysAreListed(listings: seq<Listing>, listing: Listing, name: string)
    requires listing.Pods? && Covers(After(listings, name), listing, name)
    ensures KeysListed(After(listings + [listing], name), Filtered(listing.pods, name))
  {
    hide After, Filtered, FingerprintOf, Identity, Covers, LastListed, Identities;
    var st, listed := After(listings + [listing], name), Filtered(listing.pods, name);
    forall k ensures k in st.active <==> k in Identities(listed) {
      ActiveIsListing(listings, listing, name, k);
    }
    forall k | k in st.active ensures st.active[k].pod in listed && Identity(st.active[k].pod) == k {
      ActiveIsListing(listings, listing, name, k);
      LastListedIsListed(listed, k);
    }
  }

  lemma KeysTell(st: State, listed: seq<Pod>)
    requires KeysListed(st, listed) && AllComparable(listed)
    ensures OneEntryEach(st, listed)
  {
    hide Identity, Comparable, SamePod, Identities, HasEntry;
    forall p | p in listed ensures HasEntry(st, p) {
      ListedHasEntry(st, listed, p);
    }
    forall k, l | k in st.active && l in st.active && SamePod(st.active[k].pod, st.active[l].pod) ensures k == l {
      IdentityTells(st.active[k].pod, st.active[l].pod);
    }
  }

  lemma ListedHasEntry(st: State, listed: seq<Pod>, p: Pod)
    requires KeysListed(st, listed) && AllComparable(listed) && p in listed
    ensures HasEntry(st, p)
  {
    hide Identity, Comparable, SamePod, Identities;
    IdentityListed(listed, p);
    IdentityTells(st.active[Identity(p)].pod, p);
  }

  lemma IdentityListed(pods: seq<Pod>, p: Pod)
    requires p in pods
    ensures Identity(p) in Identities(pods)
  {
  }

  lemma {:induction false} DifferentIdentities(pods: seq<Pod>)
    requires AllComparable(pods) && AllDifferent(pods)
    ensures |Identities(pods)| == |pods|
  {
    hide Identity, Comparable, SamePod, Identities;
    if pods == [] {
      NoIdentities();
    } else {
      var n := |pods| - 1;
      DifferentIdentities(pods[..n]);
      IdentitiesLast(pods[..n], pods[n]);
      assert pods == pods[..n] + [pods[n]];
      if Identity(pods[n]) in Identities(pods[..n]) {
        var i := IdentityOf(pods[..n], Identity(pods[n]));
        IdentityTells(pods[i], pods[n]);
        assert false;
      }
    }
  }

  lemma IdentityOf(pods: seq<Pod>, key: string) returns (i: nat)
    requires key in Identities(pods)
    ensures i < |pods| && Identity(pods[i]) == key
  {
    i :| i < |pods| && Identity(pods[i]) == key;
  }

  lemma {:induction false} SameSize(keys: set<string>, streams: set<nat>, at: map<string, nat>)
    requires keys <= at.Keys && streams == set k | k in keys :: at[k]
    requires forall k, l :: k in keys && l in keys && at[k] == at[l] ==> k == l
    ensures |streams| == |keys|
  {
    if keys != {} {
      var k :| k in keys;
      SameSize(keys - {k}, streams - {at[k]}, at);
    }
  }

  /** Pods that all differ get as many entries and running streams as they are. */
  lemma DifferentPodsCounted(listings: seq<Listing>, listing: Listing, name: string)
    requires listing.Pods? && Covers(After(listings, name), listing, name)
    requires AllComparable(Filtered(listing.pods, name)) && AllDifferent(Filtered(listing.pods, name))
    ensures var st := After(listings + [listing], name);
      |st.active| == |Running(st)| == |Filtered(listing.pods, name)|
  {
    hide After, Filtered, Covers, Identities, AllComparable, AllDifferent, OneEntryEach, Running;
    var st := After(listings + [listing], name);
    OneEntryPerPod(listings, listing, name);
    DifferentIdentities(Filtered(listing.pods, name));
    KeysAreListed(listings, listing, name);
    var at := map k | k in st.active :: st.active[k].stream;
    SameSize(st.active.Keys, Running(st), at);
  }

  function AllAdded(pods: seq<Pod>): seq<Output> {
    if pods == [] then [] else AllAdded(pods[..|pods| - 1]) + [Added(pods[|pods| - 1])]
  }

  function AllStarts(pods: seq<Pod>): seq<Start> {
    if pods == [] then [] else AllStarts(pods[..|pods| - 1]) + [Start(pods[|pods| - 1], true)]
  }

  lemma {:induction false} FirstVisits(pods: seq<Pod>)
    requires AllComparable(pods) && AllDifferent(pods)
    ensures var st := VisitedAll(INITIAL, pods);
      && st.active.Keys == Identities(pods) && st.out == AllAdded(pods) && st.started == AllStarts(pods)
      && st.cancelled == {} && !st.waitingNotified && st.lastReadError == ""
  {
    hide Identity, Comparable, SamePod, Identities, FingerprintOf;
    if pods == [] {
      NoIdentities();
    } else {
      var n := |pods| - 1;
      FirstVisits(pods[..n]);
      IdentitiesLast(pods[..n], pods[n]);
      assert pods == pods[..n] + [pods[n]];
      if Identity(pods[n]) in Identities(pods[..n]) {
        var i := IdentityOf(pods[..n], Identity(pods[n]));
        IdentityTells(pods[i], pods[n]);
        assert false;
      }
    }
  }

  lemma {:induction false} NothingUnseen(st: State, seen: set<string>, order: seq<string>)
    requires st.active.Keys <= seen
    ensures DroppedAll(st, seen, order) == st
  {
    if order != [] { NothingUnseen(st, seen, order[..|order| - 1]); }
  }

  /** A first listing of pods that all differ: each is added, in order, and started
      with its recent events, and nothing else happens. */
  lemma FirstListing(listing: Listing, name: string)
    requires listing.Pods?
    requires AllComparable(Filtered(listing.pods, name)) && AllDifferent(Filtered(listing.pods, name))
    ensures var st, listed := After([listing], name), Filtered(listing.pods, name);
      && st.out == AllAdded(listed) + (if listed == [] then [Waiting] else [])
      && st.started == AllStarts(listed) && st.cancelled == {}
  {
    hide VisitedAll, DroppedAll, Filtered, Identities, AllComparable, AllDifferent, AllAdded, AllStarts;
    var listed := Filtered(listing.pods, name);
    FirstVisits(listed);
    NothingUnseen(VisitedAll(INITIAL, listed), Identities(listed), listing.order);
    AfterLast([], listing, name);
    assert [] + [listing] == [listing];
    assert INITIAL.(lastReadError := "") == INITIAL;
    assert AllAdded(listed) + [] == AllAdded(listed);
  }

  // ---------------------------------------------------------- which streams are kept

  /** The first loop keeps the stream of an active pod exactly when every listed
      occurrence of the pod carries the fingerprint the stream was started for. */
  lemma {:induction false} VisitsKeepStreamIff(st: State, pods: seq<Pod>, key: string)
    requires key in st.active && EntryRight(st, key)
    ensures key in VisitedAll(st, pods).active && |VisitedAll(st, pods).started| >= |st.started|
    ensures VisitedAll(st, pods).active[key].stream == st.active[key].stream <==>
      SameFingerprints(pods, key, st.active[key].fingerprint)
    ensures var e := VisitedAll(st, pods).active[key];
      (e.stream == st.active[key].stream && e.fingerprint == st.active[key].fingerprint) || e.stream >= |st.started|
  {
    hide FingerprintOf, Identity;
    if pods != [] {
      VisitsKeepStreamIff(st, pods[..|pods| - 1], key);
    }
  }

  /** A pass forgets no start. */
  lemma {:induction false} LoopsKeepStarts(st: State, pods: seq<Pod>, seen: set<string>, order: seq<string>)
    ensures st.started <= DroppedAll(VisitedAll(st, pods), seen, order).started
    decreases |pods| + |order|
  {
    hide FingerprintOf, Identity;
    if order != [] {
      LoopsKeepStarts(st, pods, seen, order[..|order| - 1]);
    } else if pods != [] {
      LoopsKeepStarts(st, pods[..|pods| - 1], seen, order);
    }
  }

  lemma PassKeepsStarts(st: State, listing: Listing, name: string)
    ensures st.started <= Reconciled(st, listing, name).started
  {
    hide VisitedAll, DroppedAll, Filtered, Identities;
    if listing.Pods? {
      var listed := Filtered(listing.pods, name);
      LoopsKeepStarts(st.(lastReadError := ""), listed, Identities(listed), listing.order);
    }
  }

  /** The pass gives no reason to end the stream of an active pod: the read
      failed, or the pod is listed and every listed occurrence of it carries the
      fingerprint the stream was started for. */
  predicate NothingChanged(listing: Listing, name: string, key: string, fingerprint: string) {
    listing.Pods? ==>
      var listed := Filtered(listing.pods, name);
      key in Identities(listed) && SameFingerprints(listed, key, fingerprint)
  }

  lemma EntryKeptIff(st: State, listing: Listing, name: string, key: string)
    requires key in st.active && EntryRight(st, key) && Covers(st, listing, name)
    ensures var st' := Reconciled(st, listing, name);
      (key in st'.active && st'.active[key].stream == st.active[key].stream) <==>
        NothingChanged(listing, name, key, st.active[key].fingerprint)
  {
    hide VisitedAll, DroppedAll, Filtered, Identities, LastListed, FingerprintOf, SameFingerprints;
    if listing.Pods? {
      var calm, listed := st.(lastReadError := ""), Filtered(listing.pods, name);
      assert EntryRight(calm, key);
      VisitsKeepStreamIff(calm, listed, key);
      VisitedAllEntries(calm, listed, key);
      DroppedAllEntries(VisitedAll(calm, listed), Identities(listed), listing.order, key);
    }
  }

  /** In every run, a pass leaves the stream of an active pod running exactly when
      it gives no reason to end it, and cancels it otherwise. */
  lemma StreamKeptIff(listings: seq<Listing>, listing: Listing, name: string, key: string)
    requires key in After(listings, name).active && Covers(After(listings, name), listing, name)
    ensures var st, st' := After(listings, name), After(listings + [listing], name);
      var stream := st.active[key].stream;
      var kept := NothingChanged(listing, name, key, st.active[key].fingerprint);
      && (key in st'.active && st'.active[key].stream == stream <==> kept)
      && (stream in st'.cancelled <==> !kept)
  {
    hide After, Reconciled, NothingChanged, FingerprintOf, Identity, Traced, Covers;
    var st, st' := After(listings, name), After(listings + [listing], name);
    AlwaysRight(listings, name);
    AlwaysRight(listings + [listing], name);
    AfterLast(listings, listing, name);
    assert EntryRight(st, key);
    EntryKeptIff(st, listing, name, key);
    PassKeepsStarts(st, listing, name);
    var stream := st.active[key].stream;
    assert st'.started[stream] == st.started[stream];
    assert stream in st'.cancelled <==> !IsActive(st', stream);
  }

  predicate SameFingerprints(pods: seq<Pod>, key: string, fingerprint: string) {
    pods == [] || (SameFingerprints(pods[..|pods| - 1], key, fingerprint)
                   && (Identity(pods[|pods| - 1]) == key ==> FingerprintOf(pods[|pods| - 1].status) == fingerprint))
  }

  // --------------------------------------------------------- waiting and error notices

  function Count(out: seq<Output>, waiting: bool): nat {
    if out == [] then 0
    else
      var last := out[|out| - 1];
      Count(out[..|out| - 1], waiting) + if (if waiting then last.Waiting? else last.ReadError?) then 1 else 0
  }

  /** Did the last successful read list nothing? */
  predicate LastEmpty(listings: seq<Listing>, name: string) {
    listings != [] &&
    match listings[|listings| - 1]
    case Failed(_) => LastEmpty(listings[..|listings| - 1], name)
    case Pods(pods, _) => Filtered(pods, name) == []
  }

  /** The number of maximal runs of empty listings among the successful reads. */
  function EmptyRuns(listings: seq<Listing>, name: string): nat {
    if listings == [] then 0
    else
      var before := listings[..|listings| - 1];
      EmptyRuns(before, name)
      + match listings[|listings| - 1]
        case Failed(_) => 0
        case Pods(pods, _) => if Filtered(pods, name) == [] && !LastEmpty(before, name) then 1 else 0
  }

  /** The error of the read just before, if it failed. */
  function PreviousError(listings: seq<Listing>): Option<string> {
    if listings == [] || listings[|listings| - 1].Pods? then None else Some(listings[|listings| - 1].error)
  }

  /** What the closure remembers of it: no error and an empty one look alike. */
  function LastError(listings: seq<Listing>): string {
    match PreviousError(listings)
    case None => ""
    case Some(error) => error
  }

  /** The number of runs of consecutive reads that fail with one same error. */
  function ErrorRuns(listings: seq<Listing>): nat {
    if listings == [] then 0
    else
      var before := listings[..|listings| - 1];
      ErrorRuns(before)
      + match listings[|listings| - 1]
        case Failed(error) => if Some(error) != PreviousError(before) then 1 else 0
        case Pods(_, _) => 0
  }

  /** The runs that begin with an empty error text right after no failure. */
  function SilentRuns(listings: seq<Listing>): nat {
    if listings == [] then 0
    else
      var before := listings[..|listings| - 1];
      SilentRuns(before) + if listings[|listings| - 1] == Failed("") && PreviousError(before).None? then 1 else 0
  }

  lemma CountLast(out: seq<Output>, record: Output, waiting: bool)
    ensures Count(out + [record], waiting)
      == Count(out, waiting) + if (if waiting then record.Waiting? else record.ReadError?) then 1 else 0
  {
    assert (out + [record])[..|out|] == out;
  }

  lemma {:induction false} LoopsNotice(st: State, pods: seq<Pod>, seen: set<string>, order: seq<string>, waiting: bool)
    ensures var st' := DroppedAll(VisitedAll(st, pods), seen, order);
      Count(st'.out, waiting) == Count(st.out, waiting) && st'.waitingNotified == st.waitingNotified
        && st'.lastReadError == st.lastReadError
    decreases |pods| + |order|
  {
    hide FingerprintOf, Identity, Count;
    if order != [] {
      LoopsNotice(st, pods, seen, order[..|order| - 1], waiting);
      var before := DroppedAll(VisitedAll(st, pods), seen, order[..|order| - 1]);
      var key := order[|order| - 1];
      if key in before.active { CountLast(before.out, Removed(before.active[key].pod), waiting); }
    } else if pods != [] {
      LoopsNotice(st, pods[..|pods| - 1], seen, order, waiting);
      var before, pod := VisitedAll(st, pods[..|pods| - 1]), pods[|pods| - 1];
      VisitedOut(before, pod);
      var k := Identity(pod);
      CountLast(before.out, if k in before.active then StateChange(before.active[k].pod, pod) else Added(pod), waiting);
    }
  }

  lemma FailedNotices(st: State, error: string, name: string, waiting: bool)
    ensures var st' := Reconciled(st, Failed(error), name);
      && st'.waitingNotified == st.waitingNotified && st'.lastReadError == error
      && Count(st'.out, waiting) == Count(st.out, waiting) + if !waiting && error != st.lastReadError then 1 else 0
  {
    hide Count;
    CountLast(st.out, ReadError(error), waiting);
  }

  lemma ListedNotices(st: State, pods: seq<Pod>, order: seq<string>, name: string, waiting: bool)
    ensures var st' := Reconciled(st, Pods(pods, order), name);
      var empty := Filtered(pods, name) == [];
      && st'.waitingNotified == empty && st'.lastReadError == ""
      && Count(st'.out, waiting) == Count(st.out, waiting) + if waiting && empty && !st.waitingNotified then 1 else 0
  {
    hide VisitedAll, DroppedAll, Filtered, Identities, Count;
    var listed := Filtered(pods, name);
    var calm := st.(lastReadError := "");
    LoopsNotice(calm, listed, Identities(listed), order, waiting);
    CountLast(DroppedAll(VisitedAll(calm, listed), Identities(listed), order).out, Waiting, waiting);
  }

  /** After every pass, the waiting notice has appeared once for each maximal run
      of empty listings among the successful reads, and the read-error notice once
      for each run of consecutive identical errors but the silent ones. */
  lemma {:induction false} NoticesCounted(listings: seq<Listing>, name: string)
    ensures Count(After(listings, name).out, true) == EmptyRuns(listings, name)
    ensures Count(After(listings, name).out, false) + SilentRuns(listings) == ErrorRuns(listings)
    ensures After(listings, name).waitingNotified == LastEmpty(listings, name)
    ensures After(listings, name).lastReadError == LastError(listings)
  {
    hide Reconciled, Filtered, Count;
    if listings == [] {
      NothingCounted();
    } else {
      var st := After(listings[..|listings| - 1], name);
      NoticesCounted(listings[..|listings| - 1], name);
      match listings[|listings| - 1] {
        case Failed(error) =>
          FailedNotices(st, error, name, true);
          FailedNotices(st, error, name, false);
        case Pods(pods, order) =>
          ListedNotices(st, pods, order, name, true);
          ListedNotices(st, pods, order, name, false);
      }
    }
  }

  lemma NothingCounted()
    ensures Count([], true) == 0 && Count([], false) == 0
  {
  }

  /** Every run is noticed exactly when none is silent. */
  lemma AllRunsNoticedIff(listings: seq<Listing>, name: string)
    ensures Count(After(listings, name).out, false) == ErrorRuns(listings) <==>
      forall i :: 0 <= i < |listings| ==> !(listings[i] == Failed("") && PreviousError(listings[..i]).None?)
  {
    hide After, Count, ErrorRuns, SilentRuns;
    NoticesCounted(listings, name);
    SilentRunsSomewhere(listings);
  }

  lemma {:induction false} SilentRunsSomewhere(listings: seq<Listing>)
    ensures SilentRuns(listings) == 0 <==>
      forall i :: 0 <= i < |listings| ==> !(listings[i] == Failed("") && PreviousError(listings[..i]).None?)
  {
    hide PreviousError;
    if listings != [] {
      var n := |listings| - 1;
      SilentRunsSomewhere(listings[..n]);
      forall i | 0 <= i < n ensures listings[..n][i] == listings[i] && listings[..n][..i] == listings[..i] {}
      assert (forall i :: 0 <= i < |listings| ==>
        !(listings[i] == Failed("") && PreviousError(listings[..i]).None?)) <==>
        (forall i :: 0 <= i < n ==> !(listings[..n][i] == Failed("") && PreviousError(listings[..n][..i]).None?))
        && !(listings[n] == Failed("") && PreviousError(listings[..n]).None?);
    }
  }

  /** Reads fail with a text, so the error notices are the runs of consecutive
      identical errors. */
  lemma ErrorNoticesAreRuns(listings: seq<Listing>, name: string)
    requires forall i :: 0 <= i < |listings| ==> listings[i] != Failed("")
    ensures Count(After(listings, name).out, false) == ErrorRuns(listings)
  {
    hide After, Count, ErrorRuns, PreviousError;
    AllRunsNoticedIff(listings, name);
  }

  /** The boundary of that: a successful read and then one that fails with an
      empty error text. */
  lemma EmptyErrorIsSilent(name: string)
    ensures var listings := [Pods([], []), Failed("")];
      ErrorRuns(listings) == 1 && Count(After(listings, name).out, false) == 0
  {
    hide After, Count;
    var first, listings := [Pods([], [])], [Pods([], []), Failed("")];
    assert listings[..1] == first && first[..0] == [];
    NoticesCounted(listings, name);
  }

  // ----------------------------------------------------------------- the closure

  /** What listSelectedPods gives. */
  datatype Read = Listed(pods: seq<Pod>) | ReadFailed(error: string)

  function Ordered(read: Read, order: seq<string>): Listing {
    match read
    case Listed(pods) => Pods(pods, order)
    case ReadFailed(error) => Failed(error)
  }

  /** All of a run's passes: what each read gave and how the second loop went. */
  ghost predicate Explains(listings: seq<Listing>, results: seq<Read>, name: string) {
    |listings| == |results|
    && forall i :: 0 <= i < |results| ==> ExplainsPass(listings[i], results[i], After(listings[..i], name), name)
  }

  ghost predicate ExplainsPass(listing: Listing, read: Read, before: State, name: string) {
    listing == Ordered(read, if listing.Pods? then listing.order else []) && Covers(before, listing, name)
  }

  class PodStreams {
    const name: string
    var active: map<string, Entry>
    var waitingNotified: bool
    var lastReadError: string
    var started: seq<Start>
    var cancelled: set<nat>
    var out: seq<Output>

    ghost function Contents(): State
      reads this
    {
      State(active, waitingNotified, lastReadError, started, cancelled, out)
    }

    constructor (name: string)
      ensures this.name == name && Contents() == INITIAL
    {
      this.name := name;
      active, waitingNotified, lastReadError, started, cancelled, out := map[], false, "", [], {}, [];
    }

    method Emit(record: Output)
      modifies this`out
      ensures out == old(out) + [record]
    {
      out := out + [record];
    }

    method StartPod(pod: Pod, includeRecentEvents: bool)
      modifies this`active, this`started
      ensures Contents() == Started(old(Contents()), pod, includeRecentEvents)
    {
      var fingerprint := PodRuntimeFingerprint(pod.status);
      active := active[Identity(pod) := Entry(pod, fingerprint, |started|)];
      started := started + [Start(pod, includeRecentEvents)];
    }

    /** The first loop of reconcile. */
    method VisitListed(pods: seq<Pod>) returns (seen: set<string>)
      modifies this`active, this`started, this`cancelled, this`out
      ensures Contents() == VisitedAll(old(Contents()), pods) && seen == Identities(pods)
    {
      hide FingerprintOf, Identity, Identities;
      seen := {};
      NoIdentities();
      for i := 0 to |pods|
        invariant Contents() == VisitedAll(old(Contents()), pods[..i]) && seen == Identities(pods[..i])
      {
        var pod := pods[i];
        VisitedAllLast(old(Contents()), pods, i);
        var key := Identity(pod);
        seen := seen + {key};
        var fingerprint := PodRuntimeFingerprint(pod.status);
        if key !in active {
          Emit(Added(pod));
          StartPod(pod, true);
        } else {
          var current := active[key];
          Emit(StateChange(current.pod, pod));
          if fingerprint != current.fingerprint {
            cancelled := cancelled + {current.stream};
            active := active - {key};
            StartPod(pod, false);
          } else {
            active := active[key := current.(pod := pod)];
          }
        }
      }
      assert pods[..|pods|] == pods;
    }

    /** The second loop of reconcile; the map may be visited in any order. */
    method DropUnseen(seen: set<string>) returns (ghost order: seq<string>)
      modifies this`active, this`cancelled, this`out
      ensures Contents() == DroppedAll(old(Contents()), seen, order)
      ensures forall k :: k in old(active) ==> k in order
    {
      order := [];
      var left := active.Keys;
      while left != {}
        invariant Contents() == DroppedAll(old(Contents()), seen, order)
        invariant left <= active.Keys
        invariant forall k :: k in old(active) ==> k in order || k in left
        decreases |left|
      {
        var key :| key in left;
        left := left - {key};
        assert (order + [key])[..|order|] == order;
        order := order + [key];
        var current := active[key];
        if key !in seen {
          cancelled := cancelled + {current.stream};
          active := active - {key};
          Emit(Removed(current.pod));
        }
      }
    }

    /** One reconciliation; only the first pass reports a failed read. */
    method Reconcile(initial: bool, read: Read) returns (failure: Option<string>, ghost listing: Listing)
      modifies this`active, this`waitingNotified, this`lastReadError, this`started, this`cancelled, this`out
      ensures failure == if initial && read.ReadFailed? then Some(read.error) else None
      ensures failure.Some? ==> unchanged(this)
      ensures failure.None? ==> Contents() == Reconciled(old(Contents()), listing, name)
      ensures ExplainsPass(listing, read, old(Contents()), name)
    {
      hide VisitedAll, DroppedAll, Filtered, Identities;
      failure := None;
      if read.ReadFailed? {
        listing := Failed(read.error);
        if initial { return Some(read.error), listing; }
        if read.error != lastReadError {
          lastReadError := read.error;
          Emit(ReadError(read.error));
        }
        return;
      }
      lastReadError := "";
      var pods := Filtered(read.pods, name);
      var seen := VisitListed(pods);
      ghost var order := DropUnseen(seen);
      listing := Pods(read.pods, order);
      if |pods| == 0 && !waitingNotified {
        waitingNotified := true;
        Emit(Waiting);
      } else if |pods| > 0 {
        waitingNotified := false;
      }
    }

    /** Stream: a first pass, one pass for each tick, and the deferred cleanup.
        On exit every stream that was ever started is cancelled. */
    method Stream(results: seq<Read>) returns (failure: Option<string>, ghost listings: seq<Listing>)
      requires results != [] && Contents() == INITIAL
      modifies this
      ensures failure == if results[0].ReadFailed? then Some(results[0].error) else None
      ensures failure.Some? ==> Contents() == INITIAL
      ensures failure.None? ==>
        && Explains(listings, results, name)
        && Contents() == After(listings, name).(cancelled := cancelled)
        && forall s :: 0 <= s < |started| ==> s in cancelled
    {
      hide Reconciled, ExplainsPass, Explains, After, Right;
      ghost var listing;
      failure, listing := Reconcile(true, results[0]);
      listings := [];
      if failure.Some? { return; }
      NothingExplained(results, name);
      AfterLast([], listing, name);
      ExplainsLast([], results, 0, listing, name);
      listings := [] + [listing];
      var i := 1;
      while i < |results|
        invariant 1 <= i <= |results| && Explains(listings, results[..i], name)
        invariant Contents() == After(listings, name)
        decreases |results| - i
      {
        var ignored;
        ignored, listing := Reconcile(false, results[i]);
        AfterLast(listings, listing, name);
        ExplainsLast(listings, results, i, listing, name);
        listings := listings + [listing];
        i := i + 1;
      }
      assert results[..|results|] == results;
      AlwaysRight(listings, name);
      CancelActive();
    }

    /** The deferred cleanup. */
    method CancelActive()
      requires Right(Contents())
      modifies this`cancelled
      ensures forall s :: 0 <= s < |started| ==> s in cancelled
    {
      hide FingerprintOf, Identity, Traced, Ledger;
      var left := active.Keys;
      while left != {}
        invariant left <= active.Keys && old(cancelled) <= cancelled
        invariant forall k :: k in active ==> k in left || active[k].stream in cancelled
        decreases |left|
      {
        var key :| key in left;
        left := left - {key};
        cancelled := cancelled + {active[key].stream};
      }
      AllStarted(old(Contents()));
    }
  }

  lemma AllStarted(st: State)
    requires Right(st)
    ensures forall s :: 0 <= s < |st.started| ==>
      s in st.cancelled || exists k :: k in st.active && st.active[k].stream == s
  {
    hide FingerprintOf, Identity, Traced;
    forall s | 0 <= s < |st.started| && s !in st.cancelled
      ensures exists k :: k in st.active && st.active[k].stream == s
    {
      assert IsActive(st, s);
    }
  }

  lemma NothingExplained(results: seq<Read>, name: string)
    ensures Explains([], results[..0], name) && After([], name) == INITIAL
  {
  }

  lemma AfterLast(listings: seq<Listing>, listing: Listing, name: string)
    ensures After(listings + [listing], name) == Reconciled(After(listings, name), listing, name)
  {
    assert (listings + [listing])[..|listings|] == listings;
  }

  lemma VisitedAllLast(st: State, pods: seq<Pod>, i: nat)
    requires i < |pods|
    ensures VisitedAll(st, pods[..i + 1]) == Visited(VisitedAll(st, pods[..i]), pods[i])
    ensures Identities(pods[..i + 1]) == Identities(pods[..i]) + {Identity(pods[i])}
  {
    assert pods[..i + 1][..i] == pods[..i];
    assert pods[..i + 1] == pods[..i] + [pods[i]];
    IdentitiesLast(pods[..i], pods[i]);
  }

  lemma ExplainsLast(listings: seq<Listing>, results: seq<Read>, i: nat, listing: Listing, name: string)
    requires i < |results| && Explains(listings, results[..i], name)
    requires ExplainsPass(listing, results[i], After(listings, name), name)
    ensures Explains(listings + [listing], results[..i + 1], name)
  {
    hide ExplainsPass, After;
    var longer := listings + [listing];
    forall j | 0 <= j < i + 1 ensures ExplainsPass(longer[j], results[..i + 1][j], After(longer[..j], name), name) {
      assert longer[..j] == listings[..j];
      if j < i {
        assert ExplainsPass(listings[j], results[..i][j], After(listings[..j], name), name);
      } else {
        assert listings[..j] == listings;
      }
    }
  }
}
