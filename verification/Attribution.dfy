/** Attribution of pod usage samples to workloads: metricWorkloadForPod,
    mergePodMetric and aggregateAllMetrics of internal/kube/metrics.go.
    Quantities arrive parsed; times are integers with 0 for the zero time. */
module Attribution {
  import opened Text
  import opened Sorting
  import opened Wrappers
  import Selectors

  datatype ContainerSpec = ContainerSpec(name: string, memoryLimit: Option<int>)
  datatype Pod = Pod(
    namespace: string, name: string, labels: map<string, string>,
    initContainers: seq<ContainerSpec>, containers: seq<ContainerSpec>, ephemeralContainers: seq<ContainerSpec>)
  datatype Usage = Usage(name: string, cpu: real, memory: int)
  datatype PodMetric = PodMetric(namespace: string, name: string, timestamp: int, containers: seq<Usage>)
  datatype Workload = Workload(connectionID: string, namespace: string, kind: string, name: string, selector: string)
  {
    function Key(): string { connectionID + "|" + namespace + "|" + kind + "|" + name }
  }
  datatype ContainerMetric = ContainerMetric(pod: string, container: string, cpu: real, memory: int, memoryLimit: int)
  datatype WorkloadMetric = WorkloadMetric(
    timestamp: int, kind: string, namespace: string, name: string,
    cpu: real, memory: int, memoryLimit: int, containers: seq<ContainerMetric>)

  // -------------------------------------------------------- choosing a workload

  predicate IsPodKind(kind: string) {
    ToLower(kind) == "pod"
  }

  /** "pod" in any case of letters. */
  lemma PodKindExact(kind: string)
    ensures IsPodKind(kind) <==>
      |kind| == 3 && kind[0] in {'p', 'P'} && kind[1] in {'o', 'O'} && kind[2] in {'d', 'D'}
  {
    if |kind| == 3 { assert ToLower(kind) == [LowerChar(kind[0]), LowerChar(kind[1]), LowerChar(kind[2])]; }
  }

  predicate NamesPod(w: Workload, pod: Pod) {
    IsPodKind(w.kind) && w.name == pod.name
  }

  predicate Selects(w: Workload, pod: Pod) {
    !IsPodKind(w.kind) && w.selector != "" && Selectors.TextMatches(w.selector, pod.labels)
  }

  /** selectorSpecificity */
  function Specificity(selector: string): nat {
    |Selectors.SplitTerms(selector)|
  }

  /** The candidate that metricWorkloadForPod must choose: the first Pod entry of
      that very name, or else the earliest selecting candidate of maximal
      specificity. */
  ghost predicate Chosen(pod: Pod, candidates: seq<Workload>, i: nat) {
    && i < |candidates|
    && if exists j :: 0 <= j < |candidates| && NamesPod(candidates[j], pod) then
         NamesPod(candidates[i], pod) && forall j :: 0 <= j < i ==> !NamesPod(candidates[j], pod)
       else
         && Selects(candidates[i], pod)
         && (forall j :: 0 <= j < |candidates| && Selects(candidates[j], pod) ==>
               Specificity(candidates[j].selector) <= Specificity(candidates[i].selector))
         && (forall j :: 0 <= j < i && Selects(candidates[j], pod) ==>
               Specificity(candidates[j].selector) < Specificity(candidates[i].selector))
  }

  ghost predicate Ownable(pod: Pod, candidates: seq<Workload>) {
    exists j :: 0 <= j < |candidates| && (NamesPod(candidates[j], pod) || Selects(candidates[j], pod))
  }

  ghost function Owner(pod: Pod, candidates: seq<Workload>): Option<Workload> {
    if exists i: nat :: Chosen(pod, candidates, i) then
      var i: nat :| Chosen(pod, candidates, i); Some(candidates[i])
    else None
  }

  lemma ChosenUnique(pod: Pod, candidates: seq<Workload>, i: nat, j: nat)
    requires Chosen(pod, candidates, i) && Chosen(pod, candidates, j)
    ensures i == j
  {
  }

  lemma OwnerIs(pod: Pod, candidates: seq<Workload>, i: nat)
    requires Chosen(pod, candidates, i)
    ensures Owner(pod, candidates) == Some(candidates[i])
  {
    var j: nat :| Chosen(pod, candidates, j) && Owner(pod, candidates) == Some(candidates[j]);
    ChosenUnique(pod, candidates, i, j);
  }

  /** metricWorkloadForPod */
  method MetricWorkloadForPod(pod: Pod, candidates: seq<Workload>) returns (best: Workload, ok: bool)
    ensures ok == Ownable(pod, candidates)
    ensures Owner(pod, candidates) == if ok then Some(best) else None
  {
    best := Workload("", "", "", "", "");
    var bestScore: int := -1;
    ghost var at: nat := 0;
    for i := 0 to |candidates|
      invariant forall j :: 0 <= j < i ==> !NamesPod(candidates[j], pod)
      invariant bestScore >= -1
      invariant bestScore == -1 ==> forall j :: 0 <= j < i ==> !Selects(candidates[j], pod)
      invariant bestScore >= 0 ==>
        && 0 <= at < i && best == candidates[at] && Selects(best, pod) && bestScore == Specificity(best.selector)
        && (forall j :: 0 <= j < i && Selects(candidates[j], pod) ==> Specificity(candidates[j].selector) <= bestScore)
        && (forall j :: 0 <= j < at && Selects(candidates[j], pod) ==> Specificity(candidates[j].selector) < bestScore)
    {
      var workload := candidates[i];
      if IsPodKind(workload.kind) {
        if workload.name == pod.name {
          OwnerIs(pod, candidates, i);
          return workload, true;
        }
        continue;
      }
      var matches := false;
      if workload.selector != "" {
        matches := Selectors.SelectorMatches(workload.selector, pod.labels);
      }
      if !matches { continue; }
      var score := Specificity(workload.selector);
      if score > bestScore {
        best, bestScore, at := workload, score, i;
      }
    }
    ok := bestScore >= 0;
    if ok { OwnerIs(pod, candidates, at); }
  }

  // ---------------------------------------- workloads whose selectors were printed

  /** How many labels and known match expressions a selector has. */
  function Conditions(sel: Selectors.LabelSelector): nat {
    |sel.matchLabels| + Selectors.KnownOperators(sel.matchExpressions)
  }

  /** The text was printed from a selector of tokens that, at these labels, has no
      blind spots or ones that cancel out. */
  ghost predicate PrintedFrom(text: string, sel: Selectors.LabelSelector, labels: map<string, string>) {
    && Selectors.WellFormed(sel) && text == Selectors.SelectorText(sel)
    && (Selectors.OthersHold(sel, labels) ==> (Selectors.Loose(sel, labels) <==> Selectors.Tight(sel, labels)))
  }

  ghost predicate AllPrinted(pod: Pod, candidates: seq<Workload>, sels: seq<Selectors.LabelSelector>) {
    |sels| == |candidates|
    && forall i :: 0 <= i < |candidates| ==> PrintedFrom(candidates[i].selector, sels[i], pod.labels)
  }

  /** The structured selector asks for something, and the pod has it. */
  ghost predicate Applies(w: Workload, sel: Selectors.LabelSelector, pod: Pod) {
    !IsPodKind(w.kind) && Conditions(sel) > 0 && Selectors.SelectorHolds(sel, pod.labels)
  }

  /** The first Pod entry of the pod's name, or else the earliest workload with the
      most conditions among those whose structured selector applies. */
  ghost predicate MostSpecific(pod: Pod, candidates: seq<Workload>, sels: seq<Selectors.LabelSelector>, i: nat)
    requires |sels| == |candidates|
  {
    && i < |candidates|
    && if exists j :: 0 <= j < |candidates| && NamesPod(candidates[j], pod) then
         NamesPod(candidates[i], pod) && forall j :: 0 <= j < i ==> !NamesPod(candidates[j], pod)
       else
         && Applies(candidates[i], sels[i], pod)
         && (forall j :: 0 <= j < |candidates| && Applies(candidates[j], sels[j], pod) ==>
               Conditions(sels[j]) <= Conditions(sels[i]))
         && (forall j :: 0 <= j < i && Applies(candidates[j], sels[j], pod) ==>
               Conditions(sels[j]) < Conditions(sels[i]))
  }

  lemma SelectsByMeaning(w: Workload, sel: Selectors.LabelSelector, pod: Pod)
    requires PrintedFrom(w.selector, sel, pod.labels)
    ensures Selects(w, pod) <==> Applies(w, sel, pod)
    ensures Selects(w, pod) ==> Specificity(w.selector) == Conditions(sel)
  {
    hide Selectors.TextMatches, Selectors.SelectorHolds, Selectors.OthersHold, Selectors.Loose, Selectors.Tight,
      Selectors.WellFormed, Selectors.SelectorText, Selectors.SplitTerms, Selectors.KnownOperators;
    Selectors.MeaningPreserved(sel, pod.labels);
    Selectors.SpecificityCountsTerms(sel);
    Selectors.TextIsEmptyIff(sel);
  }

  /** From the structured selectors through their texts to the choice: the chosen
      workload is the most specific one that applies to the pod. */
  lemma ChosenByMeaning(pod: Pod, candidates: seq<Workload>, sels: seq<Selectors.LabelSelector>, i: nat)
    requires AllPrinted(pod, candidates, sels)
    ensures Chosen(pod, candidates, i) <==> MostSpecific(pod, candidates, sels, i)
  {
    hide Selects, Applies, Specificity, Conditions, NamesPod, PrintedFrom;
    forall j | 0 <= j < |candidates|
      ensures Selects(candidates[j], pod) <==> Applies(candidates[j], sels[j], pod)
      ensures Selects(candidates[j], pod) ==> Specificity(candidates[j].selector) == Conditions(sels[j])
    {
      SelectsByMeaning(candidates[j], sels[j], pod);
    }
  }

  // ------------------------------------------------------------------- merging

  /** podContainerMemoryLimits looked up at one name: the last container of that
      name with a usable limit decides; 0 when there is none. */
  function LimitOf(all: seq<ContainerSpec>, name: string): int {
    if all == [] then 0
    else if all[|all| - 1].name == name && all[|all| - 1].memoryLimit.Some? then all[|all| - 1].memoryLimit.value
    else LimitOf(all[..|all| - 1], name)
  }

  function AllContainers(pod: Pod): seq<ContainerSpec> {
    pod.initContainers + pod.containers + pod.ephemeralContainers
  }

  method PodContainerMemoryLimits(pod: Pod) returns (out: map<string, int>)
    ensures forall name :: (if name in out then out[name] else 0) == LimitOf(AllContainers(pod), name)
  {
    out := map[];
    var all := pod.initContainers + pod.containers + pod.ephemeralContainers;
    for i := 0 to |all|
      invariant forall name :: (if name in out then out[name] else 0) == LimitOf(all[..i], name)
    {
      assert all[..i + 1][..i] == all[..i];
      if all[i].memoryLimit.Some? {
        out := out[all[i].name := all[i].memoryLimit.value];
      }
    }
    assert all[..|all|] == all;
  }

  predicate HasLimit(cs: seq<ContainerSpec>, name: string) {
    exists i :: 0 <= i < |cs| && cs[i].name == name && cs[i].memoryLimit.Some?
  }

  /** The last container of that name with a limit has this one. */
  predicate LastLimit(cs: seq<ContainerSpec>, name: string, limit: int) {
    exists i :: 0 <= i < |cs| && cs[i].name == name && cs[i].memoryLimit == Some(limit)
      && forall j :: i < j < |cs| ==> !(cs[j].name == name && cs[j].memoryLimit.Some?)
  }

  predicate Limits(c: ContainerSpec, name: string) {
    c.name == name && c.memoryLimit.Some?
  }

  lemma LimitsLast(cs: seq<ContainerSpec>, c: ContainerSpec, name: string)
    ensures HasLimit(cs + [c], name) <==> HasLimit(cs, name) || Limits(c, name)
    ensures Limits(c, name) ==> LastLimit(cs + [c], name, c.memoryLimit.value)
  {
    assert (cs + [c])[|cs|] == c;
    if i :| 0 <= i < |cs| && cs[i].name == name && cs[i].memoryLimit.Some? { assert (cs + [c])[i] == cs[i]; }
  }

  lemma LimitStays(cs: seq<ContainerSpec>, c: ContainerSpec, name: string, limit: int)
    requires LastLimit(cs, name, limit) && !Limits(c, name)
    ensures LastLimit(cs + [c], name, limit)
  {
    var i :| 0 <= i < |cs| && cs[i].name == name && cs[i].memoryLimit == Some(limit)
      && forall j :: i < j < |cs| ==> !(cs[j].name == name && cs[j].memoryLimit.Some?);
    assert (cs + [c])[i] == cs[i];
  }

  lemma {:induction false} LimitOfList(cs: seq<ContainerSpec>, name: string)
    ensures if HasLimit(cs, name) then LastLimit(cs, name, LimitOf(cs, name)) else LimitOf(cs, name) == 0
  {
    hide HasLimit, LastLimit;
    if cs == [] {
      NoLimit(name);
    } else {
      var n := |cs| - 1;
      LimitOfList(cs[..n], name);
      LimitsLast(cs[..n], cs[n], name);
      assert cs == cs[..n] + [cs[n]];
      if HasLimit(cs[..n], name) && !Limits(cs[n], name) { LimitStays(cs[..n], cs[n], name, LimitOf(cs[..n], name)); }
    }
  }

  lemma NoLimit(name: string)
    ensures !HasLimit([], name)
  {
  }

  lemma {:induction false} LimitOfBoth(a: seq<ContainerSpec>, b: seq<ContainerSpec>, name: string)
    ensures LimitOf(a + b, name) == if HasLimit(b, name) then LimitOf(b, name) else LimitOf(a, name)
  {
    if b == [] {
      assert a + b == a;
    } else {
      var n := |b| - 1;
      assert (a + b)[..|a + b| - 1] == a + b[..n];
      LimitOfBoth(a, b[..n], name);
      if i :| 0 <= i < n && b[i].name == name && b[i].memoryLimit.Some? { assert b[..n][i] == b[i]; }
    }
  }

  /** The limit of a container name: the last one of an ephemeral container, or else
      of an ordinary one, or else of an init container, or zero. */
  lemma LimitExact(pod: Pod, name: string)
    ensures var limit := LimitOf(AllContainers(pod), name);
      if HasLimit(pod.ephemeralContainers, name) then LastLimit(pod.ephemeralContainers, name, limit)
      else if HasLimit(pod.containers, name) then LastLimit(pod.containers, name, limit)
      else if HasLimit(pod.initContainers, name) then LastLimit(pod.initContainers, name, limit)
      else limit == 0
  {
    hide LimitOf, HasLimit, LastLimit;
    LimitOfBoth(pod.initContainers + pod.containers, pod.ephemeralContainers, name);
    LimitOfBoth(pod.initContainers, pod.containers, name);
    LimitOfList(pod.initContainers, name);
    LimitOfList(pod.containers, name);
    LimitOfList(pod.ephemeralContainers, name);
  }

  function Sample(pod: Pod, u: Usage): ContainerMetric {
    ContainerMetric(pod.name, u.name, u.cpu, u.memory, LimitOf(AllContainers(pod), u.name))
  }

  function Samples(pod: Pod, us: seq<Usage>): seq<ContainerMetric> {
    seq(|us|, i requires 0 <= i < |us| => Sample(pod, us[i]))
  }

  function Later(t: int, u: int): int {
    if u > t || t == 0 then u else t
  }

  function CpuOf(cs: seq<ContainerMetric>): real {
    if cs == [] then 0.0 else CpuOf(cs[..|cs| - 1]) + cs[|cs| - 1].cpu
  }

  function MemoryOf(cs: seq<ContainerMetric>): int {
    if cs == [] then 0 else MemoryOf(cs[..|cs| - 1]) + cs[|cs| - 1].memory
  }

  function LimitsOf(cs: seq<ContainerMetric>): int {
    if cs == [] then 0 else LimitsOf(cs[..|cs| - 1]) + cs[|cs| - 1].memoryLimit
  }

  /** What merging one sample makes of a target. */
  function Merge(m: WorkloadMetric, pod: Pod, item: PodMetric): WorkloadMetric {
    var more := Samples(pod, item.containers);
    m.(timestamp := Later(m.timestamp, item.timestamp),
       cpu := m.cpu + CpuOf(more), memory := m.memory + MemoryOf(more), memoryLimit := m.memoryLimit + LimitsOf(more),
       containers := m.containers + more)
  }

  /** The model.WorkloadMetric that aggregateAllMetrics points to and updates. */
  class Target {
    var timestamp: int
    const kind: string
    const namespace: string
    const name: string
    var cpu: real
    var memory: int
    var memoryLimit: int
    var containers: seq<ContainerMetric>

    function Value(): WorkloadMetric
      reads this
    {
      WorkloadMetric(timestamp, kind, namespace, name, cpu, memory, memoryLimit, containers)
    }

    constructor (timestamp: int, w: Workload)
      ensures Value() == Opened(timestamp, w)
    {
      this.timestamp := timestamp;
      kind, namespace, name := w.kind, w.namespace, w.name;
      cpu, memory, memoryLimit, containers := 0.0, 0, 0, [];
    }

    /** mergePodMetric */
    method MergePodMetric(pod: Pod, item: PodMetric)
      modifies this
      ensures Value() == Merge(old(Value()), pod, item)
    {
      if item.timestamp > timestamp || timestamp == 0 {
        timestamp := item.timestamp;
      }
      var limits := PodContainerMemoryLimits(pod);
      for i := 0 to |item.containers|
        invariant Value() == Merge(old(Value()), pod, item.(containers := item.containers[..i]))
      {
        MergeOneMore(old(Value()), pod, item, i);
        var container := item.containers[i];
        var limit := if container.name in limits then limits[container.name] else 0;
        var metric := ContainerMetric(pod.name, container.name, container.cpu, container.memory, limit);
        cpu := cpu + container.cpu;
        memory := memory + container.memory;
        memoryLimit := memoryLimit + metric.memoryLimit;
        containers := containers + [metric];
      }
      assert item.containers[..|item.containers|] == item.containers;
    }
  }

  lemma MergeOneMore(m: WorkloadMetric, pod: Pod, item: PodMetric, i: nat)
    requires i < |item.containers|
    ensures var before := Merge(m, pod, item.(containers := item.containers[..i]));
      var s := Sample(pod, item.containers[i]);
      Merge(m, pod, item.(containers := item.containers[..i + 1]))
      == before.(cpu := before.cpu + s.cpu, memory := before.memory + s.memory,
                 memoryLimit := before.memoryLimit + s.memoryLimit, containers := before.containers + [s])
  {
    var more := Samples(pod, item.containers[..i + 1]);
    assert more[..i] == Samples(pod, item.containers[..i]);
    assert m.containers + more == m.containers + more[..i] + [Sample(pod, item.containers[i])];
  }

  function Opened(timestamp: int, w: Workload): WorkloadMetric {
    WorkloadMetric(timestamp, w.kind, w.namespace, w.name, 0.0, 0, 0, [])
  }

  // --------------------------------------------------------------- aggregation

  function IndexKey(namespace: string, name: string): string {
    namespace + "/" + name
  }

  function PodIndex(pods: seq<Pod>): map<string, Pod> {
    if pods == [] then map[]
    else var pod := pods[|pods| - 1]; PodIndex(pods[..|pods| - 1])[IndexKey(pod.namespace, pod.name) := pod]
  }

  function InNamespace(workloads: seq<Workload>, namespace: string): seq<Workload> {
    if workloads == [] then []
    else
      var front, w := InNamespace(workloads[..|workloads| - 1], namespace), workloads[|workloads| - 1];
      if w.namespace == namespace then front + [w] else front
  }

  /** The pod and workload a sample is attributed to, if any. */
  ghost function Attributed(workloads: seq<Workload>, pods: seq<Pod>, item: PodMetric): Option<(Pod, Workload)> {
    var index := PodIndex(pods);
    var key := IndexKey(item.namespace, item.name);
    if key !in index then None
    else
      var pod := index[key];
      match Owner(pod, InNamespace(workloads, pod.namespace))
      case None => None
      case Some(w) => Some((pod, w))
  }

  // ------------------------------------------- what a sample is attributed to, over all lists

  /** The last listed pod of the item's namespace and name. */
  ghost predicate LastNamed(pods: seq<Pod>, item: PodMetric, i: nat) {
    && i < |pods| && pods[i].namespace == item.namespace && pods[i].name == item.name
    && forall j :: i < j < |pods| ==> pods[j].namespace != item.namespace || pods[j].name != item.name
  }

  ghost predicate IsLastNamed(pods: seq<Pod>, item: PodMetric, pod: Pod) {
    exists i: nat :: LastNamed(pods, item, i) && pod == pods[i]
  }

  /** The choice for a pod among all workloads: of those in its namespace, the first
      Pod entry of its name, or else the earliest selecting one of maximal
      specificity. */
  ghost predicate ChosenAmongAll(pod: Pod, ws: seq<Workload>, i: nat) {
    && i < |ws| && ws[i].namespace == pod.namespace
    && if exists j :: 0 <= j < |ws| && ws[j].namespace == pod.namespace && NamesPod(ws[j], pod) then
         NamesPod(ws[i], pod)
         && forall j :: 0 <= j < i && ws[j].namespace == pod.namespace ==> !NamesPod(ws[j], pod)
       else
         && Selects(ws[i], pod)
         && (forall j :: 0 <= j < |ws| && ws[j].namespace == pod.namespace && Selects(ws[j], pod) ==>
               Specificity(ws[j].selector) <= Specificity(ws[i].selector))
         && (forall j :: 0 <= j < i && ws[j].namespace == pod.namespace && Selects(ws[j], pod) ==>
               Specificity(ws[j].selector) < Specificity(ws[i].selector))
  }

  ghost predicate IsChosenAmongAll(pod: Pod, ws: seq<Workload>, w: Workload) {
    exists i: nat :: ChosenAmongAll(pod, ws, i) && w == ws[i]
  }

  /** Some workload of the pod's namespace names or selects it. */
  ghost predicate OwnableAmongAll(pod: Pod, ws: seq<Workload>) {
    exists j :: 0 <= j < |ws| && ws[j].namespace == pod.namespace && (NamesPod(ws[j], pod) || Selects(ws[j], pod))
  }

  /** Where the workloads of a namespace are. */
  function Places(ws: seq<Workload>, namespace: string): (at: seq<nat>)
    ensures forall k :: 0 <= k < |at| ==> at[k] < |ws|
  {
    if ws == [] then []
    else
      var front := Places(ws[..|ws| - 1], namespace);
      if ws[|ws| - 1].namespace == namespace then front + [|ws| - 1] else front
  }

  /** InNamespace takes all workloads of the namespace and no others, in order. */
  lemma {:induction false} PlacesTaken(ws: seq<Workload>, namespace: string)
    ensures var at, some := Places(ws, namespace), InNamespace(ws, namespace);
      && |at| == |some|
      && (forall k :: 0 <= k < |at| ==> some[k] == ws[at[k]] && ws[at[k]].namespace == namespace)
      && (forall k, l :: 0 <= k < l < |at| ==> at[k] < at[l])
      && (forall j :: 0 <= j < |ws| && ws[j].namespace == namespace ==> j in at)
  {
    if ws != [] {
      var n := |ws| - 1;
      PlacesTaken(ws[..n], namespace);
      PlacesStep(ws[..n], ws[n], namespace);
      assert ws == ws[..n] + [ws[n]];
      forall j | 0 <= j < |ws| && ws[j].namespace == namespace ensures j in Places(ws, namespace) {
        if j < n { assert ws[..n][j] == ws[j] && j in Places(ws[..n], namespace); }
      }
    }
  }

  lemma PlacesStep(ws: seq<Workload>, w: Workload, namespace: string)
    ensures Places(ws + [w], namespace) == Places(ws, namespace) + if w.namespace == namespace then [|ws|] else []
    ensures InNamespace(ws + [w], namespace)
      == InNamespace(ws, namespace) + if w.namespace == namespace then [w] else []
  {
    assert (ws + [w])[..|ws|] == ws;
  }

  lemma ChosenInPlace(pod: Pod, ws: seq<Workload>, i: nat)
    requires Chosen(pod, InNamespace(ws, pod.namespace), i)
    ensures i < |Places(ws, pod.namespace)| && ChosenAmongAll(pod, ws, Places(ws, pod.namespace)[i])
    ensures InNamespace(ws, pod.namespace)[i] == ws[Places(ws, pod.namespace)[i]]
  {
    hide NamesPod, Selects, Specificity, Places, InNamespace;
    PlacesTaken(ws, pod.namespace);
    var at, some := Places(ws, pod.namespace), InNamespace(ws, pod.namespace);
    forall j | 0 <= j < |ws| && ws[j].namespace == pod.namespace
      ensures exists k :: 0 <= k < |at| && at[k] == j && some[k] == ws[j] && (j < at[i] ==> k < i)
    {
      var k :| 0 <= k < |at| && at[k] == j;
      if k > i { assert at[i] < at[k]; }
    }
    forall k | 0 <= k < |some| ensures some[k] == ws[at[k]] && ws[at[k]].namespace == pod.namespace {}
  }

  lemma OwnableInPlace(pod: Pod, ws: seq<Workload>)
    ensures Ownable(pod, InNamespace(ws, pod.namespace)) <==> OwnableAmongAll(pod, ws)
  {
    hide NamesPod, Selects, Places, InNamespace;
    PlacesTaken(ws, pod.namespace);
    var at, some := Places(ws, pod.namespace), InNamespace(ws, pod.namespace);
    if OwnableAmongAll(pod, ws) {
      var j :| 0 <= j < |ws| && ws[j].namespace == pod.namespace && (NamesPod(ws[j], pod) || Selects(ws[j], pod));
      var k :| 0 <= k < |at| && at[k] == j;
      assert some[k] == ws[j];
    }
    if Ownable(pod, some) {
      var k :| 0 <= k < |some| && (NamesPod(some[k], pod) || Selects(some[k], pod));
      assert some[k] == ws[at[k]];
    }
  }

  lemma {:induction false} FirstNaming(pod: Pod, ws: seq<Workload>) returns (i: nat)
    requires exists j :: 0 <= j < |ws| && NamesPod(ws[j], pod)
    ensures Chosen(pod, ws, i)
  {
    i := 0;
    while !NamesPod(ws[i], pod)
      invariant i < |ws| && forall j :: 0 <= j < i ==> !NamesPod(ws[j], pod)
      decreases |ws| - i
    {
      i := i + 1;
    }
  }

  lemma BestSelecting(pod: Pod, ws: seq<Workload>) returns (i: nat)
    requires !exists j :: 0 <= j < |ws| && NamesPod(ws[j], pod)
    requires exists j :: 0 <= j < |ws| && Selects(ws[j], pod)
    ensures Chosen(pod, ws, i)
  {
    hide NamesPod, Selects, Specificity;
    var k :| 0 <= k < |ws| && Selects(ws[k], pod);
    i := k;
    var n := 0;
    while n < |ws|
      invariant 0 <= n <= |ws| && i < |ws| && Selects(ws[i], pod)
      invariant forall j :: 0 <= j < n && Selects(ws[j], pod) ==>
        Specificity(ws[j].selector) <= Specificity(ws[i].selector)
      invariant forall j :: 0 <= j < n && j < i && Selects(ws[j], pod) ==>
        Specificity(ws[j].selector) < Specificity(ws[i].selector)
    {
      if Selects(ws[n], pod)
         && (Specificity(ws[n].selector) > Specificity(ws[i].selector)
             || (Specificity(ws[n].selector) == Specificity(ws[i].selector) && n < i)) {
        i := n;
      }
      n := n + 1;
    }
  }

  lemma OwnableHasOwner(pod: Pod, ws: seq<Workload>)
    ensures Owner(pod, ws).Some? <==> Ownable(pod, ws)
  {
    hide NamesPod, Selects, Specificity;
    if exists j :: 0 <= j < |ws| && NamesPod(ws[j], pod) {
      var i := FirstNaming(pod, ws);
      OwnerIs(pod, ws, i);
    } else if exists j :: 0 <= j < |ws| && Selects(ws[j], pod) {
      var i := BestSelecting(pod, ws);
      OwnerIs(pod, ws, i);
    }
  }

  ghost predicate NoSlashes(pods: seq<Pod>, item: PodMetric) {
    '/' !in item.namespace && forall i :: 0 <= i < |pods| ==> '/' !in pods[i].namespace
  }

  lemma IndexKeyTells(a: string, b: string, c: string, d: string)
    requires '/' !in a && '/' !in c
    ensures IndexKey(a, b) == IndexKey(c, d) <==> a == c && b == d
  {
    SlashEnds(a, b);
    SlashEnds(c, d);
    var s, t := IndexKey(a, b), IndexKey(c, d);
    if s == t {
      assert |a| == |c|;
      assert s[..|a|] == a && t[..|c|] == c && s[|a| + 1..] == b && t[|c| + 1..] == d;
    }
  }

  /** The first slash ends the namespace. */
  lemma SlashEnds(a: string, b: string)
    requires '/' !in a
    ensures IndexKey(a, b)[|a|] == '/' && forall i :: 0 <= i < |a| ==> IndexKey(a, b)[i] != '/'
  {
  }

  /** The index holds the last pod of each namespace and name. */
  lemma {:induction false} IndexHoldsLast(pods: seq<Pod>, item: PodMetric)
    requires NoSlashes(pods, item)
    ensures var key := IndexKey(item.namespace, item.name);
      if key in PodIndex(pods) then IsLastNamed(pods, item, PodIndex(pods)[key])
      else forall pod :: !IsLastNamed(pods, item, pod)
  {
    hide IndexKey, IsLastNamed;
    if pods == [] {
      NobodyNamed(item);
    } else {
      var n := |pods| - 1;
      IndexHoldsLast(pods[..n], item);
      IndexKeyTells(item.namespace, item.name, pods[n].namespace, pods[n].name);
      forall pod
        ensures IsLastNamed(pods, item, pod) <==>
          if pods[n].namespace == item.namespace && pods[n].name == item.name then pod == pods[n]
          else IsLastNamed(pods[..n], item, pod)
      {
        LastNamedLater(pods, item, pod);
      }
    }
  }

  lemma NobodyNamed(item: PodMetric)
    ensures forall pod :: !IsLastNamed([], item, pod)
  {
  }

  lemma LastNamedLater(pods: seq<Pod>, item: PodMetric, pod: Pod)
    requires pods != []
    ensures var n := |pods| - 1;
      IsLastNamed(pods, item, pod) <==>
        if pods[n].namespace == item.namespace && pods[n].name == item.name then pod == pods[n]
        else IsLastNamed(pods[..n], item, pod)
  {
    var n := |pods| - 1;
    if pods[n].namespace == item.namespace && pods[n].name == item.name {
      assert LastNamed(pods, item, n);
    } else {
      forall i: nat ensures LastNamed(pods, item, i) <==> LastNamed(pods[..n], item, i) {}
      if i: nat :| LastNamed(pods[..n], item, i) && pod == pods[..n][i] { assert LastNamed(pods, item, i); }
    }
  }

  lemma LastNamedUnique(pods: seq<Pod>, item: PodMetric, p: Pod, q: Pod)
    requires IsLastNamed(pods, item, p) && IsLastNamed(pods, item, q)
    ensures p == q
  {
  }

  lemma ChoiceInPlace(pod: Pod, ws: seq<Workload>, w: Workload)
    requires Owner(pod, InNamespace(ws, pod.namespace)) == Some(w)
    ensures IsChosenAmongAll(pod, ws, w)
  {
    hide InNamespace, ChosenAmongAll;
    var some := InNamespace(ws, pod.namespace);
    var k: nat :| Chosen(pod, some, k) && Owner(pod, some) == Some(some[k]);
    ChosenInPlace(pod, ws, k);
    assert ChosenAmongAll(pod, ws, Places(ws, pod.namespace)[k]);
  }

  /** For every sample: it is attributed exactly if its pod, the last listed one of
      its namespace and name, is named or selected by some workload of that
      namespace; then to the choice among all of those. */
  lemma AttributedExact(ws: seq<Workload>, pods: seq<Pod>, item: PodMetric)
    requires NoSlashes(pods, item)
    ensures match Attributed(ws, pods, item)
      case None => forall pod :: IsLastNamed(pods, item, pod) ==> !OwnableAmongAll(pod, ws)
      case Some((pod, w)) => IsLastNamed(pods, item, pod) && OwnableAmongAll(pod, ws) && IsChosenAmongAll(pod, ws, w)
  {
    hide InNamespace, PodIndex, IndexKey, IsLastNamed, IsChosenAmongAll, OwnableAmongAll, Ownable, Owner, NoSlashes;
    var key := IndexKey(item.namespace, item.name);
    IndexHoldsLast(pods, item);
    if key in PodIndex(pods) {
      var pod := PodIndex(pods)[key];
      var some := InNamespace(ws, pod.namespace);
      OwnableHasOwner(pod, some);
      OwnableInPlace(pod, ws);
      if Owner(pod, some).None? {
        forall p | IsLastNamed(pods, item, p) ensures !OwnableAmongAll(p, ws) {
          LastNamedUnique(pods, item, pod, p);
        }
      } else {
        ChoiceInPlace(pod, ws, Owner(pod, some).value);
      }
    }
  }

  function MergeInto(m: map<string, WorkloadMetric>, pod: Pod, w: Workload, item: PodMetric):
    map<string, WorkloadMetric>
  {
    var base := if w.Key() in m then m[w.Key()] else Opened(item.timestamp, w);
    m[w.Key() := Merge(base, pod, item)]
  }

  ghost function Aggregate(workloads: seq<Workload>, pods: seq<Pod>, items: seq<PodMetric>):
    map<string, WorkloadMetric>
  {
    if items == [] then map[]
    else Extend(Aggregate(workloads, pods, items[..|items| - 1]), workloads, pods, items[|items| - 1])
  }

  ghost function Extend(
    m: map<string, WorkloadMetric>, workloads: seq<Workload>, pods: seq<Pod>, item: PodMetric):
    map<string, WorkloadMetric>
  {
    match Attributed(workloads, pods, item)
    case None => m
    case Some((pod, w)) => MergeInto(m, pod, w, item)
  }

  method IndexPods(pods: seq<Pod>) returns (index: map<string, Pod>)
    ensures index == PodIndex(pods)
  {
    index := map[];
    for i := 0 to |pods|
      invariant index == PodIndex(pods[..i])
    {
      assert pods[..i + 1][..i] == pods[..i];
      index := index[pods[i].namespace + "/" + pods[i].name := pods[i]];
    }
    assert pods[..|pods|] == pods;
  }

  function Lookup(m: map<string, seq<Workload>>, key: string): seq<Workload> {
    if key in m then m[key] else []
  }

  method GroupByNamespace(workloads: seq<Workload>) returns (groups: map<string, seq<Workload>>)
    ensures forall ns :: Lookup(groups, ns) == InNamespace(workloads, ns)
  {
    groups := map[];
    for i := 0 to |workloads|
      invariant forall ns :: Lookup(groups, ns) == InNamespace(workloads[..i], ns)
    {
      assert workloads[..i + 1][..i] == workloads[..i];
      var w := workloads[i];
      groups := groups[w.namespace := Lookup(groups, w.namespace) + [w]];
    }
    assert workloads[..|workloads|] == workloads;
  }

  ghost predicate Tracks(aggregates: map<string, Target>, m: map<string, WorkloadMetric>)
    reads aggregates.Values
  {
    && aggregates.Keys == m.Keys
    && (forall k :: k in m ==> aggregates[k].Value() == m[k])
    && (forall k, l :: k in m && l in m && k != l ==> aggregates[k] != aggregates[l])
  }

  /** Find or open the target of a workload and merge the sample into it. */
  method AddSample(aggregates: map<string, Target>, ghost m: map<string, WorkloadMetric>,
                   pod: Pod, workload: Workload, item: PodMetric)
    returns (updated: map<string, Target>)
    requires Tracks(aggregates, m)
    modifies aggregates.Values
    ensures Tracks(updated, MergeInto(m, pod, workload, item))
    ensures forall k :: k in updated ==> updated[k] in aggregates.Values || fresh(updated[k])
  {
    var key := workload.Key();
    updated := aggregates;
    if key !in aggregates {
      var first := new Target(item.timestamp, workload);
      updated := aggregates[key := first];
    }
    var target := updated[key];
    target.MergePodMetric(pod, item);
  }

  /** The body of the main loop of aggregateAllMetrics. */
  method Attribute(workloads: seq<Workload>, pods: seq<Pod>, podIndex: map<string, Pod>,
                   byNamespace: map<string, seq<Workload>>,
                   aggregates: map<string, Target>, ghost m: map<string, WorkloadMetric>, item: PodMetric)
    returns (updated: map<string, Target>)
    requires podIndex == PodIndex(pods)
    requires forall ns :: Lookup(byNamespace, ns) == InNamespace(workloads, ns)
    requires Tracks(aggregates, m)
    modifies aggregates.Values
    ensures Tracks(updated, Extend(m, workloads, pods, item))
    ensures forall k :: k in updated ==> updated[k] in aggregates.Values || fresh(updated[k])
  {
    updated := aggregates;
    var at := item.namespace + "/" + item.name;
    if at in podIndex {
      var pod := podIndex[at];
      var workload, ok := MetricWorkloadForPod(pod, Lookup(byNamespace, pod.namespace));
      if ok {
        updated := AddSample(aggregates, m, pod, workload, item);
      }
    }
  }

  /** The main loop of aggregateAllMetrics. */
  method FillAggregates(workloads: seq<Workload>, pods: seq<Pod>, metrics: seq<PodMetric>)
    returns (aggregates: map<string, Target>)
    ensures Tracks(aggregates, Aggregate(workloads, pods, metrics))
  {
    var podIndex := IndexPods(pods);
    var byNamespace := GroupByNamespace(workloads);
    aggregates := map[];
    for i := 0 to |metrics|
      invariant forall k :: k in aggregates ==> fresh(aggregates[k])
      invariant Tracks(aggregates, Aggregate(workloads, pods, metrics[..i]))
    {
      assert metrics[..i + 1][..i] == metrics[..i];
      aggregates := Attribute(workloads, pods, podIndex, byNamespace, aggregates,
          Aggregate(workloads, pods, metrics[..i]), metrics[i]);
    }
    assert metrics[..|metrics|] == metrics;
  }

  /** The order of the output: namespace, then name without regard to case. */
  predicate Before(a: WorkloadMetric, b: WorkloadMetric) {
    if a.namespace != b.namespace then Less(a.namespace, b.namespace) else Less(ToLower(a.name), ToLower(b.name))
  }

  /** Any arrangement sort.Slice may leave for that order. */
  ghost predicate Arranged(out: seq<WorkloadMetric>) {
    forall i, j :: 0 <= i < j < |out| ==> !Before(out[j], out[i])
  }

  lemma BeforeTransitive(a: WorkloadMetric, b: WorkloadMetric, c: WorkloadMetric)
    requires !Before(b, a) && !Before(c, b)
    ensures !Before(c, a)
  {
    LessTotal(a.namespace, b.namespace);
    LessTotal(b.namespace, c.namespace);
    LessTotal(a.namespace, c.namespace);
    if a.namespace == b.namespace == c.namespace {
      AtMostTransitive(ToLower(a.name), ToLower(b.name), ToLower(c.name));
    } else {
      AtMostTransitive(a.namespace, b.namespace, c.namespace);
    }
  }

  lemma BeforeAsymmetric(a: WorkloadMetric, b: WorkloadMetric)
    requires Before(a, b)
    ensures !Before(b, a)
  {
    LessTotal(a.namespace, b.namespace);
    LessTotal(ToLower(a.name), ToLower(b.name));
  }

  /** The output is in the order of namespaces, and within each in that of names
      without regard to case. */
  lemma ArrangedIs(out: seq<WorkloadMetric>)
    ensures Arranged(out) <==> forall i, j :: 0 <= i < j < |out| ==>
      && !Less(out[j].namespace, out[i].namespace)
      && (out[i].namespace == out[j].namespace ==> !Less(ToLower(out[j].name), ToLower(out[i].name)))
  {
    hide Less, ToLower;
    forall i, j | 0 <= i < j < |out| ensures !Before(out[j], out[i]) <==>
      && !Less(out[j].namespace, out[i].namespace)
      && (out[i].namespace == out[j].namespace ==> !Less(ToLower(out[j].name), ToLower(out[i].name)))
    {
      LessTotal(out[i].namespace, out[j].namespace);
    }
  }

  /** One insertion into an arranged sequence. */
  method Place(x: WorkloadMetric, out: seq<WorkloadMetric>) returns (at: nat)
    requires Arranged(out)
    ensures at <= |out| && Arranged(out[..at] + [x] + out[at..])
  {
    at := |out|;
    while at > 0 && Before(x, out[at - 1])
      invariant at <= |out|
      invariant forall j :: at <= j < |out| ==> !Before(out[j], x)
    {
      at := at - 1;
      BeforeAsymmetric(x, out[at]);
    }
    forall i | 0 <= i < at ensures !Before(x, out[i]) {
      if i < at - 1 { BeforeTransitive(out[i], out[at - 1], x); }
    }
  }

  /** out holds the entries of m, one for each of the keys. */
  ghost predicate Lists(keys: seq<string>, m: map<string, WorkloadMetric>, out: seq<WorkloadMetric>) {
    && |keys| == |out|
    && (forall i :: 0 <= i < |keys| ==> keys[i] in m && out[i] == m[keys[i]])
  }

  /** out lists every entry of m once. */
  ghost predicate IsOutput(m: map<string, WorkloadMetric>, out: seq<WorkloadMetric>) {
    exists keys: seq<string> :: Lists(keys, m, out) && multiset(keys) == multiset(m.Keys)
  }

  lemma NothingListed(m: map<string, WorkloadMetric>)
    ensures Lists([], m, []) && Arranged([])
  {
  }

  lemma ListsLength(keys: seq<string>, m: map<string, WorkloadMetric>, out: seq<WorkloadMetric>)
    requires Lists(keys, m, out)
    ensures |keys| == |out|
  {
  }

  lemma InsertEntry(keys: seq<string>, m: map<string, WorkloadMetric>, out: seq<WorkloadMetric>, at: nat, k: string)
    requires Lists(keys, m, out) && at <= |keys| && k in m
    ensures Lists(keys[..at] + [k] + keys[at..], m, out[..at] + [m[k]] + out[at..])
    ensures multiset(keys[..at] + [k] + keys[at..]) == multiset(keys) + multiset{k}
  {
    assert keys == keys[..at] + keys[at..];
  }

  /** aggregateAllMetrics: the targets copied out in any map order, then sorted. */
  method AggregateAllMetrics(workloads: seq<Workload>, pods: seq<Pod>, metrics: seq<PodMetric>)
    returns (out: seq<WorkloadMetric>)
    ensures Arranged(out)
    ensures IsOutput(Aggregate(workloads, pods, metrics), out)
    ensures OutTotal(out) == Counted(workloads, pods, metrics)
  {
    hide Arranged, IsOutput, Total, OutTotal, Counted, Aggregate;
    var aggregates := FillAggregates(workloads, pods, metrics);
    out := CopyOut(aggregates, Aggregate(workloads, pods, metrics));
    OutputConserves(workloads, pods, metrics, out);
  }

  method CopyOut(aggregates: map<string, Target>, ghost m: map<string, WorkloadMetric>)
    returns (out: seq<WorkloadMetric>)
    requires Tracks(aggregates, m)
    ensures Arranged(out) && IsOutput(m, out)
  {
    hide Arranged, Lists;
    out := [];
    ghost var keys: seq<string> := [];
    NothingListed(m);
    var remaining := aggregates.Keys;
    while remaining != {}
      invariant remaining <= m.Keys
      invariant Arranged(out) && Lists(keys, m, out)
      invariant multiset(m.Keys) == multiset(keys) + multiset(remaining)
      decreases |remaining|
    {
      var k :| k in remaining;
      remaining := remaining - {k};
      var value := aggregates[k].Value();
      var at := Place(value, out);
      ListsLength(keys, m, out);
      InsertEntry(keys, m, out, at, k);
      out, keys := out[..at] + [value] + out[at..], keys[..at] + [k] + keys[at..];
    }
  }

  // -------------------------------------------------------------- conservation

  /** What a collection of samples amounts to. */
  datatype Amount = Amount(cpu: real, memory: int, limit: int, samples: multiset<ContainerMetric>)

  const NOTHING := Amount(0.0, 0, 0, multiset{})

  function Plus(a: Amount, b: Amount): Amount {
    Amount(a.cpu + b.cpu, a.memory + b.memory, a.limit + b.limit, a.samples + b.samples)
  }

  function AmountOf(m: WorkloadMetric): Amount {
    Amount(m.cpu, m.memory, m.memoryLimit, multiset(m.containers))
  }

  function SampleAmount(cs: seq<ContainerMetric>): Amount {
    Amount(CpuOf(cs), MemoryOf(cs), LimitsOf(cs), multiset(cs))
  }

  /** The total over all entries of a map. */
  ghost function Total(m: map<string, WorkloadMetric>): Amount {
    if m == map[] then NOTHING else var k :| k in m; Plus(AmountOf(m[k]), Total(m - {k}))
  }

  /** The total over the samples that are attributed to some workload. */
  ghost function Counted(workloads: seq<Workload>, pods: seq<Pod>, items: seq<PodMetric>): Amount {
    if items == [] then NOTHING
    else
      var item := items[|items| - 1];
      var rest := Counted(workloads, pods, items[..|items| - 1]);
      match Attributed(workloads, pods, item)
      case None => rest
      case Some((pod, w)) => Plus(rest, SampleAmount(Samples(pod, item.containers)))
  }

  lemma PlusRotate(a: Amount, b: Amount, c: Amount)
    ensures Plus(a, Plus(b, c)) == Plus(b, Plus(a, c))
  {
  }

  lemma {:induction false} TotalAt(m: map<string, WorkloadMetric>, k: string)
    requires k in m
    ensures Total(m) == Plus(AmountOf(m[k]), Total(m - {k}))
    decreases |m|
  {
    var j :| j in m && Total(m) == Plus(AmountOf(m[j]), Total(m - {j}));
    if j != k {
      assert (m - {j}) - {k} == (m - {k}) - {j};
      TotalAt(m - {j}, k);
      TotalAt(m - {k}, j);
      PlusRotate(AmountOf(m[j]), AmountOf(m[k]), Total((m - {j}) - {k}));
    }
  }

  lemma MergeAmount(m: WorkloadMetric, pod: Pod, item: PodMetric)
    ensures AmountOf(Merge(m, pod, item)) == Plus(AmountOf(m), SampleAmount(Samples(pod, item.containers)))
  {
  }

  lemma PlusSwap(a: Amount, b: Amount, c: Amount)
    ensures Plus(Plus(a, b), c) == Plus(Plus(a, c), b)
    ensures Plus(NOTHING, a) == a
  {
  }

  /** Replacing one entry by one that amounts to more. */
  lemma UpdateTotal(m: map<string, WorkloadMetric>, key: string, base: Amount, more: Amount, entry: WorkloadMetric)
    requires base == if key in m then AmountOf(m[key]) else NOTHING
    requires AmountOf(entry) == Plus(base, more)
    ensures Total(m[key := entry]) == Plus(Total(m), more)
  {
    var rest := Total(m - {key});
    assert Total(m[key := entry]) == Plus(AmountOf(entry), rest) by {
      TotalAt(m[key := entry], key);
      assert m[key := entry] - {key} == m - {key};
    }
    assert Total(m) == Plus(base, rest) by {
      if key in m {
        TotalAt(m, key);
      } else {
        assert m - {key} == m;
        PlusSwap(rest, more, NOTHING);
      }
    }
    PlusSwap(base, more, rest);
  }

  lemma MergeIntoAdds(m: map<string, WorkloadMetric>, pod: Pod, w: Workload, item: PodMetric)
    ensures Total(MergeInto(m, pod, w, item)) == Plus(Total(m), SampleAmount(Samples(pod, item.containers)))
  {
    var n, key := MergeInto(m, pod, w, item), w.Key();
    var base := if key in m then m[key] else Opened(item.timestamp, w);
    MergeAmount(base, pod, item);
    UpdateTotal(m, key, AmountOf(base), SampleAmount(Samples(pod, item.containers)), Merge(base, pod, item));
  }

  /** Conservation: the entries together hold exactly the usage of the samples
      that belong to some workload, each container sample once. */
  lemma {:induction false} AttributionConserves(workloads: seq<Workload>, pods: seq<Pod>, items: seq<PodMetric>)
    ensures Total(Aggregate(workloads, pods, items)) == Counted(workloads, pods, items)
  {
    if items != [] {
      var item := items[|items| - 1];
      AttributionConserves(workloads, pods, items[..|items| - 1]);
      match Attributed(workloads, pods, item)
      case None =>
      case Some((pod, w)) => MergeIntoAdds(Aggregate(workloads, pods, items[..|items| - 1]), pod, w, item);
    }
  }

  /** The total over a list of output entries. */
  function OutTotal(out: seq<WorkloadMetric>): Amount {
    if out == [] then NOTHING else Plus(AmountOf(out[|out| - 1]), OutTotal(out[..|out| - 1]))
  }

  /** A list of all entries of a map totals what the map does. */
  lemma {:induction false} ListTotal(keys: seq<string>, m: map<string, WorkloadMetric>, out: seq<WorkloadMetric>)
    requires Lists(keys, m, out) && multiset(keys) == multiset(m.Keys)
    ensures OutTotal(out) == Total(m)
    decreases |keys|
  {
    hide Total;
    if keys == [] {
      assert multiset(m.Keys) == multiset{};
      NoEntries(m);
    } else {
      var n := |keys| - 1;
      var k := keys[n];
      OthersListed(keys, m);
      ListTotal(keys[..n], m - {k}, out[..n]);
      TotalAt(m, k);
    }
  }

  lemma NoEntries(m: map<string, WorkloadMetric>)
    requires multiset(m.Keys) == multiset{}
    ensures Total(m) == NOTHING
  {
    forall k ensures k !in m {
      assert k in m.Keys <==> multiset(m.Keys)[k] == 1;
    }
  }

  lemma OthersListed(keys: seq<string>, m: map<string, WorkloadMetric>)
    requires keys != [] && multiset(keys) == multiset(m.Keys)
    ensures var n := |keys| - 1;
      && keys[n] in m && multiset(keys[..n]) == multiset((m - {keys[n]}).Keys)
      && forall i :: 0 <= i < n ==> keys[i] != keys[n]
  {
    var n := |keys| - 1;
    assert keys == keys[..n] + [keys[n]];
    assert multiset(keys)[keys[n]] == multiset(keys[..n])[keys[n]] + 1;
    assert keys[n] in multiset(m.Keys);
    var rest := m.Keys - {keys[n]};
    assert (m - {keys[n]}).Keys == rest;
    assert multiset(keys) == multiset(keys[..n]) + multiset{keys[n]};
    forall k ensures multiset(keys[..n])[k] == multiset(rest)[k] {
      assert multiset(m.Keys)[k] == multiset(keys[..n])[k] + multiset{keys[n]}[k];
    }
    forall i | 0 <= i < n ensures keys[i] != keys[n] {
      assert keys[i] in multiset(keys[..n]);
    }
  }

  /** Conservation in what is returned: the output list holds exactly the usage of
      the samples that belong to some workload, each container sample once. */
  lemma OutputConserves(workloads: seq<Workload>, pods: seq<Pod>, items: seq<PodMetric>, out: seq<WorkloadMetric>)
    requires IsOutput(Aggregate(workloads, pods, items), out)
    ensures OutTotal(out) == Counted(workloads, pods, items)
  {
    hide Lists, Total, OutTotal, Counted, Aggregate;
    var m := Aggregate(workloads, pods, items);
    var keys: seq<string> :| Lists(keys, m, out) && multiset(keys) == multiset(m.Keys);
    ListTotal(keys, m, out);
    AttributionConserves(workloads, pods, items);
  }

  /** The samples attributed to workloads with this key, in order of arrival. */
  ghost function SamplesFor(key: string, workloads: seq<Workload>, pods: seq<Pod>, items: seq<PodMetric>):
    seq<ContainerMetric>
  {
    if items == [] then []
    else SamplesFor(key, workloads, pods, items[..|items| - 1]) + Fed(key, workloads, pods, items[|items| - 1])
  }

  ghost predicate Feeds(key: string, workloads: seq<Workload>, pods: seq<Pod>, item: PodMetric) {
    match Attributed(workloads, pods, item)
    case None => false
    case Some((_, w)) => w.Key() == key
  }

  ghost function Fed(key: string, workloads: seq<Workload>, pods: seq<Pod>, item: PodMetric): seq<ContainerMetric> {
    if !Feeds(key, workloads, pods, item) then []
    else Samples(Attributed(workloads, pods, item).value.0, item.containers)
  }

  lemma {:induction false} SumsAppend(a: seq<ContainerMetric>, b: seq<ContainerMetric>)
    ensures CpuOf(a + b) == CpuOf(a) + CpuOf(b)
    ensures MemoryOf(a + b) == MemoryOf(a) + MemoryOf(b)
    ensures LimitsOf(a + b) == LimitsOf(a) + LimitsOf(b)
  {
    if b == [] {
      assert a + b == a;
    } else {
      SumsAppend(a, b[..|b| - 1]);
      assert (a + b)[..|a + b| - 1] == a + b[..|b| - 1];
    }
  }

  /** The totals of an entry are the sums of its container list. */
  ghost predicate Balanced(m: WorkloadMetric) {
    m.cpu == CpuOf(m.containers) && m.memory == MemoryOf(m.containers) && m.memoryLimit == LimitsOf(m.containers)
  }

  lemma MergeBalanced(m: WorkloadMetric, pod: Pod, item: PodMetric)
    requires Balanced(m)
    ensures Balanced(Merge(m, pod, item))
  {
    SumsAppend(m.containers, Samples(pod, item.containers));
  }

  ghost predicate SomeFeeds(key: string, workloads: seq<Workload>, pods: seq<Pod>, items: seq<PodMetric>) {
    exists i :: 0 <= i < |items| && Feeds(key, workloads, pods, items[i])
  }

  lemma SomeFeedsLast(key: string, workloads: seq<Workload>, pods: seq<Pod>, items: seq<PodMetric>)
    requires items != []
    ensures SomeFeeds(key, workloads, pods, items) <==>
      SomeFeeds(key, workloads, pods, items[..|items| - 1]) || Feeds(key, workloads, pods, items[|items| - 1])
  {
    assert forall i :: 0 <= i < |items| - 1 ==> items[i] == items[..|items| - 1][i];
  }

  /** An entry exists exactly for the keys some sample feeds; it holds those
      samples and no others, and its totals are the sums of its container list. */
  lemma {:induction false} EntryHoldsItsSamples(key: string, workloads: seq<Workload>, pods: seq<Pod>,
      items: seq<PodMetric>)
    ensures key in Aggregate(workloads, pods, items) <==> SomeFeeds(key, workloads, pods, items)
    ensures SomeFeeds(key, workloads, pods, items) ==>
      && Aggregate(workloads, pods, items)[key].containers == SamplesFor(key, workloads, pods, items)
      && Balanced(Aggregate(workloads, pods, items)[key])
    ensures !SomeFeeds(key, workloads, pods, items) ==> SamplesFor(key, workloads, pods, items) == []
  {
    if items != [] {
      var front, item := items[..|items| - 1], items[|items| - 1];
      var m := Aggregate(workloads, pods, front);
      EntryHoldsItsSamples(key, workloads, pods, front);
      SomeFeedsLast(key, workloads, pods, items);
      match Attributed(workloads, pods, item)
      case None =>
      case Some((pod, w)) =>
        var base := if w.Key() in m then m[w.Key()] else Opened(item.timestamp, w);
        if w.Key() == key { MergeBalanced(base, pod, item); }
    }
  }

  // -------------------------------------------------------- what the output shows

  /** The entry is about this workload. */
  predicate IsAbout(m: WorkloadMetric, w: Workload) {
    m.kind == w.kind && m.namespace == w.namespace && m.name == w.name
  }

  /** Bars in names apart, workloads are told apart by all four fields. */
  predicate NoBars(w: Workload) {
    '|' !in w.connectionID && '|' !in w.namespace && '|' !in w.kind
  }

  lemma BarEnds(a: string, b: string, c: string, d: string)
    requires '|' !in a && '|' !in c && a + "|" + b == c + "|" + d
    ensures a == c && b == d
  {
    var s, t := a + "|" + b, c + "|" + d;
    assert s[|a|] == '|' && t[|c|] == '|';
    assert forall i :: 0 <= i < |a| ==> s[i] == a[i];
    assert forall i :: 0 <= i < |c| ==> t[i] == c[i];
    assert |a| == |c|;
    assert s[..|a|] == a && t[..|c|] == c && s[|a| + 1..] == b && t[|c| + 1..] == d;
  }

  lemma KeyTells(v: Workload, w: Workload)
    requires NoBars(v) && NoBars(w)
    ensures v.Key() == w.Key() <==>
      v.connectionID == w.connectionID && v.namespace == w.namespace && v.kind == w.kind && v.name == w.name
  {
    if v.Key() == w.Key() {
      var v2, w2 := v.kind + "|" + v.name, w.kind + "|" + w.name;
      var v1, w1 := v.namespace + "|" + v2, w.namespace + "|" + w2;
      assert v.Key() == v.connectionID + "|" + v1 && w.Key() == w.connectionID + "|" + w1;
      BarEnds(v.connectionID, v1, w.connectionID, w1);
      BarEnds(v.namespace, v2, w.namespace, w2);
      BarEnds(v.kind, v.name, w.kind, w.name);
    }
  }

  ghost predicate AllWithoutBars(ws: seq<Workload>) {
    forall i :: 0 <= i < |ws| ==> NoBars(ws[i])
  }

  lemma AttributedListed(ws: seq<Workload>, pods: seq<Pod>, item: PodMetric)
    ensures Attributed(ws, pods, item).Some? ==> Attributed(ws, pods, item).value.1 in ws
  {
    hide Chosen;
    match Attributed(ws, pods, item)
    case None =>
    case Some((pod, w)) =>
      PlacesTaken(ws, pod.namespace);
      OwnerListed(pod, InNamespace(ws, pod.namespace));
  }

  lemma OwnerListed(pod: Pod, candidates: seq<Workload>)
    ensures Owner(pod, candidates).Some? ==> Owner(pod, candidates).value in candidates
  {
  }

  /** Each entry is about the workloads whose samples it holds. */
  lemma {:induction false} EntryIsAbout(w: Workload, ws: seq<Workload>, pods: seq<Pod>, items: seq<PodMetric>)
    requires AllWithoutBars(ws) && NoBars(w)
    ensures w.Key() in Aggregate(ws, pods, items) ==> IsAbout(Aggregate(ws, pods, items)[w.Key()], w)
  {
    hide Samples, Attributed, AllWithoutBars, NoBars;
    if items != [] {
      var item := items[|items| - 1];
      EntryIsAbout(w, ws, pods, items[..|items| - 1]);
      match Attributed(ws, pods, item)
      case None =>
      case Some((pod, owner)) =>
        AttributedListed(ws, pods, item);
        BarlessIn(ws, owner);
        KeyTells(w, owner);
    }
  }

  lemma BarlessIn(ws: seq<Workload>, w: Workload)
    requires AllWithoutBars(ws) && w in ws
    ensures NoBars(w)
  {
  }

  lemma {:induction false} FedIsHeld(
    key: string, ws: seq<Workload>, pods: seq<Pod>, items: seq<PodMetric>, i: nat, j: nat)
    requires i < |items| && Feeds(key, ws, pods, items[i]) && j < |items[i].containers|
    ensures Sample(Attributed(ws, pods, items[i]).value.0, items[i].containers[j]) in SamplesFor(key, ws, pods, items)
  {
    hide Attributed;
    var n := |items| - 1;
    if i < n {
      FedIsHeld(key, ws, pods, items[..n], i, j);
    } else {
      assert Fed(key, ws, pods, items[n])[j] == Sample(Attributed(ws, pods, items[n]).value.0, items[n].containers[j]);
    }
  }

  /** From a container's usage to the page: whenever a sample is attributed, the
      output has an entry about that very workload, and among its containers this
      one, with its pod, usage and limit. */
  lemma UsageIsShown(
    ws: seq<Workload>, pods: seq<Pod>, items: seq<PodMetric>, out: seq<WorkloadMetric>, i: nat, j: nat)
    requires AllWithoutBars(ws) && IsOutput(Aggregate(ws, pods, items), out)
    requires i < |items| && j < |items[i].containers| && Attributed(ws, pods, items[i]).Some?
    ensures var (pod, w) := Attributed(ws, pods, items[i]).value;
      var u := items[i].containers[j];
      exists e :: 0 <= e < |out| && IsAbout(out[e], w) &&
        ContainerMetric(pod.name, u.name, u.cpu, u.memory, LimitOf(AllContainers(pod), u.name)) in out[e].containers
  {
    hide Attributed, Aggregate, SamplesFor, Samples, AllWithoutBars, NoBars;
    var (pod, w) := Attributed(ws, pods, items[i]).value;
    var m, key := Aggregate(ws, pods, items), w.Key();
    assert Feeds(key, ws, pods, items[i]);
    EntryHoldsItsSamples(key, ws, pods, items);
    FedIsHeld(key, ws, pods, items, i, j);
    AttributedListed(ws, pods, items[i]);
    BarlessIn(ws, w);
    EntryIsAbout(w, ws, pods, items);
    var keys: seq<string> :| Lists(keys, m, out) && multiset(keys) == multiset(m.Keys);
    assert key in multiset(m.Keys);
    var e :| 0 <= e < |keys| && keys[e] == key;
    assert out[e] == m[key];
  }

  /** An entry's key in terms of what it shows. */
  lemma {:induction false} KeyIsShown(
    key: string, connection: string, ws: seq<Workload>, pods: seq<Pod>, items: seq<PodMetric>)
    requires forall k :: 0 <= k < |ws| ==> ws[k].connectionID == connection
    ensures key in Aggregate(ws, pods, items) ==>
      var entry := Aggregate(ws, pods, items)[key];
      key == Workload(connection, entry.namespace, entry.kind, entry.name, "").Key()
  {
    hide Samples, Attributed;
    if items != [] {
      KeyIsShown(key, connection, ws, pods, items[..|items| - 1]);
      AttributedListed(ws, pods, items[|items| - 1]);
    }
  }

  /** Of one connection's workloads no two entries are about the same. */
  lemma OneEntryPerWorkload(
    connection: string, ws: seq<Workload>, pods: seq<Pod>, items: seq<PodMetric>, out: seq<WorkloadMetric>,
    e: nat, f: nat)
    requires forall k :: 0 <= k < |ws| ==> ws[k].connectionID == connection
    requires IsOutput(Aggregate(ws, pods, items), out) && e < f < |out|
    ensures !(out[e].kind == out[f].kind && out[e].namespace == out[f].namespace && out[e].name == out[f].name)
  {
    hide Aggregate, Attributed;
    var m := Aggregate(ws, pods, items);
    var keys: seq<string> :| Lists(keys, m, out) && multiset(keys) == multiset(m.Keys);
    KeyIsShown(keys[e], connection, ws, pods, items);
    KeyIsShown(keys[f], connection, ws, pods, items);
    if keys[e] == keys[f] { OnceListed(keys, m, e, f); }
  }

  lemma OnceListed(keys: seq<string>, m: map<string, WorkloadMetric>, e: nat, f: nat)
    requires multiset(keys) == multiset(m.Keys) && e < f < |keys|
    ensures keys[e] != keys[f]
  {
    assert keys == keys[..f] + keys[f..];
    assert keys[e] in keys[..f] && keys[f] in keys[f..];
    assert multiset(keys) == multiset(keys[..f]) + multiset(keys[f..]);
    assert keys[..f][e] in multiset(keys[..f]) && keys[f..][0] in multiset(keys[f..]);
    assert multiset(m.Keys)[keys[e]] <= 1;
  }

  /** Some attributed sample has this time, and none has a later one. */
  ghost predicate IsLatest(t: int, key: string, workloads: seq<Workload>, pods: seq<Pod>, items: seq<PodMetric>) {
    && (exists i :: 0 <= i < |items| && Feeds(key, workloads, pods, items[i]) && items[i].timestamp == t)
    && (forall i :: 0 <= i < |items| && Feeds(key, workloads, pods, items[i]) ==> items[i].timestamp <= t)
  }

  lemma LatestLast(t: int, key: string, workloads: seq<Workload>, pods: seq<Pod>, front: seq<PodMetric>,
      item: PodMetric)
    requires item.timestamp >= 0
    ensures !SomeFeeds(key, workloads, pods, front) && Feeds(key, workloads, pods, item) ==>
      IsLatest(item.timestamp, key, workloads, pods, front + [item])
    ensures IsLatest(t, key, workloads, pods, front) && t >= 0 ==>
      var latest := if Feeds(key, workloads, pods, item) then Later(t, item.timestamp) else t;
      IsLatest(latest, key, workloads, pods, front + [item])
  {
    hide Feeds;
    var items := front + [item];
    assert items[|front|] == item && forall i :: 0 <= i < |front| ==> items[i] == front[i];
    if IsLatest(t, key, workloads, pods, front) {
      var i :| 0 <= i < |front| && Feeds(key, workloads, pods, front[i]) && front[i].timestamp == t;
      assert items[i] == front[i];
    }
  }

  /** An entry's time is that of its latest sample. */
  lemma {:induction false} EntryIsLatest(key: string, workloads: seq<Workload>, pods: seq<Pod>, items: seq<PodMetric>)
    requires forall i :: 0 <= i < |items| ==> items[i].timestamp >= 0
    ensures key in Aggregate(workloads, pods, items) ==>
      var t := Aggregate(workloads, pods, items)[key].timestamp; t >= 0 && IsLatest(t, key, workloads, pods, items)
  {
    hide IsLatest, Samples;
    if items != [] {
      var front, item := items[..|items| - 1], items[|items| - 1];
      var m := Aggregate(workloads, pods, front);
      EntryIsLatest(key, workloads, pods, front);
      EntryHoldsItsSamples(key, workloads, pods, front);
      assert front + [item] == items;
      LatestLast(if key in m then m[key].timestamp else 0, key, workloads, pods, front, item);
    }
  }
}
