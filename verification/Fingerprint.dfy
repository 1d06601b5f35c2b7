/** podRuntimeFingerprint of internal/kube/types.go: a text that identifies the
    running containers of a pod. */
module Fingerprint {
  import opened Text
  import opened Sorting

  datatype ContainerStatus = ContainerStatus(name: string, containerID: string, restartCount: int)
  datatype PodStatus = PodStatus(
    init: seq<ContainerStatus>, containers: seq<ContainerStatus>, ephemeral: seq<ContainerStatus>)

  /** podContainerStatuses */
  function Statuses(pod: PodStatus): seq<ContainerStatus> {
    pod.init + pod.containers + pod.ephemeral
  }

  function Part(s: ContainerStatus): string {
    s.name + "=" + Rest(s)
  }

  function Rest(s: ContainerStatus): string {
    s.containerID + ":" + Itoa(s.restartCount)
  }

  function Parts(statuses: seq<ContainerStatus>): seq<string> {
    seq(|statuses|, i requires 0 <= i < |statuses| => Part(statuses[i]))
  }

  function FingerprintOf(pod: PodStatus): string {
    Join(Sorted(Parts(Statuses(pod))), "|")
  }

  method PodRuntimeFingerprint(pod: PodStatus) returns (text: string)
    ensures text == FingerprintOf(pod)
  {
    var statuses := pod.init + pod.containers + pod.ephemeral;
    var parts: seq<string> := [];
    for i := 0 to |statuses|
      invariant |parts| == i
      invariant forall j :: 0 <= j < i ==> parts[j] == Part(statuses[j])
    {
      var status := statuses[i];
      parts := parts + [status.name + "=" + (status.containerID + ":" + Itoa(status.restartCount))];
    }
    assert parts == Parts(statuses);
    text := Join(Sorted(parts), "|");
  }

  // ------------------------------------------------------------ injectivity

  lemma {:induction false} DigitsOnly(n: nat)
    ensures Digits(n) != "" && forall c :: c in Digits(n) ==> '0' <= c <= '9'
  {
    if n >= 10 { DigitsOnly(n / 10); }
  }

  lemma {:induction false} DigitsInjective(m: nat, n: nat)
    requires Digits(m) == Digits(n)
    ensures m == n
  {
    var d, e := Digits(m), Digits(n);
    assert d[|d| - 1] == (m % 10) as char + '0';
    assert e[|e| - 1] == (n % 10) as char + '0';
    assert m % 10 == n % 10;
    if m >= 10 { DigitsOnly(m / 10); }
    if n >= 10 { DigitsOnly(n / 10); }
    assert m < 10 <==> |d| == 1;
    assert n < 10 <==> |e| == 1;
    if m >= 10 {
      assert Digits(m / 10) == d[..|d| - 1] && Digits(n / 10) == e[..|e| - 1];
      DigitsInjective(m / 10, n / 10);
    }
  }

  lemma ItoaCharacters(n: int)
    ensures forall c :: c in Itoa(n) ==> c == '-' || '0' <= c <= '9'
  {
    DigitsOnly(if n < 0 then -n else n);
  }

  lemma ItoaSign(n: int)
    ensures Itoa(n) != "" && (Itoa(n)[0] == '-' <==> n < 0)
  {
    DigitsOnly(if n < 0 then -n else n);
    var d := Digits(if n < 0 then -n else n);
    assert d[0] in d;
  }

  lemma ItoaInjective(m: int, n: int)
    requires Itoa(m) == Itoa(n)
    ensures m == n
  {
    ItoaSign(m);
    ItoaSign(n);
    if m < 0 {
      assert Itoa(m)[1..] == Digits(-m) && Itoa(n)[1..] == Digits(-n);
      DigitsInjective(-m, -n);
    } else {
      DigitsInjective(m, n);
    }
  }

  /** Text before the first separator is determined. */
  lemma FirstField(a: string, x: string, b: string, y: string, sep: char)
    requires sep !in a && sep !in b && a + [sep] + x == b + [sep] + y
    ensures a == b && x == y
  {
    SplitPiece(a, x, sep);
    SplitPiece(b, y, sep);
    assert ([a] + Split(x, sep))[0] == ([b] + Split(y, sep))[0];
    assert x == (a + [sep] + x)[|a| + 1..] && y == (b + [sep] + y)[|b| + 1..];
  }

  lemma LastIsNotLater(a: string, x: string, b: string, y: string, sep: char)
    requires sep !in x && a + [sep] + x == b + [sep] + y
    ensures |b| <= |a|
  {
    var s := a + [sep] + x;
    assert s[|b|] == (b + [sep] + y)[|b|] == sep;
    assert forall k :: |a| < k < |s| ==> s[k] == x[k - |a| - 1];
  }

  /** Text after the last separator is determined. */
  lemma LastField(a: string, x: string, b: string, y: string, sep: char)
    requires sep !in x && sep !in y && a + [sep] + x == b + [sep] + y
    ensures a == b && x == y
  {
    LastIsNotLater(a, x, b, y, sep);
    LastIsNotLater(b, y, a, x, sep);
    assert a == (a + [sep] + x)[..|a|] && b == (b + [sep] + y)[..|b|];
    assert x == (a + [sep] + x)[|a| + 1..] && y == (b + [sep] + y)[|b| + 1..];
  }

  /** Names hold no `=` and no `|`, container IDs no `|`. */
  predicate Plain(s: ContainerStatus) {
    '=' !in s.name && '|' !in s.name && '|' !in s.containerID
  }

  lemma PartInjective(s: ContainerStatus, t: ContainerStatus)
    requires Plain(s) && Plain(t) && Part(s) == Part(t)
    ensures s == t
  {
    FirstField(s.name, Rest(s), t.name, Rest(t), '=');
    ItoaCharacters(s.restartCount);
    ItoaCharacters(t.restartCount);
    LastField(s.containerID, Itoa(s.restartCount), t.containerID, Itoa(t.restartCount), ':');
    ItoaInjective(s.restartCount, t.restartCount);
  }

  lemma PartHasNoBar(s: ContainerStatus)
    requires Plain(s)
    ensures '|' !in Part(s) && Part(s) != ""
  {
    ItoaCharacters(s.restartCount);
  }

  // --------------------------------------------- multisets of statuses and parts

  ghost predicate AllPlain(ss: seq<ContainerStatus>) {
    forall i :: 0 <= i < |ss| ==> Plain(ss[i])
  }

  /** Among plain statuses a part occurs as often as its status. */
  lemma {:induction false} PartCount(ss: seq<ContainerStatus>, s: ContainerStatus)
    requires AllPlain(ss) && Plain(s)
    ensures multiset(Parts(ss))[Part(s)] == multiset(ss)[s]
  {
    hide Part, Plain;
    if ss != [] {
      PartCount(ss[1..], s);
      assert Plain(ss[0]);
      assert multiset(ss) == multiset{ss[0]} + multiset(ss[1..]) by { assert ss == [ss[0]] + ss[1..]; }
      assert multiset(Parts(ss)) == multiset{Part(ss[0])} + multiset(Parts(ss[1..])) by {
        assert Parts(ss) == [Part(ss[0])] + Parts(ss[1..]);
      }
      if Part(ss[0]) == Part(s) { PartInjective(ss[0], s); }
    }
  }

  lemma PartOf(ss: seq<ContainerStatus>, p: string)
    requires p in multiset(Parts(ss))
    ensures exists i :: 0 <= i < |ss| && p == Part(ss[i])
  {
    assert p in Parts(ss);
    var i :| 0 <= i < |ss| && Parts(ss)[i] == p;
  }

  lemma PartsDetermine(ss: seq<ContainerStatus>, ts: seq<ContainerStatus>)
    requires AllPlain(ss) && AllPlain(ts)
    ensures multiset(Parts(ss)) == multiset(Parts(ts)) <==> multiset(ss) == multiset(ts)
  {
    if multiset(Parts(ss)) == multiset(Parts(ts)) {
      forall s ensures multiset(ss)[s] == multiset(ts)[s] {
        if s in multiset(ss) || s in multiset(ts) {
          assert s in ss || s in ts;
          PartCount(ss, s);
          PartCount(ts, s);
        }
      }
    }
    if multiset(ss) == multiset(ts) {
      forall p ensures multiset(Parts(ss))[p] == multiset(Parts(ts))[p] {
        if p in multiset(Parts(ss)) {
          PartOf(ss, p);
          var i :| 0 <= i < |ss| && p == Part(ss[i]);
          PartCount(ss, ss[i]);
          PartCount(ts, ss[i]);
        } else if p in multiset(Parts(ts)) {
          PartOf(ts, p);
          var i :| 0 <= i < |ts| && p == Part(ts[i]);
          PartCount(ss, ts[i]);
          PartCount(ts, ts[i]);
        }
      }
    }
  }

  lemma JoinInjective(a: seq<string>, b: seq<string>)
    requires forall i :: 0 <= i < |a| ==> '|' !in a[i] && a[i] != ""
    requires forall i :: 0 <= i < |b| ==> '|' !in b[i] && b[i] != ""
    requires Join(a, "|") == Join(b, "|")
    ensures a == b
  {
    if a != [] { SplitJoin(a, '|'); }
    if b != [] { SplitJoin(b, '|'); }
    assert Split("", '|') == [""];
  }

  lemma SortedPartsPlain(ss: seq<ContainerStatus>)
    requires AllPlain(ss)
    ensures forall i :: 0 <= i < |Sorted(Parts(ss))| ==> '|' !in Sorted(Parts(ss))[i] && Sorted(Parts(ss))[i] != ""
  {
    var parts := Sorted(Parts(ss));
    SortedIsSorted(Parts(ss));
    forall i | 0 <= i < |parts| ensures '|' !in parts[i] && parts[i] != "" {
      assert parts[i] in multiset(parts);
      PartOf(ss, parts[i]);
      var j :| 0 <= j < |ss| && parts[i] == Part(ss[j]);
      PartHasNoBar(ss[j]);
    }
  }

  /** The statuses of all of a pod's containers, of whatever kind. */
  ghost function Containers(pod: PodStatus): multiset<ContainerStatus> {
    multiset(pod.init) + multiset(pod.containers) + multiset(pod.ephemeral)
  }

  /** The fingerprint is canonical: two pods share it exactly when they run the
      same containers with the same IDs and restart counts, in any order. */
  lemma FingerprintCanonical(p: PodStatus, q: PodStatus)
    requires forall s :: s in Containers(p) || s in Containers(q) ==> Plain(s)
    ensures FingerprintOf(p) == FingerprintOf(q) <==> Containers(p) == Containers(q)
  {
    hide Plain;
    StatusesPlain(p);
    StatusesPlain(q);
    CanonicalStatuses(p, q);
  }

  lemma StatusesPlain(p: PodStatus)
    requires forall s :: s in Containers(p) ==> Plain(s)
    ensures AllPlain(Statuses(p)) && multiset(Statuses(p)) == Containers(p)
  {
    hide Plain;
    forall i | 0 <= i < |Statuses(p)| ensures Plain(Statuses(p)[i]) {
      assert Statuses(p)[i] in multiset(Statuses(p));
    }
  }

  lemma CanonicalStatuses(p: PodStatus, q: PodStatus)
    requires AllPlain(Statuses(p)) && AllPlain(Statuses(q))
    ensures FingerprintOf(p) == FingerprintOf(q) <==> multiset(Statuses(p)) == multiset(Statuses(q))
  {
    var a, b := Parts(Statuses(p)), Parts(Statuses(q));
    SortedPartsPlain(Statuses(p));
    SortedPartsPlain(Statuses(q));
    PartsDetermine(Statuses(p), Statuses(q));
    SortedEqual(a, b);
    if FingerprintOf(p) == FingerprintOf(q) { JoinInjective(Sorted(a), Sorted(b)); }
  }

  // ------------------------------------------------- pods whose names or IDs hold bars

  /** Texts cut at every bar. */
  function Pieces(parts: seq<string>): seq<string> {
    if parts == [] then [] else Split(parts[0], '|') + Pieces(parts[1..])
  }

  lemma {:induction false} SplitOfJoin(parts: seq<string>)
    requires parts != []
    ensures Split(Join(parts, "|"), '|') == Pieces(parts)
  {
    if |parts| == 1 {
      assert parts[1..] == [];
    } else {
      SplitOfJoin(parts[1..]);
      SplitBetween(parts[0], Join(parts[1..], "|"), '|');
    }
  }

  /** Every pod, whatever its names and IDs: two fingerprints are equal exactly
      when the sorted parts, cut at every bar, are the same texts. */
  lemma FingerprintExact(p: PodStatus, q: PodStatus)
    ensures FingerprintOf(p) == FingerprintOf(q) <==>
      Pieces(Sorted(Parts(Statuses(p)))) == Pieces(Sorted(Parts(Statuses(q))))
  {
    var a, b := Sorted(Parts(Statuses(p))), Sorted(Parts(Statuses(q)));
    PiecesDetermine(Statuses(p));
    PiecesDetermine(Statuses(q));
    if Pieces(a) == Pieces(b) {
      JoinOfSplit(Join(a, "|"), '|');
      JoinOfSplit(Join(b, "|"), '|');
    }
  }

  /** The pieces and the text of a pod determine each other. */
  lemma PiecesDetermine(ss: seq<ContainerStatus>)
    ensures var parts := Sorted(Parts(ss));
      if ss == [] then Pieces(parts) == [] && Join(parts, "|") == ""
      else Pieces(parts) == Split(Join(parts, "|"), '|') && Join(parts, "|") != ""
  {
    var parts := Sorted(Parts(ss));
    SortedIsSorted(Parts(ss));
    assert |multiset(parts)| == |parts| && |multiset(Parts(ss))| == |ss|;
    if ss != [] {
      SplitOfJoin(parts);
      assert parts[0] in multiset(Parts(ss));
      PartOf(ss, parts[0]);
      var i :| 0 <= i < |ss| && parts[0] == Part(ss[i]);
      assert '=' in Part(ss[i]);
      JoinHolds(parts, '=');
    }
  }

  lemma JoinHolds(parts: seq<string>, c: char)
    requires parts != [] && c in parts[0]
    ensures Join(parts, "|") != ""
  {
    assert parts[0] != "";
  }

  lemma SortedOne(a: string)
    ensures Sorted([a]) == [a]
  {
    assert [a][1..] == [];
  }

  lemma SortedTwo(a: string, b: string)
    requires !Less(b, a)
    ensures Sorted([a, b]) == [a, b]
  {
    LessTotal(a, b);
    SortedOne(b);
    assert [a, b][1..] == [b];
  }

  lemma SmallNumbers()
    ensures Itoa(1) == "1" && Itoa(2) == "2"
  {
  }

  const BARRED := ContainerStatus("a", "x:1|b=y", 2)
  const PLAIN_A := ContainerStatus("a", "x", 1)
  const PLAIN_B := ContainerStatus("b", "y", 2)

  lemma PartTexts()
    ensures Part(BARRED) == "a=x:1|b=y:2" && Part(PLAIN_A) == "a=x:1" && Part(PLAIN_B) == "b=y:2"
  {
    hide Itoa;
    SmallNumbers();
  }

  lemma JoinedTexts()
    ensures Join(["a=x:1|b=y:2"], "|") == "a=x:1|b=y:2" == Join(["a=x:1", "b=y:2"], "|")
  {
    assert ["a=x:1", "b=y:2"][1..] == ["b=y:2"];
    assert Join(["b=y:2"], "|") == "b=y:2";
  }

  /** A container ID with a `|` can make one container look like two. */
  lemma BarsCollide()
    ensures var p, q := PodStatus([], [BARRED], []), PodStatus([], [PLAIN_A, PLAIN_B], []);
      FingerprintOf(p) == FingerprintOf(q) && multiset(Statuses(p)) != multiset(Statuses(q))
  {
    hide Part, Less, Join;
    var p, q := PodStatus([], [BARRED], []), PodStatus([], [PLAIN_A, PLAIN_B], []);
    PartTexts();
    assert Parts(Statuses(p)) == ["a=x:1|b=y:2"];
    assert Parts(Statuses(q)) == ["a=x:1", "b=y:2"];
    NotLess();
    SortedOne("a=x:1|b=y:2");
    SortedTwo("a=x:1", "b=y:2");
    JoinedTexts();
    assert |multiset(Statuses(p))| == 1 && |multiset(Statuses(q))| == 2;
  }

  lemma NotLess()
    ensures !Less("b=y:2", "a=x:1")
  {
  }
}
