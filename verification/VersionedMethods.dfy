/** The implementations registered for one versioned API method: the sweep that looks for overlapping
    version intervals, registration, and the choice of the implementation for a request. */
module VersionedMethods {
  import opened ApiVersions

  /** VersionedMethod; func identifies the function. A null end is an interval without end. */
  datatype Method = Method(start: Version, end: Version, func: nat)

  /** An entry of the sweep's list: a version, +1 or -1, and the place at which it was appended. */
  datatype Edge = Edge(version: Version, delta: int, at: nat)

  /** The order a stable sort by version gives. */
  predicate Before(e: Edge, f: Edge)
  {
    e.version.Lt(f.version) || (e.version == f.version && e.at < f.at)
  }

  /** The interval is closed and not empty. */
  predicate Closed(m: Method) { !m.end.IsNull() && m.start.Le(m.end) }

  /** An interval the decorator can register: a start, and no end or one not before it. */
  predicate WellFormed(m: Method) { !m.start.IsNull() && (m.end.IsNull() || m.start.Le(m.end)) }

  ghost predicate AllWellFormed(list: seq<Method>) { forall i | 0 <= i < |list| :: WellFormed(list[i]) }

  function StartOf(list: seq<Method>, i: nat): Edge requires i < |list| { Edge(list[i].start, 1, 2 * i) }

  function EndOf(list: seq<Method>, i: nat): Edge requires i < |list| { Edge(list[i].end, -1, 2 * i + 1) }

  function Edges(list: seq<Method>): (edges: seq<Edge>)
    ensures |edges| == 2 * |list|
    ensures forall i | 0 <= i < |list| :: edges[2 * i] == StartOf(list, i) && edges[2 * i + 1] == EndOf(list, i)
  {
    if list == [] then []
    else
      var n := |list| - 1;
      Edges(list[..n]) + [StartOf(list, n), EndOf(list, n)]
  }

  // ----- The stable sort -----

  ghost predicate Sorted(s: seq<Edge>) { forall i, j | 0 <= i < j < |s| :: Before(s[i], s[j]) }

  function Insert(s: seq<Edge>, e: Edge): seq<Edge>
  {
    if s == [] || !Before(e, s[|s| - 1]) then s + [e] else Insert(s[..|s| - 1], e) + [s[|s| - 1]]
  }

  function Sort(s: seq<Edge>): seq<Edge>
  {
    if s == [] then [] else Insert(Sort(s[..|s| - 1]), s[|s| - 1])
  }

  lemma {:induction false} InsertKeeps(s: seq<Edge>, e: Edge)
    ensures multiset(Insert(s, e)) == multiset(s) + multiset{e}
  {
    if s != [] && Before(e, s[|s| - 1]) {
      InsertKeeps(s[..|s| - 1], e);
      assert s == s[..|s| - 1] + [s[|s| - 1]];
    }
  }

  lemma {:induction false} InsertSorted(s: seq<Edge>, e: Edge)
    requires Sorted(s) && forall i | 0 <= i < |s| :: s[i].at != e.at
    ensures Sorted(Insert(s, e))
  {
    if s != [] && Before(e, s[|s| - 1]) {
      var rest, last := s[..|s| - 1], s[|s| - 1];
      InsertSorted(rest, e);
      InsertKeeps(rest, e);
      forall i | 0 <= i < |Insert(rest, e)| ensures Before(Insert(rest, e)[i], last) {
        assert Insert(rest, e)[i] in multiset(rest) + multiset{e};
      }
    }
  }

  lemma {:induction false} SortKeeps(s: seq<Edge>)
    ensures multiset(Sort(s)) == multiset(s)
  {
    hide Insert;
    if s == [] {
    } else {
      SortKeeps(s[..|s| - 1]);
      InsertKeeps(Sort(s[..|s| - 1]), s[|s| - 1]);
      assert s == s[..|s| - 1] + [s[|s| - 1]];
    }
  }

  lemma {:induction false} SortSorts(s: seq<Edge>)
    requires forall i, j | 0 <= i < j < |s| :: s[i].at != s[j].at
    ensures Sorted(Sort(s))
  {
    if s == [] {
    } else {
      var rest, last := s[..|s| - 1], s[|s| - 1];
      SortSorts(rest);
      SortKeeps(rest);
      forall i | 0 <= i < |Sort(rest)| ensures Sort(rest)[i].at != last.at {
        assert Sort(rest)[i] in multiset(rest);
      }
      InsertSorted(Sort(rest), last);
    }
  }

  // ----- The counter -----

  function Sum(s: seq<Edge>): int { if s == [] then 0 else Sum(s[..|s| - 1]) + s[|s| - 1].delta }

  /** The deltas of the edges that do not come after e. */
  function SumUpTo(s: seq<Edge>, e: Edge): int
  {
    if s == [] then 0
    else SumUpTo(s[..|s| - 1], e) + if Before(e, s[|s| - 1]) then 0 else s[|s| - 1].delta
  }

  lemma {:induction false} SumUpToInsert(s: seq<Edge>, x: Edge, e: Edge)
    ensures SumUpTo(Insert(s, x), e) == SumUpTo(s, e) + if Before(e, x) then 0 else x.delta
  {
    if s == [] || !Before(x, s[|s| - 1]) {
      assert (s + [x])[..|s|] == s;
    } else {
      var rest, last := s[..|s| - 1], s[|s| - 1];
      SumUpToInsert(rest, x, e);
      assert (Insert(rest, x) + [last])[..|Insert(rest, x)|] == Insert(rest, x);
    }
  }

  lemma {:induction false} SumUpToSort(s: seq<Edge>, e: Edge)
    ensures SumUpTo(Sort(s), e) == SumUpTo(s, e)
  {
    if s == [] {
    } else {
      SumUpToSort(s[..|s| - 1], e);
      SumUpToInsert(Sort(s[..|s| - 1]), s[|s| - 1], e);
    }
  }

  /** In a sorted list, the edges up to the k-th are those that do not come after it. */
  lemma {:induction false} SumOfPrefix(s: seq<Edge>, n: nat, k: nat)
    requires Sorted(s) && k < |s| && n <= |s|
    ensures SumUpTo(s[..n], s[k]) == if n <= k then Sum(s[..n]) else Sum(s[..k + 1])
  {
    if n == 0 {
    } else {
      assert s[..n][..n - 1] == s[..n - 1];
      SumOfPrefix(s, n - 1, k);
      assert n - 1 > k ==> Before(s[k], s[n - 1]);
      assert n - 1 < k ==> Before(s[n - 1], s[k]);
    }
  }

  // ----- The sweep -----

  /** The methods among the first n that count at an edge: +1 between start and end; -1 before the
      start of one without end, whose null end comes first of all. */
  function Weight(list: seq<Method>, n: nat, e: Edge): int
    requires n <= |list|
  {
    if n == 0 then 0
    else Weight(list, n - 1, e) + (if Before(e, StartOf(list, n - 1)) then 0 else 1) -
         (if Before(e, EndOf(list, n - 1)) then 0 else 1)
  }

  lemma {:induction false} WeightIsSum(list: seq<Method>, n: nat, e: Edge)
    requires n <= |list|
    ensures SumUpTo(Edges(list[..n]), e) == Weight(list, n, e)
  {
    if n == 0 {
    } else {
      WeightIsSum(list, n - 1, e);
      var edges := Edges(list[..n - 1]);
      assert list[..n][..n - 1] == list[..n - 1];
      var start, end := StartOf(list, n - 1), EndOf(list, n - 1);
      assert Edges(list[..n]) == edges + [start, end];
      assert (edges + [start, end])[..|edges| + 1] == edges + [start];
      assert (edges + [start])[..|edges|] == edges;
    }
  }

  lemma EdgesApart(list: seq<Method>)
    ensures forall i, j | 0 <= i < j < |Edges(list)| :: Edges(list)[i].at != Edges(list)[j].at
  {
    forall i | 0 <= i < |Edges(list)| ensures Edges(list)[i].at == i {
      assert Edges(list)[2 * (i / 2)] == StartOf(list, i / 2);
      assert Edges(list)[2 * (i / 2) + 1] == EndOf(list, i / 2);
    }
  }

  /** The sweep finds an overlap: at some edge the methods weigh more than one. */
  ghost predicate Detected(list: seq<Method>)
  {
    exists k | 0 <= k < 2 * |list| :: Weight(list, |list|, Edges(list)[k]) > 1
  }

  /** The counter of the sweep after its first k entries. */
  function Counter(pairs: seq<Edge>, k: nat): int requires k <= |pairs| { Sum(pairs[..k]) }

  /** check_for_versions_intersection. */
  method CheckForVersionsIntersection(list: seq<Method>) returns (found: bool)
    ensures found <==> Detected(list)
    ensures (forall i | 0 <= i < |list| ::
               !list[i].start.IsNull() && !list[i].end.IsNull() && list[i].start.Le(list[i].end)) ==>
              (found <==> exists i, j | 0 <= i < j < |list| ::
                            list[j].start.Lt(list[i].end) && list[i].start.Le(list[j].end))
    ensures (forall i | 0 <= i < |list| :: !list[i].start.IsNull() && list[i].end.IsNull()) ==> !found
  {
    var pairs := [];
    for i := 0 to |list|
      invariant pairs == Edges(list[..i])
    {
      assert list[..i + 1][..i] == list[..i];
      pairs := pairs + [StartOf(list, i), EndOf(list, i)];
    }
    assert list[..|list|] == list;
    pairs := Sort(pairs);
    assert pairs == Sort(Edges(list));
    found := SweepSorted(list, pairs);
    CheckMeans(list);
  }

  method SweepSorted(list: seq<Method>, pairs: seq<Edge>) returns (found: bool)
    requires pairs == Sort(Edges(list))
    ensures found <==> Detected(list)
  {
    found := Sweep(pairs);
    DetectedIsCounter(list);
  }

  method Sweep(pairs: seq<Edge>) returns (found: bool)
    ensures found <==> exists k | 0 < k <= |pairs| :: Counter(pairs, k) > 1
  {
    var counter := 0;
    for k := 0 to |pairs|
      invariant counter == Counter(pairs, k)
      invariant forall l | 0 < l <= k :: Counter(pairs, l) <= 1
    {
      assert pairs[..k + 1][..k] == pairs[..k];
      counter := counter + pairs[k].delta;
      assert counter == Counter(pairs, k + 1);
      if counter > 1 { return true; }
    }
    found := false;
  }

  lemma DetectedIsCounter(list: seq<Method>)
    ensures Detected(list) <==> exists k | 0 < k <= |Sort(Edges(list))| :: Counter(Sort(Edges(list)), k) > 1
  {
    hide Weight, Sort, Edges, Sum;
    var s := Sort(Edges(list));
    EdgesApart(list);
    if k :| 0 <= k < 2 * |list| && Weight(list, |list|, Edges(list)[k]) > 1 {
      var l := EdgeIsSorted(list, k);
      PrefixIsWeight(list, l);
      assert Counter(s, l + 1) > 1;
    }
    if k :| 0 < k <= |s| && Counter(s, k) > 1 {
      PrefixIsWeight(list, k - 1);
      SortedEdgeIsEdge(list, k - 1);
      var l :| 0 <= l < 2 * |list| && Edges(list)[l] == s[k - 1];
      assert Weight(list, |list|, Edges(list)[l]) > 1;
    }
  }

  lemma PrefixIsWeight(list: seq<Method>, k: nat)
    requires k < |Sort(Edges(list))|
    ensures Counter(Sort(Edges(list)), k + 1) == Weight(list, |list|, Sort(Edges(list))[k])
  {
    var edges := Edges(list);
    var s := Sort(edges);
    EdgesApart(list);
    SortSorts(edges);
    SumOfPrefix(s, |s|, k);
    assert s[..|s|] == s && list[..|list|] == list;
    SumUpToSort(edges, s[k]);
    WeightIsSum(list, |list|, s[k]);
  }

  lemma SortedEdgeIsEdge(list: seq<Method>, k: nat)
    requires k < |Sort(Edges(list))|
    ensures exists l | 0 <= l < 2 * |list| :: Edges(list)[l] == Sort(Edges(list))[k]
  {
    SortKeeps(Edges(list));
    assert Sort(Edges(list))[k] in multiset(Edges(list));
  }

  lemma EdgeIsSorted(list: seq<Method>, k: nat) returns (l: nat)
    requires k < 2 * |list|
    ensures l < |Sort(Edges(list))| && Sort(Edges(list))[l] == Edges(list)[k]
  {
    SortKeeps(Edges(list));
    assert Edges(list)[k] in multiset(Sort(Edges(list)));
    l :| 0 <= l < |Sort(Edges(list))| && Sort(Edges(list))[l] == Edges(list)[k];
  }

  // ----- What the sweep detects -----

  /** Method i counts at e: it has started there and, if it ends, not yet ended. */
  predicate ActiveAt(list: seq<Method>, i: nat, e: Edge)
    requires i < |list|
  {
    !Before(e, StartOf(list, i)) && (list[i].end.IsNull() || Before(e, EndOf(list, i)))
  }

  /** Two closed methods overlap as far as the sweep can tell: in more than an end point, or in an end
      point of the later one at which the earlier one starts. */
  predicate SweepOverlap(list: seq<Method>, i: nat, j: nat)
    requires i < j < |list|
  {
    list[j].start.Lt(list[i].end) && list[i].start.Le(list[j].end)
  }

  ghost predicate SomeOverlap(list: seq<Method>)
  {
    exists i, j | 0 <= i < j < |list| :: Closed(list[i]) && Closed(list[j]) && SweepOverlap(list, i, j)
  }

  /** A weight above one comes from two closed methods that count. */
  lemma {:induction false} WeightFromPair(list: seq<Method>, n: nat, e: Edge)
    requires AllWellFormed(list) && n <= |list|
    ensures Weight(list, n, e) >= 1 ==> exists i | 0 <= i < n :: Closed(list[i]) && ActiveAt(list, i, e)
    ensures Weight(list, n, e) >= 2 ==>
              exists i, j | 0 <= i < j < n ::
                Closed(list[i]) && ActiveAt(list, i, e) && Closed(list[j]) && ActiveAt(list, j, e)
  {
    if n == 0 {
    } else {
      WeightFromPair(list, n - 1, e);
      assert WellFormed(list[n - 1]);
    }
  }

  /** Where all methods are closed, the weight is the number that count. */
  lemma {:induction false} WeightOfPair(list: seq<Method>, n: nat, e: Edge, i: nat, j: nat)
    requires AllWellFormed(list) && n <= |list| && (forall k | 0 <= k < n :: Closed(list[k]))
    requires i < j < |list| && ActiveAt(list, i, e) && ActiveAt(list, j, e)
    ensures Weight(list, n, e) >= (if i < n then 1 else 0) + (if j < n then 1 else 0)
  {
    if n == 0 {
    } else {
      WeightOfPair(list, n - 1, e, i, j);
    }
  }

  /** The sweep is sound: if it finds an overlap, there are two closed methods that overlap. */
  lemma SweepIsSound(list: seq<Method>)
    requires AllWellFormed(list) && Detected(list)
    ensures SomeOverlap(list)
  {
    var k :| 0 <= k < 2 * |list| && Weight(list, |list|, Edges(list)[k]) > 1;
    var e := Edges(list)[k];
    WeightFromPair(list, |list|, e);
    var i, j :| 0 <= i < j < |list| && Closed(list[i]) && ActiveAt(list, i, e) && Closed(list[j]) && ActiveAt(list, j, e);
    assert SweepOverlap(list, i, j);
  }

  /** Where every method has an end, the sweep is exact: it finds an overlap if and only if two
      methods overlap in more than an end point, or in an end point of the one registered later. */
  lemma SweepIsExact(list: seq<Method>)
    requires AllWellFormed(list) && forall i | 0 <= i < |list| :: Closed(list[i])
    ensures Detected(list) <==> SomeOverlap(list)
  {
    if Detected(list) { SweepIsSound(list); }
    if i, j :| 0 <= i < j < |list| && Closed(list[i]) && Closed(list[j]) && SweepOverlap(list, i, j) {
      var k := if list[i].start.Le(list[j].start) then j else i;
      assert Edges(list)[2 * k] == StartOf(list, k);
      WeightOfPair(list, |list|, Edges(list)[2 * k], i, j);
    }
  }

  /** Overlaps in the sweep's sense are real: some version is served by both methods. */
  lemma OverlapIsShared(list: seq<Method>) returns (i: nat, j: nat, v: Version)
    requires AllWellFormed(list) && SomeOverlap(list)
    ensures i < j < |list| && !v.IsNull()
    ensures v.Matches(list[i].start, list[i].end) && v.Matches(list[j].start, list[j].end)
  {
    i, j :| 0 <= i < j < |list| && Closed(list[i]) && Closed(list[j]) && SweepOverlap(list, i, j);
    v := if list[i].start.Le(list[j].start) then list[j].start else list[i].start;
    assert WellFormed(list[i]) && WellFormed(list[j]);
  }

  /** And an overlap in more than an end point is one in the sweep's sense. */
  lemma ProperOverlapIsDetected(list: seq<Method>, i: nat, j: nat, v: Version, w: Version)
    requires AllWellFormed(list) && (forall k | 0 <= k < |list| :: Closed(list[k])) && i < j < |list|
    requires v.Lt(w) && !v.IsNull()
    requires v.Matches(list[i].start, list[i].end) && v.Matches(list[j].start, list[j].end)
    requires w.Matches(list[i].start, list[i].end) && w.Matches(list[j].start, list[j].end)
    ensures Detected(list)
  {
    assert WellFormed(list[i]) && WellFormed(list[j]);
    assert SweepOverlap(list, i, j);
    SweepIsExact(list);
  }

  /** The methods with an end, among the first n, that are in force at e. */
  function InForce(list: seq<Method>, n: nat, e: Edge): set<nat>
    requires n <= |list|
  {
    set i: nat | i < n && Closed(list[i]) && ActiveAt(list, i, e)
  }

  /** The methods without end, among the first n, that start after e. */
  function OpenLater(list: seq<Method>, n: nat, e: Edge): set<nat>
    requires n <= |list|
  {
    set i: nat | i < n && list[i].end.IsNull() && Before(e, StartOf(list, i))
  }

  lemma OneMoreInForce(list: seq<Method>, n: nat, e: Edge)
    requires n < |list|
    ensures |InForce(list, n + 1, e)| == |InForce(list, n, e)| + if Closed(list[n]) && ActiveAt(list, n, e) then 1 else 0
  {
    hide ActiveAt, Closed;
    var before, after := InForce(list, n, e), InForce(list, n + 1, e);
    assert n !in before && before <= after;
    forall i | i in after && i != n ensures i in before {}
    assert after == before + if n in after then {n} else {};
  }

  lemma OneMoreOpenLater(list: seq<Method>, n: nat, e: Edge)
    requires n < |list|
    ensures |OpenLater(list, n + 1, e)| ==
            |OpenLater(list, n, e)| + if list[n].end.IsNull() && Before(e, StartOf(list, n)) then 1 else 0
  {
    hide Before;
    var before, after := OpenLater(list, n, e), OpenLater(list, n + 1, e);
    assert n !in before && before <= after;
    forall i | i in after && i != n ensures i in before {}
    assert after == before + if n in after then {n} else {};
  }

  lemma {:induction false} WeightCounts(list: seq<Method>, n: nat, e: Edge)
    requires AllWellFormed(list) && n <= |list| && !e.version.IsNull()
    ensures Weight(list, n, e) == |InForce(list, n, e)| - |OpenLater(list, n, e)|
  {
    hide InForce, OpenLater;
    if n > 0 {
      WeightCounts(list, n - 1, e);
      OneMoreInForce(list, n - 1, e);
      OneMoreOpenLater(list, n - 1, e);
      assert WellFormed(list[n - 1]);
    } else {
      NoMethods(list, e);
    }
  }

  lemma NoMethods(list: seq<Method>, e: Edge)
    ensures InForce(list, 0, e) == {} && OpenLater(list, 0, e) == {}
  {
  }

  /** What the sweep finds in any list: at some end point of an interval, the methods in force that
      have an end outnumber those without end that start later by two or more. */
  lemma SweepFinds(list: seq<Method>)
    requires AllWellFormed(list)
    ensures Detected(list) <==>
              exists k | 0 <= k < 2 * |list| ::
                !Edges(list)[k].version.IsNull() &&
                |InForce(list, |list|, Edges(list)[k])| >= 2 + |OpenLater(list, |list|, Edges(list)[k])|
  {
    hide Weight, InForce, OpenLater, Edges;
    forall k | 0 <= k < 2 * |list| && !Edges(list)[k].version.IsNull()
      ensures Weight(list, |list|, Edges(list)[k]) ==
              |InForce(list, |list|, Edges(list)[k])| - |OpenLater(list, |list|, Edges(list)[k])|
    {
      WeightCounts(list, |list|, Edges(list)[k]);
    }
    if k :| 0 <= k < 2 * |list| && Weight(list, |list|, Edges(list)[k]) > 1 {
      WeightFromPair(list, |list|, Edges(list)[k]);
      var i :| 0 <= i < |list| && Closed(list[i]) && ActiveAt(list, i, Edges(list)[k]);
      assert WellFormed(list[i]);
    }
  }

  /** What the check gives where all methods have an end, and where none has. */
  lemma CheckMeans(list: seq<Method>)
    ensures (forall i | 0 <= i < |list| ::
               !list[i].start.IsNull() && !list[i].end.IsNull() && list[i].start.Le(list[i].end)) ==>
              (Detected(list) <==> exists i, j | 0 <= i < j < |list| ::
                                     list[j].start.Lt(list[i].end) && list[i].start.Le(list[j].end))
    ensures (forall i | 0 <= i < |list| :: !list[i].start.IsNull() && list[i].end.IsNull()) ==> !Detected(list)
  {
    hide Detected;
    if forall i | 0 <= i < |list| :: !list[i].start.IsNull() && !list[i].end.IsNull() && list[i].start.Le(list[i].end) {
      SweepIsExact(list);
      if i, j :| 0 <= i < j < |list| && list[j].start.Lt(list[i].end) && list[i].start.Le(list[j].end) {
        assert SweepOverlap(list, i, j);
      }
    }
    if forall i | 0 <= i < |list| :: !list[i].start.IsNull() && list[i].end.IsNull() {
      OpenEndsAreMissed(list, 0);
    }
  }

  /** A method without end is invisible to the sweep: with at most one closed method it finds nothing,
      whatever the others are. */
  lemma OpenEndsAreMissed(list: seq<Method>, only: nat)
    requires AllWellFormed(list) && forall i | 0 <= i < |list| && i != only :: list[i].end.IsNull()
    ensures !Detected(list)
  {
    if Detected(list) { SweepIsSound(list); }
  }

  /** For two methods the check is exact up to open ends: it finds them if and only if both are closed
      and they overlap. */
  lemma TwoMethods(a: Method, b: Method)
    requires WellFormed(a) && WellFormed(b)
    ensures Detected([a, b]) <==> Closed(a) && Closed(b) && b.start.Lt(a.end) && a.start.Le(b.end)
  {
    var list := [a, b];
    if Closed(a) && Closed(b) {
      SweepIsExact(list);
      assert SomeOverlap(list) <==> SweepOverlap(list, 0, 1);
    } else {
      OpenEndsAreMissed(list, if Closed(a) then 0 else 1);
    }
  }

  /** So two methods that both serve version 1.5, one of them without end, pass the check. */
  lemma OpenEndedOverlap() returns (list: seq<Method>)
    ensures AllWellFormed(list) && |list| == 2 && !Detected(list)
    ensures forall i | 0 <= i < 2 :: Version(1, 5).Matches(list[i].start, list[i].end)
  {
    list := [Method(Version(1, 0), Version(0, 0), 0), Method(Version(1, 5), Version(2, 0), 1)];
    OpenEndsAreMissed(list, 1);
  }

  /** Two methods that share only an end point are found in one order of registration, not in the other. */
  lemma TouchingDependsOnOrder(a: Method, b: Method)
    requires WellFormed(a) && WellFormed(b) && Closed(a) && Closed(b)
    requires a.end == b.start && a.start.Lt(a.end) && b.start.Lt(b.end)
    ensures !Detected([a, b]) && Detected([b, a])
  {
    SweepIsExact([a, b]);
    SweepIsExact([b, a]);
    assert !SweepOverlap([a, b], 0, 1) && SweepOverlap([b, a], 0, 1);
  }

  // ----- Registration and dispatch -----

  ghost predicate Descending(list: seq<Method>)
  {
    forall i, j | 0 <= i < j < |list| :: list[j].start.Le(list[i].start)
  }

  /** One step of the stable sort by start version, reversed. */
  function InsertDescending(list: seq<Method>, m: Method): (r: seq<Method>)
    ensures multiset(r) == multiset(list) + multiset{m}
  {
    if list == [] || m.start.Le(list[|list| - 1].start) then list + [m]
    else
      var r := InsertDescending(list[..|list| - 1], m) + [list[|list| - 1]];
      assert list == list[..|list| - 1] + [list[|list| - 1]];
      r
  }

  function SortDescending(list: seq<Method>): (r: seq<Method>)
    ensures multiset(r) == multiset(list)
  {
    if list == [] then []
    else
      assert list == list[..|list| - 1] + [list[|list| - 1]];
      InsertDescending(SortDescending(list[..|list| - 1]), list[|list| - 1])
  }

  lemma {:induction false} InsertDescends(list: seq<Method>, m: Method)
    requires Descending(list)
    ensures Descending(InsertDescending(list, m))
  {
    if list != [] && !m.start.Le(list[|list| - 1].start) {
      var rest, last := list[..|list| - 1], list[|list| - 1];
      InsertDescends(rest, m);
      forall i | 0 <= i < |InsertDescending(rest, m)| ensures last.start.Le(InsertDescending(rest, m)[i].start) {
        assert InsertDescending(rest, m)[i] in multiset(rest) + multiset{m};
      }
    }
  }

  lemma {:induction false} SortDescends(list: seq<Method>)
    ensures Descending(SortDescending(list))
  {
    if list == [] {
    } else {
      SortDescends(list[..|list| - 1]);
      InsertDescends(SortDescending(list[..|list| - 1]), list[|list| - 1]);
    }
  }

  /** How a call of a versioned method is dispatched. */
  datatype Selection = Runs(func: nat) | VersionNotFound | NullVersion

  /** The registered implementations of one method name. */
  class Controller {
    var funcList: seq<Method>
    ghost var registered: multiset<Method>

    /** Holds as long as no registration has raised. */
    ghost predicate Valid()
      reads this
    {
      Descending(funcList) && multiset(funcList) == registered
    }

    constructor ()
      ensures Valid() && funcList == [] && registered == multiset{}
    {
      funcList, registered := [], multiset{};
    }

    /** The api_version decorator, applied to a function: raises ApiVersionsIntersect, with the
        function already in the list, if the sweep finds an overlap; otherwise sorts the list. */
    method Register(m: Method) returns (raised: bool)
      requires Valid()
      modifies this
      ensures registered == old(registered) + multiset{m} && multiset(funcList) == registered
      ensures raised <==> Detected(old(funcList) + [m])
      ensures !raised ==> Valid()
      ensures raised ==> funcList == old(funcList) + [m]
    {
      registered := registered + multiset{m};
      funcList := funcList + [m];
      raised := CheckForVersionsIntersection(funcList);
      if !raised {
        SortDescends(funcList);
        funcList := SortDescending(funcList);
      }
    }

    /** version_select: the implementation with the greatest start version among those that match;
        VersionNotFoundForAPIMethod exactly if none matches; a null version fails in the first match. */
    method VersionSelect(v: Version) returns (r: Selection)
      requires Valid()
      ensures r == NullVersion <==> v.IsNull() && registered != multiset{}
      ensures r == VersionNotFound <==> r != NullVersion && forall m | m in registered :: !v.Matches(m.start, m.end)
      ensures r.Runs? ==>
                exists m | m in registered ::
                  && m.func == r.func && v.Matches(m.start, m.end)
                  && forall o | o in registered && v.Matches(o.start, o.end) :: o.start.Le(m.start)
    {
      for i := 0 to |funcList|
        invariant i > 0 ==> !v.IsNull()
        invariant forall k | 0 <= k < i :: !v.Matches(funcList[k].start, funcList[k].end)
      {
        var m := funcList[i];
        assert m in registered;
        if v.IsNull() { return NullVersion; }
        if v.Matches(m.start, m.end) {
          return Runs(m.func);
        }
      }
      r := VersionNotFound;
    }
  }
}
