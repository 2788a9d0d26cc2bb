/** The order in which the sources list things: it never matters for what the inspection finds, and
    for the record it emits it matters exactly when two different events tie in the timeline's order. */
module ClosureOrder {
  import opened Closure
  import opened ClosureEvidence
  import opened Options
  import opened Ordering

  // ---- The order of what is found ----

  /** The same answers, listed in another order. */
  ghost predicate Reordered(v: Evidence, w: Evidence) {
    && SameElements(v.bodyLinks, w.bodyLinks) && v.isSha == w.isSha && v.issue == w.issue
    && (v.graphql == w.graphql
        || (v.graphql.Collected? && w.graphql.Collected? && SameElements(v.graphql.value, w.graphql.value)))
    && (v.timeline == w.timeline
        || (v.timeline.Collected? && w.timeline.Collected?
            && multiset(v.timeline.value) == multiset(w.timeline.value)))
  }

  lemma ObserveConcat(a: seq<TimelineItem>, b: seq<TimelineItem>, isSha: string -> bool)
    ensures ObserveAll(a + b, isSha) == ObserveAll(a, isSha) + ObserveAll(b, isSha)
  {
  }

  lemma {:induction false} ObservePermutes(a: seq<TimelineItem>, b: seq<TimelineItem>, isSha: string -> bool)
    requires multiset(a) == multiset(b)
    ensures multiset(ObserveAll(a, isSha)) == multiset(ObserveAll(b, isSha))
  {
    if a == [] {
      EmptyContents(b);
    } else {
      var item, front := a[|a| - 1], a[..|a| - 1];
      assert a == front + [item];
      assert item in multiset(a);
      var l, r := RemoveOne(b, item);
      ObservePermutes(front, l + r, isSha);
      ObserveConcat(front, [item], isSha);
      ObserveConcat(l + [item], r, isSha);
      ObserveConcat(l, [item], isSha);
      ObserveConcat(l, r, isSha);
    }
  }

  /** What every observation looks like. */
  predicate WellFormed(o: Observation) {
    && (o.issue.Some? ==> o.issue.value > 0)
    && (o.explicitClosure <==> o.classification.ClosingDevelopmentLink? || o.classification.CloseEvent?)
  }

  lemma ClassRankInjective(a: Classification, b: Classification)
    requires ClassRank(a) == ClassRank(b)
    ensures a == b
  {
  }

  lemma KeyTellsObservations(a: Observation, b: Observation)
    requires WellFormed(a) && WellFormed(b) && ObservationLe(a, b) && ObservationLe(b, a)
    ensures a == b
  {
    ClassRankInjective(a.classification, b.classification);
    StringLeTotal(a.event, b.event);
    StringLeTotal(a.occurredAt, b.occurredAt);
  }

  lemma ObservedTieFree(items: seq<TimelineItem>, isSha: string -> bool)
    ensures TieFree(ObserveAll(items, isSha), ObservationLe)
  {
    var os := ObserveAll(items, isSha);
    forall a, b | a in os && b in os && ObservationLe(a, b) && ObservationLe(b, a) ensures a == b {
      var i :| 0 <= i < |os| && os[i] == a;
      var j :| 0 <= j < |os| && os[j] == b;
      KeyTellsObservations(a, b);
    }
  }

  lemma TimelineReordered(v: Evidence, w: Evidence)
    requires Reordered(v, w)
    ensures v.Timeline() == w.Timeline()
  {
    if v.timeline.Collected? {
      ObservationOrder();
      ObservePermutes(v.timeline.value, w.timeline.value, v.isSha);
      ObservedTieFree(v.timeline.value, v.isSha);
      SortPermutation(
        ObserveAll(v.timeline.value, v.isSha), ObserveAll(w.timeline.value, w.isSha), ObservationLe);
    }
  }

  lemma SortedIntsDependOnElements(a: seq<int>, b: seq<int>)
    requires SameElements(a, b)
    ensures SortedInts(a) == SortedInts(b)
  {
    DistinctElements(a);
    DistinctElements(b);
    forall x ensures x in Distinct(a) <==> x in Distinct(b) {
      assert x in a <==> x in b;
    }
    SameElementsPermute(Distinct(a), Distinct(b));
    assert TotalOrder(IntLe) && TieFree(Distinct(a), IntLe);
    SortPermutation(Distinct(a), Distinct(b), IntLe);
  }

  lemma DeclaredReordered(c: seq<Entry>, d: seq<Entry>)
    requires Distinctly(c) && Distinctly(d) && multiset(c) == multiset(d)
    ensures SameElements(Numbers(c), Numbers(d))
    ensures Declared(c) == Declared(d)
  {
    forall e ensures e in c <==> e in d {
      assert e in multiset(c) <==> e in multiset(d);
    }
    forall n ensures n in Numbers(c) <==> n in Numbers(d) {
      if n in Numbers(c) { var e := EntryOf(c, n); NumberOf(d, e); }
      if n in Numbers(d) { var e := EntryOf(d, n); NumberOf(c, e); }
    }
    DeclaredLookup(c);
    DeclaredLookup(d);
    forall n | n in Declared(c) ensures Declared(c)[n] == Declared(d)[n] {
      var e := EntryOf(c, n);
    }
  }

  lemma IssueReordered(v: Evidence, w: Evidence, n: int, entries: map<int, Entry>)
    requires Reordered(v, w) && v.Timeline() == w.Timeline()
    ensures IssueFindings(v, n, entries) == IssueFindings(w, n, entries)
  {
    assert v.Linked(n) <==> w.Linked(n);
    assert v.Links(ClosingDevelopmentLink) == w.Links(ClosingDevelopmentLink);
    assert v.State(n) == w.State(n);
  }

  lemma {:induction false} IssuesReordered(v: Evidence, w: Evidence, numbers: seq<int>, entries: map<int, Entry>)
    requires Reordered(v, w) && v.Timeline() == w.Timeline()
    ensures AllIssueFindings(v, numbers, entries) == AllIssueFindings(w, numbers, entries)
  {
    if numbers != [] {
      IssuesReordered(v, w, numbers[..|numbers| - 1], entries);
      IssueReordered(v, w, numbers[|numbers| - 1], entries);
    }
  }

  /** The findings, their order and the readiness do not depend on the order in which the body,
      GraphQL, the timeline and the contract list things. */
  lemma OrderIrrelevant(v: Evidence, c: seq<Entry>, w: Evidence, d: seq<Entry>)
    requires Reordered(v, w) && Distinctly(c) && Distinctly(d) && multiset(c) == multiset(d)
    ensures v.Timeline() == w.Timeline()
    ensures Findings(v, c) == Findings(w, d)
  {
    TimelineReordered(v, w);
    DeclaredReordered(c, d);
    InspectedReordered(v, c, w, d);
    IssuesReordered(v, w, Inspected(v, c), Declared(c));
  }

  lemma InspectedReordered(v: Evidence, c: seq<Entry>, w: Evidence, d: seq<Entry>)
    requires Reordered(v, w) && v.Timeline() == w.Timeline() && SameElements(Numbers(c), Numbers(d))
    ensures Inspected(v, c) == Inspected(w, d)
  {
    var a, b := v.Discoverable() + Numbers(c), w.Discoverable() + Numbers(d);
    forall n ensures n in a <==> n in b {
      assert n in v.GraphqlLinks() <==> n in w.GraphqlLinks();
    }
    SortedIntsDependOnElements(a, b);
  }

  // ---- The order of the emitted record ----

  lemma EmitConcat(a: seq<TimelineItem>, b: seq<TimelineItem>, isSha: string -> bool)
    ensures EmitAll(a + b, isSha) == EmitAll(a, isSha) + EmitAll(b, isSha)
  {
  }

  lemma {:induction false} EmitPermutes(a: seq<TimelineItem>, b: seq<TimelineItem>, isSha: string -> bool)
    requires multiset(a) == multiset(b)
    ensures multiset(EmitAll(a, isSha)) == multiset(EmitAll(b, isSha))
  {
    if a == [] {
      EmptyContents(b);
    } else {
      var item, front := a[|a| - 1], a[..|a| - 1];
      assert a == front + [item];
      assert item in multiset(a);
      var l, r := RemoveOne(b, item);
      EmitPermutes(front, l + r, isSha);
      EmitConcat(front, [item], isSha);
      EmitConcat(l + [item], r, isSha);
      EmitConcat(l, [item], isSha);
      EmitConcat(l, r, isSha);
    }
  }

  /** The listing order of the timeline shows in what is emitted exactly when two different emitted
      events tie. */
  lemma EmissionOrderExact(items: seq<TimelineItem>, isSha: string -> bool)
    ensures TieFree(EmitAll(items, isSha), EventLe) <==>
      forall other | multiset(other) == multiset(items) :: Emitted(other, isSha) == Emitted(items, isSha)
  {
    EventOrder();
    if TieFree(EmitAll(items, isSha), EventLe) {
      forall other | multiset(other) == multiset(items) ensures Emitted(other, isSha) == Emitted(items, isSha) {
        EmitPermutes(items, other, isSha);
        SortPermutation(EmitAll(items, isSha), EmitAll(other, isSha), EventLe);
      }
    } else {
      var x, y :| x in EmitAll(items, isSha) && y in EmitAll(items, isSha) && EventLe(x, y) && EventLe(y, x) && x != y;
      var a := BroughtFirst(items, isSha, x);
      var b := BroughtFirst(items, isSha, y);
      FirstTie(a, isSha, x, x);
      FirstTie(b, isSha, y, x);
      assert Emitted(a, isSha) != Emitted(b, isSha);
    }
  }

  /** The same items with one that emits `x` first. */
  lemma BroughtFirst(items: seq<TimelineItem>, isSha: string -> bool, x: Event) returns (other: seq<TimelineItem>)
    requires x in EmitAll(items, isSha)
    ensures multiset(other) == multiset(items) && other != [] && Emit(other[0], isSha) == x
  {
    var i :| 0 <= i < |items| && EmitAll(items, isSha)[i] == x;
    other := [items[i]] + (items[..i] + items[i + 1..]);
    assert items == items[..i] + [items[i]] + items[i + 1..];
  }

  /** The first event listed, if it ties with `x`, is the first of those emitted. */
  lemma FirstTie(items: seq<TimelineItem>, isSha: string -> bool, first: Event, x: Event)
    requires items != [] && Emit(items[0], isSha) == first && TiesWith(first, x, EventLe)
    ensures Ties(Emitted(items, isSha), x, EventLe) != [] && Ties(Emitted(items, isSha), x, EventLe)[0] == first
  {
    EventOrder();
    SortKeepsTies(EmitAll(items, isSha), x, EventLe);
    assert EmitAll(items, isSha)[0] == first;
  }

  /** Two commits of one moment tie, so that the record shows which was listed first. */
  lemma CommitsTie(a: TimelineItem, b: TimelineItem, isSha: string -> bool)
    requires a.event == b.event == Some("committed") && PlainCommit(a, isSha) && PlainCommit(b, isSha)
    requires a.createdAt == b.createdAt == None && a.authorDate == b.authorDate && a.sha != b.sha
    ensures Emitted([a, b], isSha) != Emitted([b, a], isSha)
  {
    var x, y := Emit(a, isSha), Emit(b, isSha);
    EventOrder();
    assert x.seen == y.seen;
    FirstTie([a, b], isSha, x, x);
    FirstTie([b, a], isSha, y, x);
  }

  // ---- The whole record ----

  function Seen(events: seq<Event>): (os: seq<Observation>)
    ensures |os| == |events|
    ensures forall i | 0 <= i < |events| :: os[i] == events[i].seen
  {
    seq(|events|, i requires 0 <= i < |events| => events[i].seen)
  }

  lemma {:induction false} InsertSeen(x: Event, s: seq<Event>)
    ensures Seen(Insert(x, s, EventLe)) == Insert(x.seen, Seen(s), ObservationLe)
  {
    if s != [] && !EventLe(x, s[0]) {
      InsertSeen(x, s[1..]);
      assert Seen(s)[1..] == Seen(s[1..]);
    }
  }

  lemma {:induction false} SortSeen(s: seq<Event>)
    ensures Seen(Sort(s, EventLe)) == Sort(Seen(s), ObservationLe)
  {
    if s != [] {
      SortSeen(s[1..]);
      InsertSeen(s[0], Sort(s[1..], EventLe));
      assert Seen(s)[1..] == Seen(s[1..]);
    }
  }

  /** The emitted timeline is the one the inspection decides by. */
  lemma EmittedSeen(w: Evidence)
    ensures Seen(EmittedTimeline(w)) == w.Timeline()
  {
    if w.timeline.Collected? {
      var items := w.timeline.value;
      SortSeen(EmitAll(items, w.isSha));
      assert Seen(EmitAll(items, w.isSha)) == ObserveAll(items, w.isSha);
    }
  }

  /** Records that differ at most in the order of tied events. */
  ghost predicate SameUpToTies(e: Record, f: Record) {
    e.(timeline := []) == f.(timeline := []) && Seen(e.timeline) == Seen(f.timeline)
    && multiset(e.timeline) == multiset(f.timeline)
  }

  /** However the sources list things, the emitted record is the same up to the order of tied events,
      and the same altogether if no two different events tie. */
  lemma RecordOrderIrrelevant(
      pull: PullView, inspectedAt: string, contract: seq<Declaration>, entries: seq<Entry>, v: Evidence, w: Evidence)
    requires Reordered(v, w) && Distinctly(entries)
    requires multiset(v.GraphqlLinks()) == multiset(w.GraphqlLinks())
    ensures var e, f := RecordOf(pull, inspectedAt, contract, v, entries),
                        RecordOf(pull, inspectedAt, contract, w, entries);
      && SameUpToTies(e, f)
      && (v.timeline.Collected? && TieFree(EmitAll(v.timeline.value, v.isSha), EventLe) ==> e == f)
  {
    OrderIrrelevant(v, entries, w, entries);
    EmittedSeen(v);
    EmittedSeen(w);
    SortedIntsDependOnElements(v.bodyLinks, w.bodyLinks);
    SortPermutation(v.GraphqlLinks(), w.GraphqlLinks(), IntLe);
    StatesReordered(v, w, entries);
    EmissionPermutes(v, w);
    if v.timeline.Collected? { EmissionOrderExact(v.timeline.value, v.isSha); }
  }

  lemma StatesReordered(v: Evidence, w: Evidence, entries: seq<Entry>)
    requires v.issue == w.issue
    ensures ObservedStates(v, entries) == ObservedStates(w, entries)
  {
    forall n ensures StateRecordOf(v, n) == StateRecordOf(w, n) {
    }
  }

  lemma EmissionPermutes(v: Evidence, w: Evidence)
    requires Reordered(v, w)
    ensures multiset(EmittedTimeline(v)) == multiset(EmittedTimeline(w))
  {
    if v.timeline.Collected? {
      EventOrder();
      EmitPermutes(v.timeline.value, w.timeline.value, v.isSha);
      SortCorrect(EmitAll(v.timeline.value, v.isSha), EventLe);
      SortCorrect(EmitAll(w.timeline.value, w.isSha), EventLe);
    }
  }
}
