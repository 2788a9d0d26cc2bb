/** Replacing detected spans in place, from the right end of the text to the left. */
module Splice {
  import opened Ordering
  import opened PortablePaths

  /** The replacement for the text of a span, given its recommended placeholder. */
  type Replacer = (string, string) -> string

  /** Python's `s[i:j]` */
  function Slice(s: string, i: nat, j: nat): string {
    var hi := if j < |s| then j else |s|;
    if i <= hi then s[i..hi] else []
  }

  function From(s: string, i: nat): string { if i <= |s| then s[i..] else [] }

  function ReplaceSpan(candidate: string, v: Violation, replacer: Replacer): string {
    Slice(candidate, 0, v.start)
    + replacer(Slice(candidate, v.start, v.end), v.recommended)
    + From(candidate, v.end)
  }

  /** The spans replaced one after the other, in the order given. */
  function ReplaceEach(body: string, vs: seq<Violation>, replacer: Replacer): string {
    if vs == [] then body
    else ReplaceSpan(ReplaceEach(body, vs[..|vs| - 1], replacer), vs[|vs| - 1], replacer)
  }

  predicate StartGe(a: Violation, b: Violation) { a.start >= b.start }

  predicate StartLe(a: Violation, b: Violation) { a.start <= b.start }

  function Reverse<T>(s: seq<T>): seq<T> {
    if s == [] then [] else Reverse(s[1..]) + [s[0]]
  }

  function Recommendations(vs: seq<Violation>): seq<string> {
    seq(|vs|, i requires 0 <= i < |vs| => vs[i].recommended)
  }

  /** `portable_replacement`: the replacement type of a span is always its recommendation. */
  method PortableReplacement(body: string, violations: seq<Violation>, replacer: Replacer)
    returns (candidate: string, types: seq<string>)
    ensures candidate == ReplaceEach(body, Sort(violations, StartGe), replacer)
    ensures types == Recommendations(Reverse(Sort(violations, StartGe)))
  {
    var ordered := Sort(violations, StartGe);
    candidate := body;
    var collected: seq<string> := [];
    for i := 0 to |ordered|
      invariant candidate == ReplaceEach(body, ordered[..i], replacer)
      invariant collected == Recommendations(ordered[..i])
    {
      assert ordered[..i + 1][..i] == ordered[..i];
      candidate := ReplaceSpan(candidate, ordered[i], replacer);
      collected := collected + [ordered[i].recommended];
    }
    assert ordered[..|ordered|] == ordered;
    types := Reverse(collected);
    ReverseRecommendations(ordered);
  }

  lemma {:induction false} ReverseRecommendations(vs: seq<Violation>)
    ensures Reverse(Recommendations(vs)) == Recommendations(Reverse(vs))
  {
    if vs != [] {
      ReverseRecommendations(vs[1..]);
      assert Recommendations(vs)[1..] == Recommendations(vs[1..]);
      assert Recommendations(Reverse(vs[1..]) + [vs[0]]) == Recommendations(Reverse(vs[1..])) + [vs[0].recommended];
    }
  }

  // ---- Simultaneous substitution ----

  /** The spans lie in the text, in order, without overlap, from `at` on. */
  ghost predicate InOrder(body: string, vs: seq<Violation>, at: nat) {
    if vs == [] then at <= |body|
    else at <= vs[0].start < vs[0].end <= |body| && InOrder(body, vs[1..], vs[0].end)
  }

  /** Left to right: everything outside the spans as it was, every span replaced from its
      original text. */
  ghost function Substitute(body: string, vs: seq<Violation>, at: nat, replacer: Replacer): string
    requires InOrder(body, vs, at)
  {
    if vs == [] then body[at..]
    else
      body[at..vs[0].start]
      + replacer(body[vs[0].start..vs[0].end], vs[0].recommended)
      + Substitute(body, vs[1..], vs[0].end, replacer)
  }

  lemma {:induction false} InOrderFits(body: string, vs: seq<Violation>, at: nat)
    requires InOrder(body, vs, at)
    ensures at <= |body|
  {
    if vs != [] { InOrderFits(body, vs[1..], vs[0].end); }
  }

  lemma SubstituteFrom(body: string, vs: seq<Violation>, at: nat, later: nat, replacer: Replacer)
    requires InOrder(body, vs, at) && at <= later && InOrder(body, vs, later)
    ensures Substitute(body, vs, at, replacer) == body[at..later] + Substitute(body, vs, later, replacer)
  {
    InOrderFits(body, vs, later);
    if vs == [] {
      assert body[at..] == body[at..later] + body[later..];
    } else {
      assert body[at..vs[0].start] == body[at..later] + body[later..vs[0].start];
      Regroup(body[at..later], body[later..vs[0].start],
              replacer(body[vs[0].start..vs[0].end], vs[0].recommended),
              Substitute(body, vs[1..], vs[0].end, replacer));
    }
  }

  lemma Regroup(a: string, b: string, c: string, d: string)
    ensures (a + b) + c + d == a + (b + c + d)
  {
  }

  /** Right-to-left replacement of spans in order is simultaneous substitution. */
  lemma {:induction false} RightToLeft(body: string, vs: seq<Violation>, replacer: Replacer)
    requires InOrder(body, vs, 0)
    ensures ReplaceEach(body, Reverse(vs), replacer) == Substitute(body, vs, 0, replacer)
  {
    if vs == [] {
      assert body[0..] == body;
    } else {
      var v, rest := vs[0], vs[1..];
      InOrderFits(body, rest, v.end);
      assert InOrder(body, rest, 0);
      RightToLeft(body, rest, replacer);
      SubstituteFrom(body, rest, 0, v.end, replacer);
      var tail := Substitute(body, rest, v.end, replacer);
      var candidate := ReplaceEach(body, Reverse(rest), replacer);
      assert candidate == body[0..v.end] + tail;
      assert Slice(candidate, 0, v.start) == body[0..v.start];
      assert Slice(candidate, v.start, v.end) == body[v.start..v.end];
      assert From(candidate, v.end) == tail;
      assert Reverse(vs)[..|Reverse(vs)| - 1] == Reverse(rest);
    }
  }

  // ---- Any list of disjoint spans ----

  ghost predicate Apart(a: Violation, b: Violation) { a.end <= b.start || b.end <= a.start }

  ghost predicate Within(body: string, vs: seq<Violation>) {
    forall v | v in vs :: v.start < v.end <= |body|
  }

  ghost predicate PairwiseApart(vs: seq<Violation>) {
    forall i, j | 0 <= i < j < |vs| :: Apart(vs[i], vs[j])
  }

  lemma {:induction false} SortedApartInOrder(body: string, vs: seq<Violation>, at: nat)
    requires Within(body, vs) && SortedBy(vs, StartLe) && PairwiseApart(vs) && at <= |body|
    requires vs != [] ==> at <= vs[0].start
    ensures InOrder(body, vs, at)
  {
    if vs != [] {
      var rest := vs[1..];
      assert vs[0] in vs;
      if rest != [] {
        assert rest[0] in vs;
        assert StartLe(vs[0], vs[1]) && Apart(vs[0], vs[1]);
      }
      assert forall v | v in rest :: v in vs;
      assert forall i, j | 0 <= i < j < |rest| :: Apart(rest[i], rest[j]) by {
        forall i, j | 0 <= i < j < |rest| ensures Apart(rest[i], rest[j]) {
          assert Apart(vs[i + 1], vs[j + 1]);
        }
      }
      SortedApartInOrder(body, rest, vs[0].end);
    }
  }

  /** Every pair of positions of `a` is a pair of positions of its permutation `b`. */
  lemma ApartPermutes(a: seq<Violation>, b: seq<Violation>)
    requires multiset(a) == multiset(b) && PairwiseApart(a)
    requires forall v | v in a :: v.start < v.end
    ensures PairwiseApart(b)
  {
    forall i, j | 0 <= i < j < |b| ensures Apart(b[i], b[j]) {
      assert b[i] in multiset(b) && b[j] in multiset(b);
      assert b[i] in a && b[j] in a;
      if b[i] == b[j] {
        PairCounts(b, i, j);
        TwiceNotApart(a, b[i]);
      } else {
        var p :| 0 <= p < |a| && a[p] == b[i];
        var q :| 0 <= q < |a| && a[q] == b[j];
        assert if p < q then Apart(a[p], a[q]) else Apart(a[q], a[p]);
      }
    }
  }

  lemma TwiceNotApart(a: seq<Violation>, v: Violation)
    requires PairwiseApart(a) && v in a && v.start < v.end
    ensures multiset(a)[v] == 1
  {
    var p :| 0 <= p < |a| && a[p] == v;
    assert a == a[..p] + [v] + a[p + 1..];
    forall x | x in a[..p] ensures x != v {
      var q :| 0 <= q < p && a[q] == x;
      assert Apart(a[q], a[p]);
    }
    var tail := a[p + 1..];
    forall x | x in tail ensures x != v {
      var q :| p < q < |a| && a[q] == x;
      assert Apart(a[p], a[q]);
    }
  }

  lemma {:induction false} ReverseMultiset<T>(s: seq<T>)
    ensures multiset(Reverse(s)) == multiset(s) && |Reverse(s)| == |s|
    ensures forall i | 0 <= i < |s| :: Reverse(s)[i] == s[|s| - 1 - i]
  {
    if s != [] {
      ReverseMultiset(s[1..]);
      assert s == [s[0]] + s[1..];
    }
  }

  lemma StartOrders()
    ensures TotalOrder(StartLe) && TotalOrder(StartGe)
  {
  }

  lemma StartsDiffer(vs: seq<Violation>, down: seq<Violation>)
    requires PairwiseApart(vs) && forall v | v in vs :: v.start < v.end
    requires forall v :: v in down <==> v in vs
    ensures TieFree(down, StartGe)
  {
    forall x, y | x in down && y in down && x != y ensures x.start != y.start {
      var p :| 0 <= p < |vs| && vs[p] == x;
      var q :| 0 <= q < |vs| && vs[q] == y;
      assert if p < q then Apart(vs[p], vs[q]) else Apart(vs[q], vs[p]);
    }
  }

  lemma ReverseOrder(up: seq<Violation>)
    requires SortedBy(up, StartLe)
    ensures SortedBy(Reverse(up), StartGe)
    ensures Reverse(Reverse(up)) == up
  {
    ReverseMultiset(up);
    ReverseMultiset(Reverse(up));
    var down := Reverse(up);
    forall i, j | 0 <= i < j < |down| ensures StartGe(down[i], down[j]) {
      assert StartLe(up[|up| - 1 - j], up[|up| - 1 - i]);
    }
  }

  /** Disjoint spans sorted downwards are the spans sorted upwards, reversed. */
  lemma SortedDownIsReversedUp(body: string, vs: seq<Violation>)
    requires Within(body, vs) && PairwiseApart(vs)
    ensures Sort(vs, StartGe) == Reverse(Sort(vs, StartLe))
    ensures Reverse(Sort(vs, StartGe)) == Sort(vs, StartLe)
  {
    var up, down := Sort(vs, StartLe), Sort(vs, StartGe);
    StartOrders();
    SortCorrect(vs, StartLe);
    SortCorrect(vs, StartGe);
    ReverseMultiset(up);
    ReverseOrder(up);
    StartsDiffer(vs, down);
    SortedUnique(down, Reverse(up), StartGe);
  }

  lemma SortedUpInOrder(body: string, vs: seq<Violation>)
    requires Within(body, vs) && PairwiseApart(vs)
    ensures InOrder(body, Sort(vs, StartLe), 0)
  {
    var up := Sort(vs, StartLe);
    StartOrders();
    SortCorrect(vs, StartLe);
    ApartPermutes(vs, up);
    SortedApartInOrder(body, up, 0);
  }

  /** Replacing pairwise disjoint spans in place equals replacing them all at once, whatever
      order they are listed in, and the reported types follow the spans from left to right. */
  lemma InPlaceIsSimultaneous(body: string, vs: seq<Violation>, replacer: Replacer)
    requires Within(body, vs) && PairwiseApart(vs)
    ensures var up := Sort(vs, StartLe);
      && InOrder(body, up, 0)
      && ReplaceEach(body, Sort(vs, StartGe), replacer) == Substitute(body, up, 0, replacer)
      && Recommendations(Reverse(Sort(vs, StartGe))) == Recommendations(up)
  {
    SortedDownIsReversedUp(body, vs);
    SortedUpInOrder(body, vs);
    RightToLeft(body, Sort(vs, StartLe), replacer);
  }

  // ---- Disjointness is exactly what is needed ----

  /** Each replacement sees the original text of its span. */
  ghost predicate ReadsOriginal(body: string, ordered: seq<Violation>, replacer: Replacer)
    requires Within(body, ordered)
  {
    forall k | 0 <= k < |ordered| ::
      ordered[k] in ordered ==>
      Slice(ReplaceEach(body, ordered[..k], replacer), ordered[k].start, ordered[k].end)
        == body[ordered[k].start..ordered[k].end]
  }

  /** Replacing spans that start at or after `m` leaves the first `m` characters alone. */
  lemma {:induction false} PrefixKept(body: string, vs: seq<Violation>, m: nat, replacer: Replacer)
    requires m <= |body| && forall v | v in vs :: m <= v.start
    ensures |ReplaceEach(body, vs, replacer)| >= m
    ensures ReplaceEach(body, vs, replacer)[..m] == body[..m]
  {
    if vs != [] {
      var front, v := vs[..|vs| - 1], vs[|vs| - 1];
      PrefixKept(body, front, m, replacer);
      var c := ReplaceEach(body, front, replacer);
      assert Slice(c, 0, v.start)[..m] == c[..m];
    }
  }

  lemma ApartReadsOriginal(body: string, ordered: seq<Violation>, replacer: Replacer)
    requires Within(body, ordered) && SortedBy(ordered, StartGe) && PairwiseApart(ordered)
    ensures ReadsOriginal(body, ordered, replacer)
  {
    forall k | 0 <= k < |ordered|
      ensures Slice(ReplaceEach(body, ordered[..k], replacer), ordered[k].start, ordered[k].end)
        == body[ordered[k].start..ordered[k].end]
    {
      var v := ordered[k];
      assert v in ordered;
      forall x | x in ordered[..k] ensures v.end <= x.start {
        var q :| 0 <= q < k && ordered[q] == x;
        assert StartGe(ordered[q], v) && Apart(ordered[q], v) && x in ordered;
      }
      PrefixKept(body, ordered[..k], v.end, replacer);
      var c := ReplaceEach(body, ordered[..k], replacer);
      assert c[..v.end][v.start..v.end] == body[..v.end][v.start..v.end];
    }
  }

  /** What replaces `v`, whatever text it is computed from, begins with another character. */
  ghost predicate Alters(replacer: Replacer, body: string, v: Violation)
    requires v.start < |body|
  {
    forall x :: replacer(x, v.recommended) != [] && replacer(x, v.recommended)[0] != body[v.start]
  }

  /** Replacing a span that starts inside `b` spoils what `b` reads. */
  lemma OverlapSpoils(body: string, before: string, a: Violation, b: Violation, replacer: Replacer)
    requires a.start < a.end <= |body| && b.start <= a.start < b.end <= |body|
    requires |before| >= a.start && Alters(replacer, body, a)
    ensures Slice(ReplaceSpan(before, a, replacer), b.start, b.end) != body[b.start..b.end]
  {
    var after := ReplaceSpan(before, a, replacer);
    var put := replacer(Slice(before, a.start, a.end), a.recommended);
    assert |Slice(before, 0, a.start)| == a.start;
    assert after[a.start] == put[0];
    var seen := Slice(after, b.start, b.end);
    assert seen[a.start - b.start] == after[a.start];
    assert body[b.start..b.end][a.start - b.start] == body[a.start];
  }

  lemma OverlapIsSeen(body: string, ordered: seq<Violation>, k: nat, replacer: Replacer)
    requires Within(body, ordered) && SortedBy(ordered, StartGe)
    requires k + 1 < |ordered| && !Apart(ordered[k], ordered[k + 1])
    requires ordered[k] in ordered && Alters(replacer, body, ordered[k])
    ensures !ReadsOriginal(body, ordered, replacer)
  {
    var a, b := ordered[k], ordered[k + 1];
    assert a in ordered && b in ordered && StartGe(a, b);
    forall x | x in ordered[..k] ensures a.start <= x.start {
      var q :| 0 <= q < k && ordered[q] == x;
      assert StartGe(ordered[q], a);
    }
    PrefixKept(body, ordered[..k], a.start, replacer);
    assert ordered[..k + 1][..k] == ordered[..k];
    OverlapSpoils(body, ReplaceEach(body, ordered[..k], replacer), a, b, replacer);
  }

  /** In a descending list an overlap is already one between neighbours. */
  lemma OverlapIsAdjacent(ordered: seq<Violation>, i: nat, j: nat)
    requires SortedBy(ordered, StartGe) && i < j < |ordered|
    requires forall v | v in ordered :: v.start < v.end
    requires !Apart(ordered[i], ordered[j])
    ensures !Apart(ordered[j - 1], ordered[j])
  {
    if i < j - 1 {
      assert ordered[j - 1] in ordered;
      assert StartGe(ordered[i], ordered[j - 1]) && StartGe(ordered[j - 1], ordered[j]);
    }
  }

  /** Neighbours that overlap, if any two spans do. */
  lemma OverlapAt(body: string, ordered: seq<Violation>) returns (k: nat)
    requires Within(body, ordered) && SortedBy(ordered, StartGe) && !PairwiseApart(ordered)
    ensures k + 1 < |ordered| && !Apart(ordered[k], ordered[k + 1]) && ordered[k] in ordered
  {
    var i, j :| 0 <= i < j < |ordered| && !Apart(ordered[i], ordered[j]);
    OverlapIsAdjacent(ordered, i, j);
    k := j - 1;
  }

  lemma SortKeepsSpans(body: string, vs: seq<Violation>)
    requires Within(body, vs)
    ensures Within(body, Sort(vs, StartGe)) && SortedBy(Sort(vs, StartGe), StartGe)
    ensures forall v :: v in Sort(vs, StartGe) <==> v in vs
    ensures PairwiseApart(Sort(vs, StartGe)) <==> PairwiseApart(vs)
  {
    var down := Sort(vs, StartGe);
    StartOrders();
    SortCorrect(vs, StartGe);
    if PairwiseApart(vs) { ApartPermutes(vs, down); }
    if PairwiseApart(down) { ApartPermutes(down, vs); }
  }

  /** With a replacer whose output never begins like the span it replaces, every replacement sees
      the original text of its span exactly when no two spans overlap. */
  lemma DisjointnessIsExact(body: string, vs: seq<Violation>, replacer: Replacer)
    requires Within(body, vs) && forall v | v in vs :: Alters(replacer, body, v)
    ensures Within(body, Sort(vs, StartGe))
    ensures ReadsOriginal(body, Sort(vs, StartGe), replacer) <==> PairwiseApart(vs)
  {
    SortKeepsSpans(body, vs);
    var down := Sort(vs, StartGe);
    if PairwiseApart(down) {
      ApartReadsOriginal(body, down, replacer);
    } else {
      var k := OverlapAt(body, down);
      OverlapIsSeen(body, down, k, replacer);
    }
  }

  /** What lies behind all spans is kept by simultaneous substitution. */
  lemma {:induction false} SubstituteKeepsTail(body: string, vs: seq<Violation>, at: nat, m: nat, replacer: Replacer)
    requires InOrder(body, vs, at) && at <= m <= |body| && forall v | v in vs :: v.end <= m
    ensures |Substitute(body, vs, at, replacer)| >= |body| - m
    ensures Substitute(body, vs, at, replacer)[|Substitute(body, vs, at, replacer)| - (|body| - m)..] == body[m..]
  {
    if vs != [] {
      assert vs[0] in vs;
      SubstituteKeepsTail(body, vs[1..], vs[0].end, m, replacer);
    }
  }

  // ---- Overlaps the scanner produces ----

  lemma {:induction false} PatternReports(
      scanner: Scanner, text: string, pattern: string, matches: seq<Match>, m: Match)
    requires forall x | x in matches :: x.start < x.end <= |text|
    requires m in matches
    requires !scanner.excluded(pattern, text[m.start..PathEnd(text, m.start, m.end)])
    ensures ViolationAt(scanner, text, pattern, m) in PatternViolations(scanner, text, pattern, matches)
  {
    var front, last := matches[..|matches| - 1], matches[|matches| - 1];
    assert matches == front + [last];
    if m != last {
      PatternReports(scanner, text, pattern, front, m);
    }
  }

  lemma {:induction false} AllReport(scanner: Scanner, text: string, patterns: seq<string>, pattern: string, m: Match)
    requires Matching(scanner, text) && pattern in patterns && m in scanner.matches(pattern, text)
    requires !scanner.excluded(pattern, text[m.start..PathEnd(text, m.start, m.end)])
    ensures ViolationAt(scanner, text, pattern, m) in AllViolations(scanner, text, patterns)
  {
    var front, last := patterns[..|patterns| - 1], patterns[|patterns| - 1];
    assert patterns == front + [last];
    if pattern == last {
      PatternReports(scanner, text, pattern, scanner.matches(pattern, text), m);
    } else {
      AllReport(scanner, text, front, pattern, m);
    }
  }

  /** Every match that is not excluded is reported. */
  lemma MatchReported(scanner: Scanner, text: string, pattern: string, m: Match)
    requires Matching(scanner, text) && pattern in PATTERNS && m in scanner.matches(pattern, text)
    requires !scanner.excluded(pattern, text[m.start..PathEnd(text, m.start, m.end)])
    ensures ViolationAt(scanner, text, pattern, m) in FindViolations(scanner, text)
  {
    AllReport(scanner, text, PATTERNS, pattern, m);
    ViolationOrder();
    SortCorrect(AllViolations(scanner, text, PATTERNS), ViolationLe);
  }

  /** Two matches of the scanner, the first quoted and the second inside its quotation: the
      reported spans overlap, so that in-place replacement is not safe. */
  lemma QuotedMatchesOverlap(scanner: Scanner, text: string, p: string, outer: Match, q: string, inner: Match)
    requires Matching(scanner, text) && p in PATTERNS && q in PATTERNS
    requires outer in scanner.matches(p, text) && inner in scanner.matches(q, text) && outer.end <= inner.start
    requires Quoted(text, outer.start, outer.end) && inner.start < PathEnd(text, outer.start, outer.end)
    requires !scanner.excluded(p, text[outer.start..PathEnd(text, outer.start, outer.end)])
    requires !scanner.excluded(q, text[inner.start..PathEnd(text, inner.start, inner.end)])
    ensures !PairwiseApart(FindViolations(scanner, text))
  {
    var vs := FindViolations(scanner, text);
    MatchReported(scanner, text, p, outer);
    MatchReported(scanner, text, q, inner);
    var a, b := ViolationAt(scanner, text, p, outer), ViolationAt(scanner, text, q, inner);
    var i :| 0 <= i < |vs| && vs[i] == a;
    var j :| 0 <= j < |vs| && vs[j] == b;
    assert !Apart(a, b) && !Apart(b, a) && a.start != b.start;
    assert if i < j then !Apart(vs[i], vs[j]) else !Apart(vs[j], vs[i]);
  }
}
