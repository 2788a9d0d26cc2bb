/** What the evidence-reuse policy guarantees, for every rulebook and every input. */
module PolicyProperties {
  import opened Options
  import opened Ordering
  import opened Policy
  import opened Text

  // ---- Runs: order and repetition do not matter ----

  lemma {:induction false} RunsOfElements(runs: seq<CheckRun>, check: string)
    ensures forall r :: r in RunsOf(runs, check) <==> r in runs && r.check == check
  {
    if runs != [] {
      RunsOfElements(runs[..|runs| - 1], check);
      assert runs == runs[..|runs| - 1] + [runs[|runs| - 1]];
    }
  }

  lemma IdOrder()
    ensures TotalOrder(IdLe)
  {
  }

  /** The ordered runs of an untied check: the distinct runs, strictly ascending. */
  lemma OrderedRuns(observed: seq<CheckRun>)
    requires !Tied(observed)
    ensures SameElements(Ordered(observed), observed)
    ensures NoRepeats(Ordered(observed)) && SortedBy(Ordered(observed), IdLe)
  {
    IdOrder();
    var d, o := Distinct(observed), Ordered(observed);
    DistinctElements(observed);
    SortCorrect(d, IdLe);
    NoRepeatsCounts(d);
    forall i, j | 0 <= i < j < |o| ensures o[i] != o[j] {
      if o[i] == o[j] {
        PairCounts(o, i, j);
        assert false;
      }
    }
  }

  lemma CheckObligationsByElements(a: seq<CheckRun>, b: seq<CheckRun>, check: string, current: Identity)
    requires SameElements(a, b)
    ensures CheckObligations(a, check, current) == CheckObligations(b, check, current)
  {
    var x, y := RunsOf(a, check), RunsOf(b, check);
    RunsOfElements(a, check);
    RunsOfElements(b, check);
    assert Tied(x) <==> Tied(y);
    if !Tied(x) {
      IdOrder();
      DistinctElements(x);
      DistinctElements(y);
      SameElementsPermute(Distinct(x), Distinct(y));
      assert TieFree(Distinct(x), IdLe);
      SortPermutation(Distinct(x), Distinct(y), IdLe);
    }
  }

  lemma {:induction false} RunObligationsByElements(
    a: seq<CheckRun>, b: seq<CheckRun>, checks: seq<string>, current: Identity)
    requires SameElements(a, b)
    ensures RunObligations(a, checks, current) == RunObligations(b, checks, current)
  {
    if checks != [] {
      RunObligationsByElements(a, b, checks[..|checks| - 1], current);
      CheckObligationsByElements(a, b, checks[|checks| - 1], current);
    }
  }

  /** Permuting the check runs, or repeating identical ones, changes nothing in the result;
      in particular contradictory runs are found in whatever order they arrive. */
  lemma RunOrderIrrelevant(book: Rulebook, input: Input, runs: seq<CheckRun>)
    requires SameElements(input.runs, runs)
    ensures Evaluation(book, input) == Evaluation(book, input.(runs := runs))
  {
    RunObligationsByElements(input.runs, runs, book.requiredChecks, input.state);
  }

  // ---- Ready, exactly ----

  ghost predicate StrictlyAscending(paths: seq<string>) {
    forall i, j | 0 <= i < j < |paths| :: StringLe(paths[i], paths[j]) && paths[i] != paths[j]
  }

  lemma {:induction false} DistinctFixes<T>(s: seq<T>)
    ensures Distinct(s) == s <==> NoRepeats(s)
    ensures |Distinct(s)| <= |s|
  {
    if s != [] {
      var front, last := s[..|s| - 1], s[|s| - 1];
      DistinctFixes(front);
      DistinctElements(front);
      DistinctElements(s);
      assert s == front + [last];
      if NoRepeats(s) {
        assert NoRepeats(front);
        assert last !in front;
      }
    }
  }

  /** `_validate_paths` finds nothing exactly on valid, strictly ascending inventories. */
  lemma PathErrorsExact(paths: seq<string>, pathOk: string -> bool)
    ensures PathErrors(paths, pathOk) == []
      <==> (forall p | p in paths :: pathOk(p)) && StrictlyAscending(paths)
  {
    StringOrder();
    DistinctFixes(paths);
    SortCorrect(paths, StringLe);
    if SortedBy(paths, StringLe) {
      SortedUnique(Sort(paths, StringLe), paths, StringLe);
    }
  }

  /** The newest run of a check, by what it is rather than how it is found. */
  ghost predicate IsNewest(runs: seq<CheckRun>, check: string, newest: CheckRun) {
    && newest in runs && newest.check == check
    && forall r | r in runs && r.check == check :: IdLe(r, newest)
  }

  /** No contradictory runs, and the newest one is a success on the current inputs. */
  ghost predicate CheckReady(runs: seq<CheckRun>, check: string, current: Identity) {
    && (forall r, s | r in runs && s in runs && r.check == s.check == check && Id(r) == Id(s) :: r == s)
    && exists newest :: IsNewest(runs, check, newest) && SameInputs(newest, current)
         && newest.status == Success && newest.conclusion == Some("success")
  }

  lemma TiedByElements(runs: seq<CheckRun>, check: string)
    ensures Tied(RunsOf(runs, check)) <==>
      exists r, s :: r in runs && s in runs && r.check == s.check == check && Id(r) == Id(s) && r != s
  {
    RunsOfElements(runs, check);
  }

  lemma LastIsNewest(runs: seq<CheckRun>, check: string)
    requires !Tied(RunsOf(runs, check))
    ensures var o := Ordered(RunsOf(runs, check));
      && (o != [] ==> IsNewest(runs, check, o[|o| - 1]))
      && (forall r | IsNewest(runs, check, r) :: o != [] && r == o[|o| - 1])
  {
    var observed := RunsOf(runs, check);
    var o := Ordered(observed);
    RunsOfElements(runs, check);
    OrderedRuns(observed);
    if o != [] {
      var last := o[|o| - 1];
      assert last in o;
      forall r | r in runs && r.check == check ensures IdLe(r, last) {
        assert r in o;
      }
    }
    forall r | IsNewest(runs, check, r) ensures o != [] && r == o[|o| - 1] {
      assert r in o;
      assert IdLe(r, o[|o| - 1]) && IdLe(o[|o| - 1], r);
    }
  }

  lemma CheckBlockersExact(runs: seq<CheckRun>, check: string, current: Identity)
    ensures CheckObligations(runs, check, current).blockers == [] <==> CheckReady(runs, check, current)
  {
    TiedByElements(runs, check);
    if !Tied(RunsOf(runs, check)) {
      LastIsNewest(runs, check);
    }
  }

  lemma {:induction false} RunBlockersExact(runs: seq<CheckRun>, checks: seq<string>, current: Identity)
    ensures RunObligations(runs, checks, current).blockers == []
      <==> forall check | check in checks :: CheckReady(runs, check, current)
  {
    if checks != [] {
      var front, last := checks[..|checks| - 1], checks[|checks| - 1];
      RunBlockersExact(runs, front, current);
      CheckBlockersExact(runs, last, current);
      assert checks == front + [last];
    }
  }

  ghost predicate ScopeReady(book: Rulebook, input: Input) {
    && (forall p | p in input.paths :: book.pathOk(p) && ClassifyPath(p, book.rules) != Unknown)
    && StrictlyAscending(input.paths)
    && input.state.inventoryHash == book.sha(JoinLines(input.paths))
    && input.complete && input.dependencyKnown
    && input.dependencyDigest.Some? && input.dependencyDigest.value != ""
  }

  /** The decision is `ready` exactly when the scope is complete, ordered, hashed and classified,
      the dependency state is known, and every required check is ready. */
  lemma ReadyExact(book: Rulebook, input: Input)
    ensures Evaluation(book, input).ready <==>
      && ScopeReady(book, input)
      && forall check | check in book.requiredChecks :: CheckReady(input.runs, check, input.state)
  {
    PathErrorsExact(input.paths, book.pathOk);
    RunBlockersExact(input.runs, book.requiredChecks, input.state);
  }

  lemma FailingNewestNotReady(runs: seq<CheckRun>, failing: CheckRun, current: Identity)
    requires failing.status == Failure && IsNewest(runs, failing.check, failing)
    ensures !CheckReady(runs, failing.check, current)
  {
    forall newest | IsNewest(runs, failing.check, newest) ensures Id(newest) == Id(failing) {
      assert IdLe(newest, failing) && IdLe(failing, newest);
    }
  }

  /** A failing run that is newest for a required check blocks, whatever else the input holds. */
  lemma NewerFailureBlocks(book: Rulebook, input: Input, failing: CheckRun)
    requires failing.status == Failure && failing.check in book.requiredChecks
    requires IsNewest(input.runs, failing.check, failing)
    ensures !Evaluation(book, input).ready
  {
    FailingNewestNotReady(input.runs, failing, input.state);
    ReadyExact(book, input);
  }

  // ---- Conservation ----

  function RefOf(r: CheckRun): RunRef { RunRef(r.check, r.runId, r.jobId) }

  ghost predicate AscendingRefs(refs: seq<RunRef>) {
    forall i, j | 0 <= i < j < |refs| ::
      refs[i].runId < refs[j].runId || (refs[i].runId == refs[j].runId && refs[i].jobId < refs[j].jobId)
  }

  /** `refs` names exactly the runs of the check. */
  ghost predicate NamesRuns(refs: seq<RunRef>, runs: seq<CheckRun>, check: string) {
    && (forall r | r in runs && r.check == check :: RefOf(r) in refs)
    && (forall ref | ref in refs :: exists r :: r in runs && r.check == check && RefOf(r) == ref)
  }

  lemma RefsAscend(ordered: seq<CheckRun>)
    requires SortedBy(ordered, IdLe) && NoRepeats(ordered) && !Tied(ordered)
    ensures AscendingRefs(Refs(ordered))
  {
    var refs := Refs(ordered);
    forall i, j | 0 <= i < j < |refs|
      ensures refs[i].runId < refs[j].runId || (refs[i].runId == refs[j].runId && refs[i].jobId < refs[j].jobId)
    {
      assert ordered[i] in ordered && ordered[j] in ordered && ordered[i] != ordered[j];
      assert IdLe(ordered[i], ordered[j]);
    }
  }

  lemma RefsName(ordered: seq<CheckRun>, runs: seq<CheckRun>, check: string)
    requires forall r :: r in ordered <==> r in runs && r.check == check
    ensures NamesRuns(Refs(ordered), runs, check)
  {
    var refs := Refs(ordered);
    forall r | r in runs && r.check == check ensures RefOf(r) in refs {
      var i :| 0 <= i < |ordered| && ordered[i] == r;
      assert refs[i] == RefOf(r);
    }
    forall ref | ref in refs ensures exists r :: r in runs && r.check == check && RefOf(r) == ref {
      var i :| 0 <= i < |refs| && refs[i] == ref;
      assert ordered[i] in ordered && RefOf(ordered[i]) == ref;
    }
  }

  lemma RefsSplit(ordered: seq<CheckRun>, current: Identity)
    requires ordered != []
    ensures var newest := ordered[|ordered| - 1];
      var o := VerdictObligations(Judge(newest, current), newest).Plus(HistoryObligations(ordered));
      && (o.retained == [] || o.retained == [RefOf(newest)])
      && o.superseded + [RefOf(newest)] == Refs(ordered)
  {
  }

  /** For an observed, untied check the superseded runs and the newest one, in this order, are
      its distinct runs oldest first: none lost, none repeated, none invented. */
  lemma RunsConserved(runs: seq<CheckRun>, check: string, current: Identity, newest: CheckRun)
    requires !Tied(RunsOf(runs, check)) && IsNewest(runs, check, newest)
    ensures var o := CheckObligations(runs, check, current);
      && (o.retained == [] || o.retained == [RefOf(newest)])
      && AscendingRefs(o.superseded + [RefOf(newest)])
      && NamesRuns(o.superseded + [RefOf(newest)], runs, check)
  {
    var observed := RunsOf(runs, check);
    var ordered := Ordered(observed);
    RunsOfElements(runs, check);
    OrderedRuns(observed);
    LastIsNewest(runs, check);
    RefsSplit(ordered, current);
    RefsAscend(ordered);
    RefsName(ordered, runs, check);
  }

  function Firsts(invalidated: seq<(Reference, seq<string>)>): seq<Reference> {
    seq(|invalidated|, i requires 0 <= i < |invalidated| => invalidated[i].0)
  }

  function References(evidence: seq<Evidence>): seq<Reference> {
    seq(|evidence|, i requires 0 <= i < |evidence| => ReferenceTo(evidence[i]))
  }

  function All(s: Sifted): multiset<Reference> {
    multiset(s.reused) + multiset(s.recollected) + multiset(Firsts(s.invalidated))
  }

  lemma FirstsSnoc(invalidated: seq<(Reference, seq<string>)>, r: Reference, fields: seq<string>)
    ensures multiset(Firsts(invalidated + [(r, fields)])) == multiset(Firsts(invalidated)) + multiset{r}
  {
    assert Firsts(invalidated + [(r, fields)]) == Firsts(invalidated) + [r];
  }

  lemma SiftStep(front: seq<Evidence>, e: Evidence, fates: Fates)
    ensures All(Sift(front + [e], fates))
      == All(Sift(front, fates)) + multiset{ReferenceTo(e)}
  {
    var whole, r := front + [e], ReferenceTo(e);
    assert whole[..|whole| - 1] == front;
    var s := Sift(front, fates);
    match fates(e)
    case Reuse =>
      assert multiset(s.reused + [r]) == multiset(s.reused) + multiset{r};
    case Recollect =>
      assert multiset(s.recollected + [r]) == multiset(s.recollected) + multiset{r};
    case Invalidate(fields) => FirstsSnoc(s.invalidated, r, fields);
  }

  lemma ReferencesSnoc(front: seq<Evidence>, e: Evidence)
    ensures multiset(References(front + [e])) == multiset(References(front)) + multiset{ReferenceTo(e)}
  {
    assert References(front + [e]) == References(front) + [ReferenceTo(e)];
  }

  /** The lists of `s` hold exactly the references of `evidence`. */
  ghost predicate Partitions(s: Sifted, evidence: seq<Evidence>) {
    All(s) == multiset(References(evidence))
  }

  lemma PartitionStep(front: seq<Evidence>, e: Evidence, fates: Fates, s: Sifted, t: Sifted)
    requires s == Sift(front, fates) && t == Sift(front + [e], fates)
    requires Partitions(s, front)
    ensures Partitions(t, front + [e])
  {
    SiftStep(front, e, fates);
    ReferencesSnoc(front, e);
  }

  lemma {:induction false} SiftPartitions(evidence: seq<Evidence>, fates: Fates, s: Sifted)
    requires s == Sift(evidence, fates)
    ensures Partitions(s, evidence)
  {
    if evidence == [] {
      assert Firsts([]) == [] && References([]) == [];
    } else {
      var front, e := evidence[..|evidence| - 1], evidence[|evidence| - 1];
      assert evidence == front + [e];
      var t := Sift(front, fates);
      SiftPartitions(front, fates, t);
      PartitionStep(front, e, fates, t, s);
    }
  }

  /** Every evidence item is where its fate says. */
  ghost predicate Placed(evidence: seq<Evidence>, fates: Fates, s: Sifted) {
    forall e | e in evidence :: PlacedOne(e, fates, s)
  }

  ghost predicate PlacedOne(e: Evidence, fates: Fates, s: Sifted) {
    match fates(e)
    case Reuse => ReferenceTo(e) in s.reused
    case Recollect => ReferenceTo(e) in s.recollected
    case Invalidate(fields) => (ReferenceTo(e), fields) in s.invalidated
  }

  ghost predicate HasFate(evidence: seq<Evidence>, fates: Fates, r: Reference, fate: Fate) {
    exists e :: e in evidence && ReferenceTo(e) == r && fates(e) == fate
  }

  ghost predicate ReusedJustly(evidence: seq<Evidence>, fates: Fates, list: seq<Reference>) {
    forall r | r in list :: HasFate(evidence, fates, r, Reuse)
  }

  ghost predicate RecollectedJustly(
    evidence: seq<Evidence>, fates: Fates, list: seq<Reference>)
  {
    forall r | r in list :: HasFate(evidence, fates, r, Recollect)
  }

  ghost predicate InvalidatedJustly(
    evidence: seq<Evidence>, fates: Fates, list: seq<(Reference, seq<string>)>)
  {
    forall p | p in list :: HasFate(evidence, fates, p.0, Invalidate(p.1))
  }

  /** Everything listed got there by its fate. */
  ghost predicate Justified(evidence: seq<Evidence>, fates: Fates, s: Sifted) {
    && ReusedJustly(evidence, fates, s.reused)
    && RecollectedJustly(evidence, fates, s.recollected)
    && InvalidatedJustly(evidence, fates, s.invalidated)
  }

  /** `s` with the item of reference `r` put where `fate` says. */
  function Place(s: Sifted, r: Reference, fate: Fate): Sifted {
    match fate
    case Reuse => s.(reused := s.reused + [r])
    case Recollect => s.(recollected := s.recollected + [r])
    case Invalidate(fields) => s.(invalidated := s.invalidated + [(r, fields)])
  }

  lemma SiftSnoc(front: seq<Evidence>, e: Evidence, fates: Fates)
    ensures Sift(front + [e], fates).(reasons := [])
      == Place(Sift(front, fates), ReferenceTo(e), fates(e)).(reasons := [])
  {
    var whole := front + [e];
    assert whole[..|whole| - 1] == front && whole[|whole| - 1] == e;
  }

  lemma PlacedStep(
      front: seq<Evidence>, e: Evidence, fates: Fates, s: Sifted, t: Sifted, fate: Fate)
    requires Placed(front, fates, s) && fate == fates(e)
    requires t.(reasons := []) == Place(s, ReferenceTo(e), fate).(reasons := [])
    ensures Placed(front + [e], fates, t)
  {
    forall x | x in front + [e] ensures PlacedOne(x, fates, t) {
      if x in front {
        assert PlacedOne(x, fates, s);
      } else {
        assert x == e;
      }
    }
  }

  lemma {:induction false} SiftPlaces(evidence: seq<Evidence>, fates: Fates, s: Sifted)
    requires s == Sift(evidence, fates)
    ensures Placed(evidence, fates, s)
  {
    if evidence != [] {
      var front, last := evidence[..|evidence| - 1], evidence[|evidence| - 1];
      assert evidence == front + [last];
      var t := Sift(front, fates);
      SiftPlaces(front, fates, t);
      SiftSnoc(front, last, fates);
      PlacedStep(front, last, fates, t, s, fates(last));
    }
  }

  lemma FateWidens(front: seq<Evidence>, e: Evidence, fates: Fates)
    ensures forall r, fate :: HasFate(front, fates, r, fate) ==>
      HasFate(front + [e], fates, r, fate)
    ensures HasFate(front + [e], fates, ReferenceTo(e), fates(e))
  {
    var whole := front + [e];
    assert e in whole;
    forall r, fate | HasFate(front, fates, r, fate) ensures HasFate(whole, fates, r, fate) {
      var x :| x in front && ReferenceTo(x) == r && fates(x) == fate;
      assert x in whole;
    }
  }

  /** Every fate given in `a` is given in `b`. */
  ghost predicate Widens(a: seq<Evidence>, b: seq<Evidence>, fates: Fates) {
    forall q, f :: HasFate(a, fates, q, f) ==> HasFate(b, fates, q, f)
  }

  lemma JustifiedWidens(a: seq<Evidence>, b: seq<Evidence>, fates: Fates, s: Sifted)
    requires Justified(a, fates, s) && Widens(a, b, fates)
    ensures Justified(b, fates, s)
  {
  }

  lemma JustifiedPlace(
      b: seq<Evidence>, fates: Fates, s: Sifted, r: Reference, fate: Fate, t: Sifted)
    requires Justified(b, fates, s) && HasFate(b, fates, r, fate)
    requires t.(reasons := []) == Place(s, r, fate).(reasons := [])
    ensures Justified(b, fates, t)
  {
    match fate
    case Reuse => assert t.recollected == s.recollected && t.invalidated == s.invalidated;
    case Recollect => assert t.reused == s.reused && t.invalidated == s.invalidated;
    case Invalidate(_) => assert t.reused == s.reused && t.recollected == s.recollected;
  }

  lemma JustifiedStep(
      front: seq<Evidence>, e: Evidence, fates: Fates, s: Sifted, t: Sifted, fate: Fate)
    requires Justified(front, fates, s) && fate == fates(e)
    requires t.(reasons := []) == Place(s, ReferenceTo(e), fate).(reasons := [])
    ensures Justified(front + [e], fates, t)
  {
    FateWidens(front, e, fates);
    JustifiedWidens(front, front + [e], fates, s);
    JustifiedPlace(front + [e], fates, s, ReferenceTo(e), fate, t);
  }

  lemma {:induction false} SiftJustified(evidence: seq<Evidence>, fates: Fates, s: Sifted)
    requires s == Sift(evidence, fates)
    ensures Justified(evidence, fates, s)
  {
    if evidence != [] {
      var front, last := evidence[..|evidence| - 1], evidence[|evidence| - 1];
      assert evidence == front + [last];
      var t := Sift(front, fates);
      SiftJustified(front, fates, t);
      SiftSnoc(front, last, fates);
      JustifiedStep(front, last, fates, t, s, fates(last));
    }
  }

  /** No field has changed exactly when the identities are equal, the body hash counting only for
      evidence that depends on the body. */
  lemma UnchangedExact(e: Evidence, current: Identity)
    ensures ChangedFields(e, current) == [] <==>
      (&& e.identity.(bodyHash := None) == current.(bodyHash := None)
       && (e.bodyDependent ==> e.identity.bodyHash == current.bodyHash))
  {
  }

  lemma PermittedScope(book: Rulebook, input: Input)
    ensures ScopeRequirements(book, input).reusePermitted <==> ScopeReady(book, input)
  {
    PathErrorsExact(input.paths, book.pathOk);
  }

  /** The evidence part of a result. */
  ghost function SiftedOf(r: Result): Sifted { Sifted(r.reused, r.recollected, r.invalidated, []) }

  lemma EvaluationSifts(book: Rulebook, input: Input)
    ensures SiftedOf(Evaluation(book, input))
      == Sift(Sort(input.evidence, EvidenceLe), FatesOf(input.state, ScopeReady(book, input))).(reasons := [])
  {
    PermittedScope(book, input);
  }

  /** Every evidence item has exactly one fate, and the lists hold nothing else: it is reused
      exactly when fresh, unchanged and in a scope without blockers, recollected when live, and
      invalidated with the changed fields otherwise. */
  lemma EvidenceConserved(book: Rulebook, input: Input)
    ensures var r, fates := Evaluation(book, input), FatesOf(input.state, ScopeReady(book, input));
      && Partitions(SiftedOf(r), input.evidence)
      && Placed(input.evidence, fates, SiftedOf(r))
      && Justified(input.evidence, fates, SiftedOf(r))
  {
    var fates := FatesOf(input.state, ScopeReady(book, input));
    var sorted := Sort(input.evidence, EvidenceLe);
    EvidenceOrder();
    SortCorrect(input.evidence, EvidenceLe);
    SiftPartitions(sorted, fates, Sift(sorted, fates));
    SiftPlaces(sorted, fates, Sift(sorted, fates));
    SiftJustified(sorted, fates, Sift(sorted, fates));
    EvaluationSifts(book, input);
    ReferencesPermute(sorted, input.evidence);
    PlacedElsewhere(sorted, input.evidence, fates, Sift(sorted, fates), SiftedOf(Evaluation(book, input)));
  }

  lemma PlacedElsewhere(a: seq<Evidence>, b: seq<Evidence>, fates: Fates, s: Sifted, t: Sifted)
    requires forall e :: e in a <==> e in b
    requires t == s.(reasons := [])
    ensures Placed(a, fates, s) ==> Placed(b, fates, t)
    ensures Justified(a, fates, s) ==> Justified(b, fates, t)
  {
  }

  lemma ReferencesConcat(a: seq<Evidence>, b: seq<Evidence>)
    ensures References(a + b) == References(a) + References(b)
  {
  }

  lemma {:induction false} ReferencesPermute(a: seq<Evidence>, b: seq<Evidence>)
    requires multiset(a) == multiset(b)
    ensures multiset(References(a)) == multiset(References(b))
  {
    if a == [] {
      EmptyContents(b);
    } else {
      var e, front := a[|a| - 1], a[..|a| - 1];
      assert a == front + [e];
      assert e in multiset(a);
      var l, r := RemoveOne(b, e);
      ReferencesPermute(front, l + r);
      ReferencesConcat(front, [e]);
      ReferencesConcat(l, [e]);
      ReferencesConcat(l + [e], r);
      ReferencesConcat(l, r);
    }
  }

  lemma EvidenceOrder()
    ensures TotalOrder(EvidenceLe)
  {
    StringOrder();
    forall a, b ensures EvidenceLe(a, b) || EvidenceLe(b, a) { StringLeTotal(a.id, b.id); }
    forall a, b, c | EvidenceLe(a, b) && EvidenceLe(b, c) ensures EvidenceLe(a, c) {
      StringLeTransitive(a.id, b.id, c.id);
    }
  }

  // ---- Path classification ----

  ghost predicate IsBest(path: string, rules: seq<Rule>, best: (nat, ImpactClass)) {
    && (exists r :: r in rules && Applies(r, path) && best == (|r.path|, r.impactClass))
    && (forall r | r in rules && Applies(r, path) :: !Outranks((|r.path|, r.impactClass), best))
  }

  lemma {:induction false} BestMatchExact(path: string, rules: seq<Rule>)
    ensures var best := BestMatch(path, rules);
      if best.None? then forall r | r in rules :: !Applies(r, path) else IsBest(path, rules, best.value)
  {
    if rules != [] {
      var front, last := rules[..|rules| - 1], rules[|rules| - 1];
      BestMatchExact(path, front);
      assert rules == front + [last];
      assert last in rules;
    }
  }

  lemma SamePrefix(r: Rule, s: Rule, path: string)
    requires Applies(r, path) && Applies(s, path) && |r.path| == |s.path|
    ensures r.path == s.path
  {
    assert r.path == path[..|r.path|];
    assert s.path == path[..|s.path|];
  }

  /** The class is that of a longest matching rule, `unknown` only when none matches, and no
      rule order can change it. */
  lemma ClassifyLongest(path: string, rules: seq<Rule>, other: seq<Rule>)
    ensures (forall r | r in rules :: !Applies(r, path)) ==> ClassifyPath(path, rules) == Unknown
    ensures (exists r :: r in rules && Applies(r, path)) ==>
      exists r :: r in rules && Applies(r, path) && ClassifyPath(path, rules) == r.impactClass
        && forall s | s in rules && Applies(s, path) :: |s.path| <= |r.path|
    ensures SameElements(rules, other) ==> ClassifyPath(path, rules) == ClassifyPath(path, other)
  {
    BestMatchExact(path, rules);
    BestMatchExact(path, other);
    var best := BestMatch(path, rules);
    if best.Some? {
      var r :| r in rules && Applies(r, path) && best.value == (|r.path|, r.impactClass);
      assert forall s | s in rules && Applies(s, path) :: |s.path| <= |r.path|;
    }
    if SameElements(rules, other) {
      BestUnique(path, rules, other);
    }
  }

  lemma RankInjective(c: ImpactClass, d: ImpactClass)
    requires Rank(c) == Rank(d)
    ensures c == d
  {
  }

  lemma BestUnique(path: string, rules: seq<Rule>, other: seq<Rule>)
    requires SameElements(rules, other)
    ensures BestMatch(path, rules) == BestMatch(path, other)
  {
    BestMatchExact(path, rules);
    BestMatchExact(path, other);
    var a, b := BestMatch(path, rules), BestMatch(path, other);
    if a.Some? {
      var r :| r in rules && Applies(r, path) && a.value == (|r.path|, r.impactClass);
      assert r in other;
    }
    if b.Some? {
      var s :| s in other && Applies(s, path) && b.value == (|s.path|, s.impactClass);
      assert s in rules;
      assert a.Some?;
      assert !Outranks(a.value, b.value) && !Outranks(b.value, a.value);
      RankInjective(a.value.1, b.value.1);
    }
  }

  /** When equal prefixes carry equal classes, any longest matching rule names the class. */
  lemma LongestRuleDecides(path: string, rules: seq<Rule>, r: Rule)
    requires forall a, b | a in rules && b in rules && a.path == b.path :: a.impactClass == b.impactClass
    requires r in rules && Applies(r, path)
    requires forall s | s in rules && Applies(s, path) :: |s.path| <= |r.path|
    ensures ClassifyPath(path, rules) == r.impactClass
  {
    BestMatchExact(path, rules);
    var best := BestMatch(path, rules);
    var t :| t in rules && Applies(t, path) && best.value == (|t.path|, t.impactClass);
    SamePrefix(r, t, path);
  }

  // ---- Requirements ----

  function Join(a: Requirements, b: Requirements): Requirements {
    Requirements(
      a.focused + b.focused, a.fullSuite || b.fullSuite, a.docs || b.docs, a.workflow || b.workflow,
      a.sensitive || b.sensitive, a.liveEvidence || b.liveEvidence, a.bodyRegeneration || b.bodyRegeneration,
      a.independentReview || b.independentReview, a.boundaryDisclosure || b.boundaryDisclosure,
      a.terminalChecks || b.terminalChecks, a.reusePermitted && b.reusePermitted, a.unknownScope || b.unknownScope)
  }

  lemma JoinMeets(a: set<ImpactClass>, b: set<ImpactClass>, these: set<ImpactClass>)
    ensures (a + b) * these != {} <==> a * these != {} || b * these != {}
  {
    assert (a + b) * these == a * these + b * these;
  }

  lemma JoinLeaves(a: set<ImpactClass>, b: set<ImpactClass>, these: set<ImpactClass>)
    ensures (a + b) - these != {} <==> a - these != {} || b - these != {}
  {
    assert (a + b) - these == (a - these) + (b - these);
  }

  /** Requirements of a union of classes are the join of the requirements. */
  lemma RequirementsJoin(a: set<ImpactClass>, b: set<ImpactClass>)
    ensures StrictRequirements(a + b) == Join(StrictRequirements(a), StrictRequirements(b))
  {
    JoinMeets(a, b, FULL_SUITE);
    JoinMeets(a, b, SENSITIVE);
    JoinLeaves(a, b, {EvidenceOnlyMetadata, DocumentationOnly});
    assert StrictRequirements(a + b).focused == StrictRequirements(a).focused + StrictRequirements(b).focused;
  }

  /** `strict` asks at least as much as `loose`. */
  ghost predicate AtLeast(strict: Requirements, loose: Requirements) {
    Join(strict, loose) == strict
  }

  /** Adding a changed file never relaxes an obligation. */
  lemma ExtraPathNeverRelaxes(paths: seq<string>, extra: string, rules: seq<Rule>)
    ensures AtLeast(StrictRequirements(Classes(paths + [extra], rules)), StrictRequirements(Classes(paths, rules)))
  {
    var old_, new_ := Classes(paths, rules), Classes(paths + [extra], rules);
    assert new_ == old_ + {ClassifyPath(extra, rules)};
    assert new_ == new_ + old_;
    RequirementsJoin(new_, old_);
  }
}
