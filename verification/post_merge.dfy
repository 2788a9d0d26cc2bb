/** After the merge: whether each declared issue ended as declared, and nothing else closed. */
module PostMerge {
  import opened Closure
  import opened Options

  /** A timestamp field: missing or empty, present but unreadable, or a moment. */
  datatype Stamp = Absent | Unreadable | At(time: int)

  datatype Observed = Observed(state: Option<string>, reason: Option<string>, closedAt: Stamp, reopenedAt: Stamp)

  datatype IssueState = IssueState(number: Option<int>, observed: Observed)

  datatype Collection = Collection(sameIdentity: bool, complete: bool, mergedAt: Stamp, states: seq<IssueState>)

  function StateOf(o: Observed): string { if Filled(o.state) then o.state.value else "unknown" }

  /** `collect_post_merge_issue_states`, reading the declared issues one by one. */
  method CollectStates(contract: seq<Entry>, answer: int -> Option<Observed>, mergedAt: Stamp) returns (c: Collection)
    ensures c == Collection(true, AllAnswered(contract, answer), mergedAt, Answers(contract, answer))
  {
    var states: seq<IssueState>, complete := [], true;
    for i := 0 to |contract|
      invariant states == Answers(contract[..i], answer)
      invariant complete <==> AllAnswered(contract[..i], answer)
    {
      var n := contract[i].number;
      assert contract[..i + 1] == contract[..i] + [contract[i]];
      if answer(n).Some? {
        states := states + [IssueState(Some(n), answer(n).value)];
      } else {
        complete := false;
      }
    }
    assert contract[..|contract|] == contract;
    return Collection(true, complete, mergedAt, states);
  }

  predicate AllAnswered(contract: seq<Entry>, answer: int -> Option<Observed>) {
    forall e | e in contract :: answer(e.number).Some?
  }

  function Answers(contract: seq<Entry>, answer: int -> Option<Observed>): seq<IssueState> {
    if contract == [] then []
    else
      var n := contract[|contract| - 1].number;
      Answers(contract[..|contract| - 1], answer)
      + if answer(n).Some? then [IssueState(Some(n), answer(n).value)] else []
  }

  /** The last observation of each issue. */
  function Normalized(states: seq<IssueState>): map<int, Observed> {
    if states == [] then map[]
    else
      var front, last := Normalized(states[..|states| - 1]), states[|states| - 1];
      if last.number.Some? then front[last.number.value := last.observed] else front
  }

  predicate OnlyDeclared(contract: seq<Entry>, states: seq<IssueState>) {
    forall s | s in states :: IssueNumber(s.number).Some? && s.number.value in Numbers(contract)
  }

  function SourceOf(w: Evidence, n: int): Source {
    if w.Linked(n) then BodyOrGraphql
    else if n in w.Links(DevelopmentLink) then DevelopmentLinkage
    else UnknownSource
  }

  // ---- The findings about one entry ----

  predicate Ambiguous(merged: Stamp, o: Observed) {
    || o.closedAt.Unreadable? || o.reopenedAt.Unreadable?
    || (merged.At? && o.closedAt.At? && o.closedAt.time < merged.time)
    || (o.closedAt.At? && o.reopenedAt.At? && o.reopenedAt.time < o.closedAt.time)
  }

  function StateFinding(w: Evidence, e: Entry, o: Observed): Finding {
    var state, n := StateOf(o), Some(e.number);
    if state == e.postState && (e.postReason.None? || o.reason == e.postReason) then
      Finding(StateMatched, n, IssueStateSource)
    else if state == e.postState then Finding(ReasonMismatch, n, IssueStateSource)
    else if state == "closed" && !e.closureAuthorized then Finding(UnauthorizedClosure, n, SourceOf(w, e.number))
    else if e.postState == "closed" then Finding(ExpectedClosureMissing, n, SourceOf(w, e.number))
    else Finding(SourceUnknown, n, SourceOf(w, e.number))
  }

  function TimeFindings(e: Entry, merged: Stamp, o: Observed): seq<Finding> {
    if Ambiguous(merged, o) then [Finding(TimestampAmbiguous, Some(e.number), IssueStateSource)] else []
  }

  function ReopenFindings(w: Evidence, e: Entry, o: Observed): seq<Finding> {
    if o.reopenedAt.At? && !e.reopenAuthorized then [Finding(UnauthorizedReopen, Some(e.number), SourceOf(w, e.number))]
    else if e.expectedReopen && !o.reopenedAt.At? then
      [Finding(ExpectedReopenMissing, Some(e.number), SourceOf(w, e.number))]
    else []
  }

  function EntryFindings(w: Evidence, e: Entry, merged: Stamp, seen: map<int, Observed>): seq<Finding> {
    if e.number !in seen then [Finding(SourceUnknown, Some(e.number), IssueStateSource)]
    else
      var o := seen[e.number];
      TimeFindings(e, merged, o) + ReopenFindings(w, e, o) + [StateFinding(w, e, o)]
  }

  function AllEntryFindings(w: Evidence, contract: seq<Entry>, merged: Stamp, seen: map<int, Observed>): seq<Finding> {
    if contract == [] then []
    else
      AllEntryFindings(w, contract[..|contract| - 1], merged, seen)
      + EntryFindings(w, contract[|contract| - 1], merged, seen)
  }

  function HeadFindings(c: Collection): seq<Finding> {
    if c.complete then [] else [Finding(EvidenceIncompleteFound, None, PostMergeStates)]
  }

  function PostFindings(w: Evidence, contract: seq<Entry>, c: Collection): seq<Finding> {
    HeadFindings(c) + AllEntryFindings(w, contract, c.mergedAt, Normalized(c.states))
  }

  /** The observations by issue; `None` when one is about an undeclared issue. */
  method Normalize(contract: seq<Entry>, states: seq<IssueState>) returns (r: Option<map<int, Observed>>)
    ensures r.Some? <==> OnlyDeclared(contract, states)
    ensures r.Some? ==> r.value == Normalized(states)
  {
    var seen: map<int, Observed> := map[];
    for i := 0 to |states|
      invariant OnlyDeclared(contract, states[..i]) && seen == Normalized(states[..i])
    {
      var s := states[i];
      assert states[..i + 1] == states[..i] + [s];
      if IssueNumber(s.number).None? || s.number.value !in Numbers(contract) {
        assert s in states;
        return None;
      }
      seen := seen[s.number.value := s.observed];
    }
    assert states[..|states|] == states;
    return Some(seen);
  }

  /** `verify_post_merge`; `None` is its error.  The sorted findings are clean exactly when the
      collection was complete and every issue ended as declared, and hold one outcome per issue. */
  method VerifyPostMerge(w: Evidence, contract: seq<Entry>, c: Collection) returns (r: Option<seq<Finding>>)
    ensures r.Some? <==> c.sameIdentity && OnlyDeclared(contract, c.states)
    ensures r.Some? ==> r.value == SortFindings(PostFindings(w, contract, c))
    ensures r.Some? ==> (!Reports(r.value, NOT_MATCHED) <==> c.complete && AllEnded(contract, c))
    ensures r.Some? && Distinctly(contract) ==> forall e | e in contract ::
      OutcomeReported(e, Normalized(c.states), About(r.value, e.number, OUTCOMES))
  {
    if !c.sameIdentity {
      return None;
    }
    var normalized := Normalize(contract, c.states);
    if normalized.None? {
      return None;
    }
    var findings := VerifyEntries(w, contract, c.mergedAt, normalized.value);
    findings := (if c.complete then [] else [Finding(EvidenceIncompleteFound, None, PostMergeStates)]) + findings;
    PostMergeExact(w, contract, c);
    SortedReports(findings, NOT_MATCHED);
    if Distinctly(contract) { SortedOutcomes(w, contract, c); }
    return Some(SortFindings(findings));
  }

  method VerifyEntries(w: Evidence, contract: seq<Entry>, merged: Stamp, seen: map<int, Observed>)
    returns (findings: seq<Finding>)
    ensures findings == AllEntryFindings(w, contract, merged, seen)
  {
    findings := [];
    for i := 0 to |contract|
      invariant findings == AllEntryFindings(w, contract[..i], merged, seen)
    {
      assert contract[..i + 1][..i] == contract[..i];
      var about := VerifyEntry(w, contract[i], merged, seen);
      findings := findings + about;
    }
    assert contract[..|contract|] == contract;
  }

  /** The body of the loop over entries: only a match is reported exactly for an issue that ended as
      declared, timestamps and reopening are reported exactly when due, and the outcome once. */
  method VerifyEntry(w: Evidence, e: Entry, merged: Stamp, seen: map<int, Observed>) returns (findings: seq<Finding>)
    ensures findings == EntryFindings(w, e, merged, seen)
    ensures !Reports(findings, NOT_MATCHED) <==> e.number in seen && EndedAsDeclared(e, merged, seen[e.number])
    ensures OutcomeReported(e, seen, About(findings, e.number, OUTCOMES))
    ensures forall code | code in MISHAPS ::
      Reports(findings, {code}) <==> e.number in seen && Mishap(e, merged, seen[e.number], code)
  {
    findings := CollectEntry(w, e, merged, seen);
    EntryVerdict(w, e, merged, seen);
    EntryOutcome(w, e, merged, seen);
    EntryMishaps(w, e, merged, seen);
  }

  method CollectEntry(w: Evidence, e: Entry, merged: Stamp, seen: map<int, Observed>) returns (findings: seq<Finding>)
    ensures findings == EntryFindings(w, e, merged, seen)
  {
    if e.number !in seen {
      return [Finding(SourceUnknown, Some(e.number), IssueStateSource)];
    }
    var o := seen[e.number];
    findings := VerifyTimes(w, e, merged, o);
    var outcome := VerifyState(w, e, o);
    findings := findings + [outcome];
  }

  /** Timestamps and reopening. */
  method VerifyTimes(w: Evidence, e: Entry, merged: Stamp, o: Observed) returns (findings: seq<Finding>)
    ensures findings == TimeFindings(e, merged, o) + ReopenFindings(w, e, o)
  {
    findings := [];
    if Ambiguous(merged, o) {
      findings := findings + [Finding(TimestampAmbiguous, Some(e.number), IssueStateSource)];
    }
    if o.reopenedAt.At? && !e.reopenAuthorized {
      findings := findings + [Finding(UnauthorizedReopen, Some(e.number), SourceOf(w, e.number))];
    } else if e.expectedReopen && !o.reopenedAt.At? {
      findings := findings + [Finding(ExpectedReopenMissing, Some(e.number), SourceOf(w, e.number))];
    }
  }

  /** The chain of state checks. */
  method VerifyState(w: Evidence, e: Entry, o: Observed) returns (finding: Finding)
    ensures finding == StateFinding(w, e, o)
  {
    var n, state := Some(e.number), StateOf(o);
    if state == e.postState && (e.postReason.None? || o.reason == e.postReason) {
      return Finding(StateMatched, n, IssueStateSource);
    } else if state == e.postState && e.postReason.Some? {
      return Finding(ReasonMismatch, n, IssueStateSource);
    } else if state == "closed" && !e.closureAuthorized {
      return Finding(UnauthorizedClosure, n, SourceOf(w, e.number));
    } else if e.postState == "closed" {
      return Finding(ExpectedClosureMissing, n, SourceOf(w, e.number));
    }
    return Finding(SourceUnknown, n, SourceOf(w, e.number));
  }

  // ---- What a clean verdict means ----

  /** The issue ended in the declared state for the declared reason, in a readable order of
      events, reopened only where authorized and wherever expected. */
  predicate EndedAsDeclared(e: Entry, merged: Stamp, o: Observed) {
    && StateOf(o) == e.postState && (e.postReason.Some? ==> o.reason == e.postReason)
    && !Ambiguous(merged, o)
    && (o.reopenedAt.At? ==> e.reopenAuthorized) && (e.expectedReopen ==> o.reopenedAt.At?)
  }

  const NOT_MATCHED := {
    EvidenceIncompleteFound, UnauthorizedClosure, ExpectedClosureMissing, UnauthorizedReopen,
    ExpectedReopenMissing, ReasonMismatch, TimestampAmbiguous, SourceUnknown}

  const MISHAPS := {TimestampAmbiguous, UnauthorizedReopen, ExpectedReopenMissing}

  /** When a timestamp or reopening finding is due. */
  predicate Mishap(e: Entry, merged: Stamp, o: Observed, code: Code) {
    match code
    case TimestampAmbiguous => Ambiguous(merged, o)
    case UnauthorizedReopen => o.reopenedAt.At? && !e.reopenAuthorized
    case ExpectedReopenMissing => !o.reopenedAt.At? && e.expectedReopen
    case _ => false
  }

  lemma EntryMishaps(w: Evidence, e: Entry, merged: Stamp, seen: map<int, Observed>)
    ensures forall code | code in MISHAPS ::
      (Reports(EntryFindings(w, e, merged, seen), {code})
       <==> e.number in seen && Mishap(e, merged, seen[e.number], code))
  {
    if e.number in seen {
      var o := seen[e.number];
      var times, reopens, state := TimeFindings(e, merged, o), ReopenFindings(w, e, o), StateFinding(w, e, o);
      assert times != [] ==> times[0] in times;
      assert reopens != [] ==> reopens[0] in reopens;
      forall code | code in MISHAPS
        ensures Reports(times + reopens + [state], {code}) <==> Mishap(e, merged, o, code)
      {
        ReportsConcat(times, reopens, {code});
        ReportsConcat(times + reopens, [state], {code});
      }
    }
  }

  ghost predicate AllEnded(contract: seq<Entry>, c: Collection) {
    forall e | e in contract ::
      e.number in Normalized(c.states) && EndedAsDeclared(e, c.mergedAt, Normalized(c.states)[e.number])
  }

  const OUTCOMES := {StateMatched, ReasonMismatch, UnauthorizedClosure, ExpectedClosureMissing, SourceUnknown}

  lemma {:induction false} ReportsEntries(
      w: Evidence, contract: seq<Entry>, merged: Stamp, seen: map<int, Observed>, codes: set<Code>)
    ensures Reports(AllEntryFindings(w, contract, merged, seen), codes)
      <==> exists e :: e in contract && Reports(EntryFindings(w, e, merged, seen), codes)
  {
    if contract != [] {
      var front, last := contract[..|contract| - 1], contract[|contract| - 1];
      assert contract == front + [last];
      ReportsEntries(w, front, merged, seen, codes);
      ReportsConcat(AllEntryFindings(w, front, merged, seen), EntryFindings(w, last, merged, seen), codes);
    }
  }

  lemma EntryVerdict(w: Evidence, e: Entry, merged: Stamp, seen: map<int, Observed>)
    ensures Reports(EntryFindings(w, e, merged, seen), NOT_MATCHED)
      <==> !(e.number in seen && EndedAsDeclared(e, merged, seen[e.number]))
  {
    var fs := EntryFindings(w, e, merged, seen);
    if e.number !in seen {
      assert fs[0].code == SourceUnknown;
    } else {
      var o := seen[e.number];
      var times, reopens, state := TimeFindings(e, merged, o), ReopenFindings(w, e, o), StateFinding(w, e, o);
      assert fs == times + reopens + [state];
      assert times != [] ==> times[0] in fs;
      assert reopens != [] ==> reopens[0] in fs;
      assert state in fs;
    }
  }

  /** Nothing but matches is reported exactly when the collection was complete and every declared
      issue was observed to end as declared. */
  lemma PostMergeExact(w: Evidence, contract: seq<Entry>, c: Collection)
    ensures !Reports(PostFindings(w, contract, c), NOT_MATCHED) <==> c.complete && AllEnded(contract, c)
  {
    var seen := Normalized(c.states);
    var head := HeadFindings(c);
    assert !c.complete ==> head[0] in head;
    ReportsConcat(head, AllEntryFindings(w, contract, c.mergedAt, seen), NOT_MATCHED);
    ReportsEntries(w, contract, c.mergedAt, seen, NOT_MATCHED);
    forall e ensures Reports(EntryFindings(w, e, c.mergedAt, seen), NOT_MATCHED)
      <==> !(e.number in seen && EndedAsDeclared(e, c.mergedAt, seen[e.number])) {
      EntryVerdict(w, e, c.mergedAt, seen);
    }
  }

  // ---- From the service's answers to the verdict ----

  lemma {:induction false} AnswersNormalized(contract: seq<Entry>, answer: int -> Option<Observed>)
    ensures forall n :: n in Normalized(Answers(contract, answer)) <==> n in Numbers(contract) && answer(n).Some?
    ensures forall n | n in Normalized(Answers(contract, answer)) ::
      Some(Normalized(Answers(contract, answer))[n]) == answer(n)
  {
    if contract != [] {
      var front, last := contract[..|contract| - 1], contract[|contract| - 1];
      assert Numbers(contract) == Numbers(front) + [last.number];
      AnswersNormalized(front, answer);
      var shorter, longer := Answers(front, answer), Answers(contract, answer);
      if answer(last.number).Some? {
        assert longer[..|longer| - 1] == shorter;
      } else {
        assert longer == shorter;
      }
    }
  }

  /** The whole post-merge check, over any answers: it accepts what it collected, and reports only
      matches exactly when every declared issue answered and ended as declared. */
  lemma CollectedVerdict(w: Evidence, contract: seq<Entry>, answer: int -> Option<Observed>, mergedAt: Stamp)
    requires forall e | e in contract :: e.number > 0
    ensures OnlyDeclared(contract, Answers(contract, answer))
    ensures var c := Collection(true, AllAnswered(contract, answer), mergedAt, Answers(contract, answer));
      !Reports(PostFindings(w, contract, c), NOT_MATCHED) <==>
      forall e | e in contract :: answer(e.number).Some? && EndedAsDeclared(e, mergedAt, answer(e.number).value)
  {
    var c := Collection(true, AllAnswered(contract, answer), mergedAt, Answers(contract, answer));
    AnswersDeclared(contract, answer);
    AnswersNormalized(contract, answer);
    PostMergeExact(w, contract, c);
    forall e | e in contract ensures e.number in Normalized(c.states) <==> answer(e.number).Some? {
      NumberOf(contract, e);
    }
  }

  lemma {:induction false} AnswersDeclared(contract: seq<Entry>, answer: int -> Option<Observed>)
    requires forall e | e in contract :: e.number > 0
    ensures OnlyDeclared(contract, Answers(contract, answer))
  {
    if contract != [] {
      var front, last := contract[..|contract| - 1], contract[|contract| - 1];
      assert Numbers(contract) == Numbers(front) + [last.number];
      AnswersDeclared(front, answer);
      assert last in contract;
    }
  }

  // ---- One outcome per declared issue ----

  lemma EntryOwn(w: Evidence, m: Entry, merged: Stamp, seen: map<int, Observed>)
    ensures forall f | f in EntryFindings(w, m, merged, seen) :: f.issue == Some(m.number)
  {
  }

  lemma OutcomeLast(w: Evidence, e: Entry, merged: Stamp, seen: map<int, Observed>)
    returns (front: seq<Finding>, last: Finding)
    ensures EntryFindings(w, e, merged, seen) == front + [last]
    ensures forall f | f in front :: f.code !in OUTCOMES
    ensures last.issue == Some(e.number) && last.code in OUTCOMES
    ensures last == if e.number in seen then StateFinding(w, e, seen[e.number])
                    else Finding(SourceUnknown, Some(e.number), IssueStateSource)
  {
    if e.number in seen {
      front := TimeFindings(e, merged, seen[e.number]) + ReopenFindings(w, e, seen[e.number]);
      last := StateFinding(w, e, seen[e.number]);
    } else {
      front, last := [], Finding(SourceUnknown, Some(e.number), IssueStateSource);
    }
  }

  lemma AboutEntry(w: Evidence, m: Entry, merged: Stamp, seen: map<int, Observed>, n: int)
    ensures var about := About(EntryFindings(w, m, merged, seen), n, OUTCOMES);
      if m.number != n then about == []
      else if n !in seen then about == [Finding(SourceUnknown, Some(n), IssueStateSource)]
      else about == [StateFinding(w, m, seen[n])]
  {
    if m.number == n {
      var front, last := OutcomeLast(w, m, merged, seen);
      AboutLast(front, last, n, OUTCOMES);
    } else {
      EntryOwn(w, m, merged, seen);
      AboutNone(EntryFindings(w, m, merged, seen), n, OUTCOMES);
    }
  }

  lemma {:induction false} AboutEntries(
      w: Evidence, contract: seq<Entry>, merged: Stamp, seen: map<int, Observed>, e: Entry)
    requires Distinctly(contract) && e in contract
    ensures About(AllEntryFindings(w, contract, merged, seen), e.number, OUTCOMES)
         == About(EntryFindings(w, e, merged, seen), e.number, OUTCOMES)
  {
    var front, last := contract[..|contract| - 1], contract[|contract| - 1];
    assert contract == front + [last];
    assert Numbers(contract) == Numbers(front) + [last.number];
    AboutConcat(AllEntryFindings(w, front, merged, seen), EntryFindings(w, last, merged, seen), e.number, OUTCOMES);
    AboutEntry(w, last, merged, seen, e.number);
    if e == last {
      assert e.number !in Numbers(front);
      AboutAbsent(w, front, merged, seen, e.number);
    } else {
      NumberOf(front, e);
      AboutEntries(w, front, merged, seen, e);
    }
  }

  lemma {:induction false} AboutAbsent(
      w: Evidence, contract: seq<Entry>, merged: Stamp, seen: map<int, Observed>, n: int)
    requires n !in Numbers(contract)
    ensures About(AllEntryFindings(w, contract, merged, seen), n, OUTCOMES) == []
  {
    if contract != [] {
      var front, last := contract[..|contract| - 1], contract[|contract| - 1];
      assert Numbers(contract) == Numbers(front) + [last.number];
      AboutConcat(AllEntryFindings(w, front, merged, seen), EntryFindings(w, last, merged, seen), n, OUTCOMES);
      AboutEntry(w, last, merged, seen, n);
      AboutAbsent(w, front, merged, seen, n);
    }
  }

  lemma AboutPost(w: Evidence, contract: seq<Entry>, c: Collection, e: Entry)
    requires Distinctly(contract) && e in contract
    ensures About(PostFindings(w, contract, c), e.number, OUTCOMES)
         == About(EntryFindings(w, e, c.mergedAt, Normalized(c.states)), e.number, OUTCOMES)
  {
    var head, rest := HeadFindings(c), AllEntryFindings(w, contract, c.mergedAt, Normalized(c.states));
    AboutNone(head, e.number, OUTCOMES);
    AboutConcat(head, rest, e.number, OUTCOMES);
    AboutEntries(w, contract, c.mergedAt, Normalized(c.states), e);
    assert [] + About(rest, e.number, OUTCOMES) == About(rest, e.number, OUTCOMES);
  }

  /** The outcome code of an observed issue, by what it was declared to do and did. */
  ghost predicate OutcomeExact(e: Entry, o: Observed, code: Code) {
    var state := StateOf(o);
    && (code == StateMatched <==> state == e.postState && (e.postReason.Some? ==> o.reason == e.postReason))
    && (code == ReasonMismatch <==> state == e.postState && e.postReason.Some? && o.reason != e.postReason)
    && (code == UnauthorizedClosure <==> state == "closed" && e.postState != "closed" && !e.closureAuthorized)
    && (code == ExpectedClosureMissing <==> state != "closed" && e.postState == "closed")
  }

  lemma StateOutcome(w: Evidence, e: Entry, o: Observed)
    ensures OutcomeExact(e, o, StateFinding(w, e, o).code)
  {
  }

  /** The one outcome of an entry, and which it is. */
  ghost predicate OutcomeReported(e: Entry, seen: map<int, Observed>, outcomes: seq<Finding>) {
    && |outcomes| == 1
    && (e.number !in seen ==> outcomes[0].code == SourceUnknown)
    && (e.number in seen ==> OutcomeExact(e, seen[e.number], outcomes[0].code))
  }

  lemma EntryOutcome(w: Evidence, e: Entry, merged: Stamp, seen: map<int, Observed>)
    ensures OutcomeReported(e, seen, About(EntryFindings(w, e, merged, seen), e.number, OUTCOMES))
  {
    AboutEntry(w, e, merged, seen, e.number);
    if e.number in seen { StateOutcome(w, e, seen[e.number]); }
  }

  /** Every declared issue gets exactly one outcome, and it is the one its declaration and its
      observed state call for: in particular an unauthorized closure exactly when the issue closed
      although it was neither expected nor authorized to. */
  lemma OneOutcome(w: Evidence, contract: seq<Entry>, c: Collection, e: Entry)
    requires Distinctly(contract) && e in contract
    ensures OutcomeReported(e, Normalized(c.states), About(PostFindings(w, contract, c), e.number, OUTCOMES))
  {
    AboutPost(w, contract, c, e);
    EntryOutcome(w, e, c.mergedAt, Normalized(c.states));
  }

  lemma SortedOutcomes(w: Evidence, contract: seq<Entry>, c: Collection)
    requires Distinctly(contract)
    ensures forall e | e in contract ::
      OutcomeReported(e, Normalized(c.states), About(SortFindings(PostFindings(w, contract, c)), e.number, OUTCOMES))
  {
    forall e | e in contract
      ensures OutcomeReported(
        e, Normalized(c.states), About(SortFindings(PostFindings(w, contract, c)), e.number, OUTCOMES))
    {
      OneOutcome(w, contract, c, e);
      SortedAbout(PostFindings(w, contract, c), e.number, OUTCOMES);
    }
  }
}
