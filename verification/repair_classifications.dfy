/** What the record of a finished repair tells about the run: its outcome before the loop and
    the classifications it collected. */
module RepairClassifications {
  import opened Options
  import opened PullRequests
  import opened Repair
  import opened RepairProperties
  import opened Text

  // ---- Outcomes before the loop ----

  /** The first read matched every precondition. */
  ghost predicate FirstMatched(setup: Setup, request: Request, remote: Remote) {
    var first := remote.fetch(0, request.reference);
    && BodyHash(setup.sha, request.proposal) == request.pre.candidateHash
    && first.Fetched? && Mismatches(setup, first.pr, request.pre, true) == []
  }

  ghost predicate AlreadyThere(request: Request, pr: PullRequest) {
    NormalizeBody(pr.body) == NormalizeBody(request.proposal)
  }

  /** The candidate was not validated, or it was and differs from the live body unconfirmed. */
  ghost predicate RaisesEarly(setup: Setup, request: Request, pr: PullRequest) {
    || LiveStateFor(pr, request.live, request.proposal).Stale?
    || (Validated(setup, request, pr) && !AlreadyThere(request, pr) && !request.confirmed)
  }

  /** The second read is asked for, and its REST half fails. */
  ghost predicate SecondReadFails(setup: Setup, request: Request, remote: Remote, pr: PullRequest) {
    && Validated(setup, request, pr) && !AlreadyThere(request, pr) && request.confirmed
    && remote.fetch(1, ByNumber(pr.number)).Unusable?
  }

  /** How `FromFirstRead` ended without a PATCH. */
  ghost predicate FirstReadEnds(setup: Setup, request: Request, remote: Remote, pr: PullRequest, e: Ending) {
    && (e.attempt.outcome == Some(NoMutationAlreadyConverged)
        <==> Validated(setup, request, pr) && AlreadyThere(request, pr))
    && (e.exit == Raised(ProposalValidation) <==> RaisesEarly(setup, request, pr))
    && (e.attempt.outcome == Some(ObservationApiFailed) <==> SecondReadFails(setup, request, remote, pr))
  }

  lemma SecondReadEnds(setup: Setup, request: Request, remote: Remote, pr: PullRequest, a: Attempt)
    requires a.outcome == None && PrIdentityChanged !in a.classifications
    requires var second := remote.fetch(1, ByNumber(pr.number));
      !(second.Fetched? && !remote.graph(0).Interrupt? && Mismatches(setup, second.pr, request.pre, true) == [])
    ensures var e := FromSecondRead(setup, request, remote, pr.number, a);
      && e.attempt.outcome != Some(NoMutationAlreadyConverged) && e.exit != Raised(ProposalValidation)
      && (e.attempt.outcome == Some(ObservationApiFailed) <==> remote.fetch(1, ByNumber(pr.number)).Unusable?)
  {
    var second := remote.fetch(1, ByNumber(pr.number));
    LookFacts(setup, request.pre, request.proposal, second, remote.graph(0), PrePatch, a);
    if second.Fetched? && !remote.graph(0).Interrupt? {
      LookRecords(setup, request.pre, request.proposal, second, remote.graph(0), PrePatch, a);
    }
  }

  lemma FirstReadExact(setup: Setup, request: Request, remote: Remote, pr: PullRequest, a: Attempt)
    requires Injective(setup.sha) && LineFree(pr.changedFiles)
    requires a.outcome == None && PrIdentityChanged !in a.classifications
    requires Mismatches(setup, pr, request.pre, true) == []
    requires var second := remote.fetch(1, ByNumber(pr.number));
      Validated(setup, request, pr) && !AlreadyThere(request, pr) && request.confirmed ==>
      !(second.Fetched? && !remote.graph(0).Interrupt? && Mismatches(setup, second.pr, request.pre, true) == [])
    ensures FirstReadEnds(setup, request, remote, pr, FromFirstRead(setup, request, remote, pr, a))
  {
    if Validated(setup, request, pr) {
      if AlreadyThere(request, pr) {
        MatchesNothingElse(setup, pr, request.pre);
        ValidationTransfers(setup, request, pr, pr);
      } else if request.confirmed {
        SecondReadEnds(setup, request, remote, pr, a);
        assert FromFirstRead(setup, request, remote, pr, a) == FromSecondRead(setup, request, remote, pr.number, a);
      }
    }
  }

  /** A run that withholds the PATCH after a matching first read: already converged exactly when
      the live body is the valid candidate; an error exactly when the live state is stale or the
      confirmation is missing; an observation failure exactly when the read before the PATCH
      failed. */
  lemma WithheldExact(setup: Setup, request: Request, remote: Remote)
    requires Injective(setup.sha) && Genuine(setup, request, remote)
    requires FirstMatched(setup, request, remote) && !PatchAuthorized(setup, request, remote)
    ensures FirstReadEnds(setup, request, remote, remote.fetch(0, request.reference).pr, Run(setup, request, remote))
  {
    var pr := remote.fetch(0, request.reference).pr;
    var seen := NEW_ATTEMPT.Record(
      Observe(setup, PreMutationRest, Some(pr.body), request.proposal, Some(200), None, Some(true)));
    GenuineScopes(setup, request, remote);
    FirstReadExact(setup, request, remote, pr, seen);
    assert Run(setup, request, remote) == FromFirstRead(setup, request, remote, pr, seen);
  }

  /** The error a fetch ends in; `None` when its outcome is dealt with. */
  function FetchRaises(first: Fetch): Option<Error> {
    match first
    case WrongRepository => Some(Repositories)
    case BadReference => Some(References)
    case Interrupted => Some(Other)
    case _ => None
  }

  /** A run whose first read did not match sends nothing.  It raises exactly the error of a first
      fetch that resolved to another repository, to no pull request, or was interrupted; otherwise
      it returns a failed precondition, with a final state that says which. */
  lemma UnmatchedExact(setup: Setup, request: Request, remote: Remote)
    requires !FirstMatched(setup, request, remote)
    ensures var e, first := Run(setup, request, remote), remote.fetch(0, request.reference);
      var hashed := BodyHash(setup.sha, request.proposal) == request.pre.candidateHash;
      && e.sent == [] && e.clock.fetches == (if hashed then 1 else 0)
      && (forall error :: e.exit == Raised(error) <==> hashed && FetchRaises(first) == Some(error))
      && e.attempt.outcome == (if e.exit == Returned then Some(NoMutationPreconditionFailed) else None)
      && (e.attempt.finalState == CandidateHashMismatch <==> !hashed)
      && (e.attempt.finalState == InitialObservationFailed <==> hashed && (first.NotOpen? || first.Unusable?))
      && (e.attempt.finalState.Changed? <==> hashed && first.Fetched?)
      && (e.attempt.finalState.Changed? ==>
            e.attempt.finalState.facts == Mismatches(setup, first.pr, request.pre, true) != [])
  {
    var first := remote.fetch(0, request.reference);
    if BodyHash(setup.sha, request.proposal) == request.pre.candidateHash {
      match first
      case Fetched(pr) => assert Mismatches(setup, pr, request.pre, true) != [];
      case _ =>
    }
  }

  lemma UnansweredExact(setup: Setup, request: Request, remote: Remote, number: int, a: Attempt)
    requires a.outcome == None && !ReachesLoop(remote)
    ensures var r := AfterPatch(setup, request, remote, number, a);
      && (r.attempt.outcome == Some(MutationApiFailed) <==> remote.patch.PatchApiFailed?)
      && (r.attempt.outcome == Some(MutationResponseInvalid)
          <==> remote.patch.PatchMalformed? || remote.patch.PatchAnswered?)
  {
  }

  lemma LoopOutcomes(e: Episode, n: nat, r: Settled)
    requires LoopEnds(e, n, 1, r) && r.exit == Returned
    ensures r.attempt.outcome != Some(MutationApiFailed) && r.attempt.outcome != Some(MutationResponseInvalid)
  {
  }

  /** The mutation outcomes are returned exactly for the replies they name. */
  lemma PatchReplyExact(setup: Setup, request: Request, remote: Remote)
    requires Admissible(request) && Injective(setup.sha) && Genuine(setup, request, remote)
    requires PatchAuthorized(setup, request, remote)
    ensures var e := Run(setup, request, remote);
      && (e.attempt.outcome == Some(MutationApiFailed) <==> remote.patch.PatchApiFailed?)
      && (e.attempt.outcome == Some(MutationResponseInvalid)
          <==> remote.patch.PatchMalformed? || (remote.patch.PatchAnswered? && !ReachesLoop(remote)))
  {
    var a := RunSplits(setup, request, remote);
    var e := Run(setup, request, remote);
    if ReachesLoop(remote) {
      GenuineScopes(setup, request, remote);
      CommittedLoops(setup, request, remote, e, a);
      AgreementValid(setup, request, remote, RoundsRead(e) - 1);
      SettledValid(EpisodeOf(setup, request, remote), RoundsRead(e), Settled(e.attempt, e.exit, e.clock));
      LoopOutcomes(EpisodeOf(setup, request, remote), RoundsRead(e), Settled(e.attempt, e.exit, e.clock));
    } else {
      UnansweredExact(setup, request, remote, remote.fetch(0, request.reference).pr.number, a);
    }
  }

  // ---- Classifications of the loop ----

  /** A clean round in which a readable GraphQL body differed from the REST body. */
  ghost predicate Disagreed(e: Episode, i: nat) {
    e.Clean(i) && e.GraphAt(i).Reply? && NormalizeBody(e.GraphAt(i).value) != e.BodyAt(i)
  }

  /** A round whose GraphQL query failed. */
  ghost predicate Unreadable(e: Episode, i: nat) { e.FetchAt(i).Fetched? && e.GraphAt(i).ApiError? }

  ghost predicate SomeDisagreed(e: Episode, n: nat) { exists i: nat :: i < n && Disagreed(e, i) }

  ghost predicate SomeUnreadable(e: Episode, n: nat) { exists i: nat :: i < n && Unreadable(e, i) }

  /** The record carries the two classifications exactly for what the first `n` rounds showed;
      `before` tells whether GraphQL had failed before the PATCH. */
  ghost predicate Noted(e: Episode, n: nat, before: bool, a: Attempt) {
    && (TransientRepresentationDisagreement in a.classifications <==> SomeDisagreed(e, n))
    && (GraphqlUnavailable in a.classifications <==> before || SomeUnreadable(e, n))
  }

  lemma OneMoreDisagreed(e: Episode, i: nat)
    ensures SomeDisagreed(e, i + 1) <==> SomeDisagreed(e, i) || Disagreed(e, i)
  {
    if SomeDisagreed(e, i + 1) {
      var k: nat :| k < i + 1 && Disagreed(e, k);
      assert k == i || k < i;
    }
  }

  lemma OneMoreUnreadable(e: Episode, i: nat)
    ensures SomeUnreadable(e, i + 1) <==> SomeUnreadable(e, i) || Unreadable(e, i)
  {
    if SomeUnreadable(e, i + 1) {
      var k: nat :| k < i + 1 && Unreadable(e, k);
      assert k == i || k < i;
    }
  }

  /** `b` is `a` with what round `i` adds. */
  ghost predicate Adds(e: Episode, i: nat, a: Attempt, b: Attempt) {
    && (TransientRepresentationDisagreement in b.classifications
        <==> TransientRepresentationDisagreement in a.classifications || Disagreed(e, i))
    && (GraphqlUnavailable in b.classifications <==> GraphqlUnavailable in a.classifications || Unreadable(e, i))
  }

  lemma AddsNotes(e: Episode, i: nat, before: bool, a: Attempt, b: Attempt)
    requires Noted(e, i, before, a) && Adds(e, i, a, b)
    ensures Noted(e, i + 1, before, b)
  {
    OneMoreDisagreed(e, i);
    OneMoreUnreadable(e, i);
  }

  lemma LookNotes(setup: Setup, pre: Preconditions, candidate: string, fetch: Fetch, graph: Api<string>, tag: Tag,
                  a: Attempt)
    ensures var b := LookLive(setup, pre, candidate, fetch, graph, tag, a).attempt;
      && (TransientRepresentationDisagreement in b.classifications
          <==> TransientRepresentationDisagreement in a.classifications)
      && (GraphqlUnavailable in b.classifications
          <==> GraphqlUnavailable in a.classifications || (fetch.Fetched? && graph.ApiError?))
  {
  }

  lemma FinishNotes(a: Attempt, o: Outcome, s: FinalState)
    requires o != TransientRepresentationDisagreement && o != GraphqlUnavailable
    ensures TransientRepresentationDisagreement in a.Finish(o, s).classifications
      <==> TransientRepresentationDisagreement in a.classifications
    ensures GraphqlUnavailable in a.Finish(o, s).classifications <==> GraphqlUnavailable in a.classifications
  {
  }

  /** `b` has the two classifications of `a`, and the first also if `add`. */
  ghost predicate SameNotes(a: Attempt, b: Attempt, add: bool) {
    && (TransientRepresentationDisagreement in b.classifications
        <==> TransientRepresentationDisagreement in a.classifications || add)
    && (GraphqlUnavailable in b.classifications <==> GraphqlUnavailable in a.classifications)
  }

  lemma CompleteNotes(setup: Setup, request: Request, pr: PullRequest, a: Attempt, delayed: bool)
    ensures var b := Complete(setup, request, pr, a, delayed);
      b.Some? ==> SameNotes(a, b.value, false)
  {
  }

  lemma ClassifyNotes(a: Attempt, add: bool)
    ensures SameNotes(a, if add then a.Classify(TransientRepresentationDisagreement) else a, add)
  {
  }

  /** What judging a clean read adds to the record. */
  lemma JudgeNotes(e: Episode, i: nat, a: Attempt, c: Clock, last: Option<string>, agree: bool)
    requires e.Clean(i)
    requires agree <==> ReadRound(e.setup, e.request.proposal, e.FetchAt(i).pr.body,
                                  Latest(a.observations, Graphql(RoundTag(i)))).agree
    ensures SameNotes(a, Judge(e.setup, e.request, e.FetchAt(i).pr, e.remote.nap(i), a, c, i, last).attempt, !agree)
  {
    var b := if agree then a else a.Classify(TransientRepresentationDisagreement);
    ClassifyNotes(a, !agree);
    CompleteNotes(e.setup, e.request, e.FetchAt(i).pr, a, i > 0);
    FinishNotes(b, UnexplainedNoncandidateBodyChange, NoncandidateBodyChanged);
    FinishNotes(b, ObservationApiFailed, StabilizationInterrupted);
    JudgeForms(e, i, a, c, last, agree, b);
  }

  /** The records a clean read can end in. */
  lemma JudgeForms(e: Episode, i: nat, a: Attempt, c: Clock, last: Option<string>, agree: bool, b: Attempt)
    requires e.Clean(i)
    requires agree <==> ReadRound(e.setup, e.request.proposal, e.FetchAt(i).pr.body,
                                  Latest(a.observations, Graphql(RoundTag(i)))).agree
    requires b == if agree then a else a.Classify(TransientRepresentationDisagreement)
    ensures var end := Judge(e.setup, e.request, e.FetchAt(i).pr, e.remote.nap(i), a, c, i, last).attempt;
      || end == b
      || end == b.Finish(UnexplainedNoncandidateBodyChange, NoncandidateBodyChanged)
      || end == b.Finish(ObservationApiFailed, StabilizationInterrupted)
      || (agree && Some(end) == Complete(e.setup, e.request, e.FetchAt(i).pr, a, i > 0))
  {
  }

  lemma AgreeFlag(e: Episode, i: nat, a: Attempt)
    requires Injective(e.setup.sha) && e.Clean(i)
    ensures var look := LookLive(e.setup, e.request.pre, e.request.proposal, e.FetchAt(i), e.GraphAt(i),
                                 RoundTag(i), a);
      var reading := ReadRound(e.setup, e.request.proposal, e.FetchAt(i).pr.body,
                               Latest(look.attempt.observations, Graphql(RoundTag(i))));
      look.seen == Saw(e.FetchAt(i).pr) && (reading.agree <==> !Disagreed(e, i))
  {
    LookRecords(e.setup, e.request.pre, e.request.proposal, e.FetchAt(i), e.GraphAt(i), RoundTag(i), a);
  }

  lemma CleanNotes(e: Episode, i: nat, a: Attempt, last: Option<string>)
    requires Injective(e.setup.sha) && e.Clean(i)
    ensures Adds(e, i, a, e.RoundAt(i, a, last).attempt)
  {
    var look := LookLive(e.setup, e.request.pre, e.request.proposal, e.FetchAt(i), e.GraphAt(i), RoundTag(i), a);
    AgreeFlag(e, i, a);
    LookNotes(e.setup, e.request.pre, e.request.proposal, e.FetchAt(i), e.GraphAt(i), RoundTag(i), a);
    JudgeNotes(e, i, look.attempt, AfterLook(e.ClockAt(i), e.FetchAt(i)), last, !Disagreed(e, i));
    assert e.RoundAt(i, a, last)
        == Judge(e.setup, e.request, e.FetchAt(i).pr, e.remote.nap(i), look.attempt,
                 AfterLook(e.ClockAt(i), e.FetchAt(i)), i, last);
  }

  /** How an unclean round finishes. */
  lemma UncleanForms(e: Episode, i: nat, a: Attempt, last: Option<string>, b: Attempt)
    returns (o: Outcome, s: FinalState)
    requires !e.Clean(i)
    requires b == LookLive(e.setup, e.request.pre, e.request.proposal, e.FetchAt(i), e.GraphAt(i),
                           RoundTag(i), a).attempt
    ensures o == PrIdentityChanged || o == ObservationApiFailed
    ensures e.RoundAt(i, a, last).attempt == b.Finish(o, s)
  {
    var fetch := e.FetchAt(i);
    if fetch.Fetched? && !e.GraphAt(i).Interrupt? {
      o, s := PrIdentityChanged, Changed(Mismatches(e.setup, fetch.pr, e.request.pre, false));
    } else if fetch.NotOpen? || fetch.Unusable? {
      if PrIdentityChanged in b.classifications {
        o, s := PrIdentityChanged, PostPatchIdentityChanged;
      } else {
        o, s := ObservationApiFailed, PostPatchObservationFailed;
      }
    } else {
      o, s := ObservationApiFailed, ObservationInterrupted;
    }
  }

  lemma UncleanNotes(e: Episode, i: nat, a: Attempt, last: Option<string>)
    requires !e.Clean(i)
    ensures Adds(e, i, a, e.RoundAt(i, a, last).attempt)
  {
    var b := LookLive(e.setup, e.request.pre, e.request.proposal, e.FetchAt(i), e.GraphAt(i), RoundTag(i), a).attempt;
    LookNotes(e.setup, e.request.pre, e.request.proposal, e.FetchAt(i), e.GraphAt(i), RoundTag(i), a);
    var o, s := UncleanForms(e, i, a, last, b);
    FinishNotes(b, o, s);
  }

  lemma LoopNotes(e: Episode, a: Attempt, before: bool) returns (n: nat)
    requires Injective(e.setup.sha) && e.request.maxObservations >= 0
    requires PrIdentityChanged !in a.classifications && Noted(e, 0, before, a)
    ensures var r := Stabilize(RoundsOf(e.setup, e.request, e.remote, e.number), e.request.maxObservations,
                               a, RoundClock(0), 0, None);
      r.clock.fetches == n + 2 && Noted(e, n, before, r.attempt)
  {
    var rounds, max := RoundsOf(e.setup, e.request, e.remote, e.number), e.request.maxObservations;
    var clock := (i: nat) => e.ClockAt(i);
    var inv := (i: nat, b: Attempt, last: Option<string>) =>
      PrIdentityChanged !in b.classifications && Noted(e, i, before, b);
    var post := (i: nat, r: Settled) => r.clock.fetches == i + 2 && Noted(e, i, before, r.attempt);
    forall i: nat, b, last | i <= max && inv(i, b, last)
      ensures StepKeeps(rounds(i, b, clock(i), last), i, clock, inv, post)
    {
      RoundNotes(e, i, b, last, before);
    }
    forall i: nat, b, last | i == max + 1 && inv(i, b, last) ensures post(i, Exhausted(b, clock(i))) {
      FinishNotes(b, StablePersistenceMismatch, StabilizationExhausted);
    }
    n := LoopInduction(rounds, max, clock, inv, post, 0, a, None);
  }

  lemma RoundNotes(e: Episode, i: nat, a: Attempt, last: Option<string>, before: bool)
    requires Injective(e.setup.sha) && i <= e.request.maxObservations
    requires PrIdentityChanged !in a.classifications && Noted(e, i, before, a)
    ensures var step := RoundsOf(e.setup, e.request, e.remote, e.number)(i, a, e.ClockAt(i), last);
      && Noted(e, i + 1, before, step.attempt)
      && step.clock.fetches == i + 3
      && (step.Continue? ==> step.clock == e.ClockAt(i + 1) && PrIdentityChanged !in step.attempt.classifications)
  {
    RoundsAt(e.setup, e.request, e.remote, e.number, i, a, e.ClockAt(i), last);
    RoundVerdict(e, i, a, last);
    if e.Clean(i) { CleanNotes(e, i, a, last); } else { UncleanNotes(e, i, a, last); }
    AddsNotes(e, i, before, a, e.RoundAt(i, a, last).attempt);
    ContinuesClean(e, i, a, last, e.RoundAt(i, a, last));
  }

  lemma ContinuesClean(e: Episode, i: nat, a: Attempt, last: Option<string>, step: Step)
    requires RoundEnds(e, i, a, last, step)
    ensures step.Continue? ==> step.clock == e.ClockAt(i + 1) && PrIdentityChanged !in step.attempt.classifications
  {
  }

  /** The record before the loop. */
  ghost predicate Entered(remote: Remote, a: Attempt) {
    && PrIdentityChanged !in a.classifications && TransientRepresentationDisagreement !in a.classifications
    && (GraphqlUnavailable in a.classifications <==> remote.graph(0).ApiError?)
  }

  lemma SecondReadEnters(setup: Setup, request: Request, remote: Remote, number: int, a: Attempt) returns (b: Attempt)
    requires a.classifications == []
    requires var second := remote.fetch(1, ByNumber(number));
      second.Fetched? && !remote.graph(0).Interrupt? && Mismatches(setup, second.pr, request.pre, true) == []
    ensures Entered(remote, b)
    ensures var e, r := FromSecondRead(setup, request, remote, number, a),
                        AfterPatch(setup, request, remote, number, b);
      e.attempt == r.attempt && e.clock == r.clock
  {
    var second := remote.fetch(1, ByNumber(number));
    var look := LookLive(setup, request.pre, request.proposal, second, remote.graph(0), PrePatch, a);
    LookFacts(setup, request.pre, request.proposal, second, remote.graph(0), PrePatch, a);
    LookRecords(setup, request.pre, request.proposal, second, remote.graph(0), PrePatch, a);
    LookNotes(setup, request.pre, request.proposal, second, remote.graph(0), PrePatch, a);
    b := Budgeted(setup, request, look.attempt);
    assert FromSecondRead(setup, request, remote, number, a)
        == Commit(setup, request, remote, number, second.pr, look.attempt);
  }

  lemma RunEnters(setup: Setup, request: Request, remote: Remote) returns (b: Attempt)
    requires PatchAuthorized(setup, request, remote)
    ensures Entered(remote, b)
    ensures var e, r := Run(setup, request, remote),
                        AfterPatch(setup, request, remote, remote.fetch(0, request.reference).pr.number, b);
      e.attempt == r.attempt && e.clock == r.clock
  {
    var pr := remote.fetch(0, request.reference).pr;
    var seen := NEW_ATTEMPT.Record(
      Observe(setup, PreMutationRest, Some(pr.body), request.proposal, Some(200), None, Some(true)));
    b := SecondReadEnters(setup, request, remote, pr.number, seen);
    assert Run(setup, request, remote) == FromFirstRead(setup, request, remote, pr, seen);
    assert FromFirstRead(setup, request, remote, pr, seen) == FromSecondRead(setup, request, remote, pr.number, seen);
  }

  /** The record of a run that reached the loop reports a transient disagreement exactly when in
      some clean round a readable GraphQL body differed from the REST body, and an unavailable
      GraphQL exactly when some query, before the PATCH or after, failed. */
  lemma ClassificationsExact(setup: Setup, request: Request, remote: Remote)
    requires Admissible(request) && Injective(setup.sha)
    requires PatchAuthorized(setup, request, remote) && ReachesLoop(remote)
    ensures var e := Run(setup, request, remote);
      RoundsRead(e) >= 0
      && Noted(EpisodeOf(setup, request, remote), RoundsRead(e), remote.graph(0).ApiError?, e.attempt)
  {
    var ep := EpisodeOf(setup, request, remote);
    var b := RunEnters(setup, request, remote);
    var c := Answered(setup, request, remote, b);
    var n := LoopNotes(ep, c, remote.graph(0).ApiError?);
    assert AfterPatch(setup, request, remote, ep.number, b)
        == Stabilize(RoundsOf(setup, request, remote, ep.number), request.maxObservations, c, RoundClock(0), 0, None);
  }
}
