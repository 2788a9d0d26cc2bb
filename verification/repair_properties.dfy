/** What every run of the guarded repair keeps, against every remote. */
module RepairProperties {
  import opened Json
  import opened Options
  import opened PullRequests
  import opened Repair
  import opened Text

  // ---- The stabilization loop, read from the outside ----

  /** One stay in the stabilization loop. */
  datatype Episode = Episode(setup: Setup, request: Request, remote: Remote, number: int)
  {
    ghost function Candidate(): string { NormalizeBody(request.proposal) }

    ghost function FetchAt(i: nat): Fetch { remote.fetch(i + 2, ByNumber(number)) }

    ghost function GraphAt(i: nat): Api<string> { remote.graph(i + 1) }

    /** Round `i` read a pull request with the bound identity and scope. */
    ghost predicate Clean(i: nat) {
      && FetchAt(i).Fetched? && !GraphAt(i).Interrupt?
      && Mismatches(setup, FetchAt(i).pr, request.pre, false) == []
    }

    ghost function BodyAt(i: nat): string {
      if FetchAt(i).Fetched? then NormalizeBody(FetchAt(i).pr.body) else []
    }

    ghost function Bodies(n: nat): seq<string> { seq(n, i requires 0 <= i => BodyAt(i)) }

    /** REST shows the candidate, and so does GraphQL if it is readable. */
    ghost predicate Agrees(i: nat) {
      && BodyAt(i) == Candidate()
      && (GraphAt(i).Reply? ==> NormalizeBody(GraphAt(i).value) == Candidate())
    }

    ghost function ClockAt(i: nat): Clock {
      if i <= request.maxObservations then RoundClock(i)
      else Clock(i + 2, i + 1, 1, if i == 0 then 0 else i - 1)
    }

    ghost function RoundAt(i: nat, a: Attempt, last: Option<string>): Step {
      Round(setup, request, FetchAt(i), GraphAt(i), remote.nap(i), a, ClockAt(i), i, last)
    }

  }

  /** Every change of body along `bodies` is a change to the candidate. */
  ghost predicate OnlyTowardsCandidate(bodies: seq<string>, candidate: string) {
    forall i | 0 < i < |bodies| :: bodies[i] == bodies[i - 1] || bodies[i] == candidate
  }

  /** A constant non-candidate prefix of length `p`, then the candidate throughout. */
  ghost predicate PrefixThenCandidate(bodies: seq<string>, candidate: string, p: nat) {
    && p <= |bodies|
    && (forall i | 0 <= i < p :: bodies[i] == bodies[0] && bodies[i] != candidate)
    && (forall i | p <= i < |bodies| :: bodies[i] == candidate)
  }

  /** The step-wise and the global form of the loop's shape invariant agree. */
  lemma {:induction false} ShapeForms(bodies: seq<string>, candidate: string)
    ensures OnlyTowardsCandidate(bodies, candidate)
      <==> exists p :: PrefixThenCandidate(bodies, candidate, p)
  {
    if OnlyTowardsCandidate(bodies, candidate) {
      var p := Turn(bodies, candidate);
      assert PrefixThenCandidate(bodies, candidate, p);
    }
  }

  lemma {:induction false} Turn(bodies: seq<string>, candidate: string) returns (p: nat)
    requires OnlyTowardsCandidate(bodies, candidate)
    ensures PrefixThenCandidate(bodies, candidate, p)
  {
    if bodies == [] {
      p := 0;
    } else {
      var n := |bodies| - 1;
      var front := bodies[..n];
      p := Turn(front, candidate);
      if bodies[n] != candidate && n > 0 {
        assert bodies[n] == bodies[n - 1] == front[n - 1];
      }
      if p == n && bodies[n] != candidate {
        p := n + 1;
      }
    }
  }

  /** What a look leaves behind. */
  lemma LookFacts(setup: Setup, pre: Preconditions, candidate: string, fetch: Fetch,
                  graph: Api<string>, tag: Tag, a: Attempt)
    ensures var look := LookLive(setup, pre, candidate, fetch, graph, tag, a);
      && look.attempt.mutationCount == a.mutationCount && look.attempt.outcome == a.outcome
      && (look.seen.Saw? <==> fetch.Fetched? && !graph.Interrupt?)
      && (look.seen.NoView? <==> fetch.NotOpen? || fetch.Unusable?)
      && (PrIdentityChanged in look.attempt.classifications <==>
            (fetch.NotOpen? || PrIdentityChanged in a.classifications))
  {
  }

  /** After a successful look, the latest GraphQL observation is this round's. */
  lemma LookRecords(setup: Setup, pre: Preconditions, candidate: string, fetch: Fetch,
                    graph: Api<string>, tag: Tag, a: Attempt)
    requires fetch.Fetched? && !graph.Interrupt?
    ensures var look := LookLive(setup, pre, candidate, fetch, graph, tag, a);
      && look.seen == Saw(fetch.pr)
      && var latest := Latest(look.attempt.observations, Graphql(tag));
      && latest.Some?
      && (graph.Reply? ==>
            && latest.value.bodyHash == Some(BodyHash(setup.sha, graph.value))
            && latest.value.equalsCandidate == Some(NormalizeBody(graph.value) == NormalizeBody(candidate)))
      && (graph.ApiError? ==> latest.value.bodyHash == None)
  {
  }

  // ---- One round ----

  /** The convergence test the loop computes from hashes and flags is agreement. */
  lemma ReadingIsAgreement(e: Episode, i: nat, a: Attempt)
    requires e.Clean(i)
    ensures var look := LookLive(e.setup, e.request.pre, e.request.proposal, e.FetchAt(i), e.GraphAt(i),
                                 RoundTag(i), a);
      var reading := ReadRound(e.setup, e.request.proposal, e.FetchAt(i).pr.body,
                               Latest(look.attempt.observations, Graphql(RoundTag(i))));
      && (reading.restMatches <==> e.BodyAt(i) == e.Candidate())
      && (reading.restMatches && reading.graphMatches && reading.agree <==> e.Agrees(i))
  {
    LookRecords(e.setup, e.request.pre, e.request.proposal, e.FetchAt(i), e.GraphAt(i), RoundTag(i), a);
  }

  /** How round `i` ends, by what it read. */
  ghost predicate RoundEnds(e: Episode, i: nat, a: Attempt, last: Option<string>, step: Step) {
    if !e.Clean(i) then
      && step.Stop? && step.exit == Returned
      && step.attempt.outcome == Some(if Lost(e, i) then PrIdentityChanged else ObservationApiFailed)
    else if e.Agrees(i) then
      && step.Stop?
      && match Complete(e.setup, e.request, e.FetchAt(i).pr,
                        LookLive(e.setup, e.request.pre, e.request.proposal, e.FetchAt(i), e.GraphAt(i),
                                 RoundTag(i), a).attempt,
                        i > 0)
         case None => step.exit == Raised(ProposalValidation)
         case Some(b) => step.exit == Returned && step.attempt == b
    else if last.Some? && e.setup.sha(e.BodyAt(i)) != last.value && e.BodyAt(i) != e.Candidate() then
      step.Stop? && step.exit == Returned && step.attempt.outcome == Some(UnexplainedNoncandidateBodyChange)
    else if i < e.request.maxObservations && e.remote.nap(i) then
      && step.Stop? && step.exit == Returned && step.attempt.outcome == Some(ObservationApiFailed)
      && step.attempt.finalState == StabilizationInterrupted
    else
      && step.Continue? && step.hash == e.setup.sha(e.BodyAt(i)) && step.clock == e.ClockAt(i + 1)
      && PrIdentityChanged !in step.attempt.classifications
      && step.attempt.mutationCount == a.mutationCount
  }

  /** The pull request is no longer the one the repair was bound to. */
  ghost predicate Lost(e: Episode, i: nat) {
    || e.FetchAt(i).NotOpen?
    || (e.FetchAt(i).Fetched? && !e.GraphAt(i).Interrupt?)
  }

  ghost predicate RoundBounds(e: Episode, i: nat, a: Attempt, step: Step) {
    && step.attempt.mutationCount == a.mutationCount
    && step.clock.fetches == i + 3 && step.clock.patches == 1
    && step.clock.sleeps <= e.request.maxObservations
  }

  lemma CleanRound(e: Episode, i: nat, a: Attempt, last: Option<string>)
    requires i <= e.request.maxObservations && e.Clean(i)
    requires PrIdentityChanged !in a.classifications
    ensures RoundEnds(e, i, a, last, e.RoundAt(i, a, last))
    ensures RoundBounds(e, i, a, e.RoundAt(i, a, last))
  {
    var look := LookLive(e.setup, e.request.pre, e.request.proposal, e.FetchAt(i), e.GraphAt(i), RoundTag(i), a);
    LookFacts(e.setup, e.request.pre, e.request.proposal, e.FetchAt(i), e.GraphAt(i), RoundTag(i), a);
    LookRecords(e.setup, e.request.pre, e.request.proposal, e.FetchAt(i), e.GraphAt(i), RoundTag(i), a);
    ReadingIsAgreement(e, i, a);
    var nap := e.remote.nap(i);
    var after := AfterLook(e.ClockAt(i), e.FetchAt(i));
    assert e.RoundAt(i, a, last)
        == Judge(e.setup, e.request, e.FetchAt(i).pr, nap, look.attempt, after, i, last);
    JudgeEnds(e, i, a, last, look.attempt, e.RoundAt(i, a, last));
    JudgeBounded(e, i, a, last, look.attempt, e.RoundAt(i, a, last));
  }

  lemma JudgeEnds(e: Episode, i: nat, a: Attempt, last: Option<string>, seen: Attempt, step: Step)
    requires i <= e.request.maxObservations && e.Clean(i)
    requires PrIdentityChanged !in seen.classifications && seen.mutationCount == a.mutationCount
    requires seen == LookLive(e.setup, e.request.pre, e.request.proposal, e.FetchAt(i), e.GraphAt(i),
                              RoundTag(i), a).attempt
    requires var reading := ReadRound(e.setup, e.request.proposal, e.FetchAt(i).pr.body,
                                      Latest(seen.observations, Graphql(RoundTag(i))));
      && (reading.restMatches <==> e.BodyAt(i) == e.Candidate())
      && (reading.restMatches && reading.graphMatches && reading.agree <==> e.Agrees(i))
    requires step == Judge(e.setup, e.request, e.FetchAt(i).pr, e.remote.nap(i), seen,
                           AfterLook(e.ClockAt(i), e.FetchAt(i)), i, last)
    ensures RoundEnds(e, i, a, last, step)
  {
  }

  lemma JudgeBounded(e: Episode, i: nat, a: Attempt, last: Option<string>, seen: Attempt, step: Step)
    requires i <= e.request.maxObservations && e.Clean(i)
    requires PrIdentityChanged !in seen.classifications && seen.mutationCount == a.mutationCount
    requires seen == LookLive(e.setup, e.request.pre, e.request.proposal, e.FetchAt(i), e.GraphAt(i),
                              RoundTag(i), a).attempt
    requires var reading := ReadRound(e.setup, e.request.proposal, e.FetchAt(i).pr.body,
                                      Latest(seen.observations, Graphql(RoundTag(i))));
      && (reading.restMatches <==> e.BodyAt(i) == e.Candidate())
      && (reading.restMatches && reading.graphMatches && reading.agree <==> e.Agrees(i))
    requires step == Judge(e.setup, e.request, e.FetchAt(i).pr, e.remote.nap(i), seen,
                           AfterLook(e.ClockAt(i), e.FetchAt(i)), i, last)
    ensures RoundBounds(e, i, a, step)
  {
  }

  lemma UncleanRound(e: Episode, i: nat, a: Attempt, last: Option<string>)
    requires i <= e.request.maxObservations && !e.Clean(i)
    requires PrIdentityChanged !in a.classifications
    ensures RoundEnds(e, i, a, last, e.RoundAt(i, a, last))
    ensures RoundBounds(e, i, a, e.RoundAt(i, a, last))
  {
    LookFacts(e.setup, e.request.pre, e.request.proposal, e.FetchAt(i), e.GraphAt(i), RoundTag(i), a);
  }

  lemma RoundVerdict(e: Episode, i: nat, a: Attempt, last: Option<string>)
    requires i <= e.request.maxObservations
    requires PrIdentityChanged !in a.classifications
    ensures RoundEnds(e, i, a, last, e.RoundAt(i, a, last))
    ensures RoundBounds(e, i, a, e.RoundAt(i, a, last))
  {
    if e.Clean(i) { CleanRound(e, i, a, last); } else { UncleanRound(e, i, a, last); }
  }

  // ---- The whole loop ----

  /** The verdict of `_complete_convergence` on round `i`; `None` is the error it may raise. */
  ghost function Completion(e: Episode, i: nat): Option<Outcome>
    requires e.Clean(i)
  {
    var pr := e.FetchAt(i).pr;
    match LiveStateFor(pr, e.request.live, pr.body)
    case Stale => None
    case Live(live) =>
      if Violations(e.setup, pr.body, pr.changedFiles, live) != [] then Some(PostPersistenceValidationFailed)
      else if i > 0 then Some(DelayedConvergence) else Some(ImmediateConvergence)
  }

  /** The last of `n` rounds agreed, and validating its state raised. */
  ghost predicate LoopRaises(e: Episode, n: nat)
    requires 1 <= n <= e.request.maxObservations + 1
  {
    e.Clean(n - 1) && e.Agrees(n - 1) && Completion(e, n - 1).None?
  }

  ghost function LoopOutcome(e: Episode, n: nat): Outcome
    requires 1 <= n <= e.request.maxObservations + 1 && !LoopRaises(e, n)
  {
    if !e.Clean(n - 1) then (if Lost(e, n - 1) then PrIdentityChanged else ObservationApiFailed)
    else if e.Agrees(n - 1) then Completion(e, n - 1).value
    else if !OnlyTowardsCandidate(e.Bodies(n), e.Candidate()) then UnexplainedNoncandidateBodyChange
    else if n <= e.request.maxObservations then ObservationApiFailed
    else StablePersistenceMismatch
  }

  /** The loop read `n` rounds: every round but the last was clean, short of agreement and
      in shape, and the last one alone decides how the run ends. */
  ghost predicate LoopEnds(e: Episode, n: nat, count: nat, r: Settled) {
    && 1 <= n <= e.request.maxObservations + 1
    && r.clock.fetches == n + 2 && r.clock.patches == 1 && r.clock.sleeps <= e.request.maxObservations
    && r.attempt.mutationCount == count
    && (forall i | 0 <= i < n - 1 :: e.Clean(i) && !e.Agrees(i))
    && OnlyTowardsCandidate(e.Bodies(n - 1), e.Candidate())
    && (if LoopRaises(e, n) then r.exit == Raised(ProposalValidation)
        else r.exit == Returned && r.attempt.outcome == Some(LoopOutcome(e, n)))
  }

  lemma ShapeStep(e: Episode, i: nat)
    ensures OnlyTowardsCandidate(e.Bodies(i + 1), e.Candidate()) <==>
      && OnlyTowardsCandidate(e.Bodies(i), e.Candidate())
      && (i > 0 ==> e.BodyAt(i) == e.BodyAt(i - 1) || e.BodyAt(i) == e.Candidate())
  {
    var longer, shorter, c := e.Bodies(i + 1), e.Bodies(i), e.Candidate();
    assert longer == shorter + [e.BodyAt(i)];
    if OnlyTowardsCandidate(longer, c) {
      forall k | 0 < k < i ensures shorter[k] == shorter[k - 1] || shorter[k] == c {
        assert longer[k] == longer[k - 1] || longer[k] == c;
      }
      assert i > 0 ==> longer[i] == longer[i - 1] || longer[i] == c;
    }
  }

  /** Rounds `0..i` have gone by without a decision; `last` is the latest REST hash. */
  ghost predicate Undecided(e: Episode, i: nat, last: Option<string>) {
    && i <= e.request.maxObservations + 1
    && (forall k | 0 <= k < i :: e.Clean(k) && !e.Agrees(k))
    && OnlyTowardsCandidate(e.Bodies(i), e.Candidate())
    && last == if i == 0 then None else Some(e.setup.sha(e.BodyAt(i - 1)))
  }

  /** A round that stops decides the run. */
  lemma LoopStops(e: Episode, i: nat, a: Attempt, last: Option<string>, step: Step)
    requires Injective(e.setup.sha) && i <= e.request.maxObservations
    requires Undecided(e, i, last)
    requires RoundEnds(e, i, a, last, step) && RoundBounds(e, i, a, step) && step.Stop?
    ensures LoopEnds(e, i + 1, a.mutationCount, Settled(step.attempt, step.exit, step.clock))
  {
    ShapeStep(e, i);
  }

  /** A round that does not stop leaves the next one undecided. */
  lemma LoopContinues(e: Episode, i: nat, a: Attempt, last: Option<string>, step: Step)
    requires Injective(e.setup.sha) && i <= e.request.maxObservations
    requires Undecided(e, i, last)
    requires RoundEnds(e, i, a, last, step) && step.Continue?
    ensures Undecided(e, i + 1, Some(step.hash))
  {
    ShapeStep(e, i);
  }

  lemma LoopExhausts(e: Episode, a: Attempt, last: Option<string>)
    requires e.request.maxObservations >= 0
    requires Undecided(e, e.request.maxObservations + 1, last)
    ensures var n := e.request.maxObservations + 1;
      LoopEnds(e, n, a.mutationCount, Exhausted(a, e.ClockAt(n)))
  {
    ShapeStep(e, e.request.maxObservations);
  }

  ghost predicate Ready(e: Episode, count: nat, i: nat, a: Attempt, last: Option<string>) {
    Undecided(e, i, last) && PrIdentityChanged !in a.classifications && a.mutationCount == count
  }

  lemma OneRound(e: Episode, count: nat, i: nat, a: Attempt, last: Option<string>)
    requires Injective(e.setup.sha) && i <= e.request.maxObservations && Ready(e, count, i, a, last)
    ensures var step := RoundsOf(e.setup, e.request, e.remote, e.number)(i, a, e.ClockAt(i), last);
      if step.Stop? then LoopEnds(e, i + 1, count, Settled(step.attempt, step.exit, step.clock))
      else step.clock == e.ClockAt(i + 1) && Ready(e, count, i + 1, step.attempt, Some(step.hash))
  {
    var step := e.RoundAt(i, a, last);
    RoundsAt(e.setup, e.request, e.remote, e.number, i, a, e.ClockAt(i), last);
    RoundVerdict(e, i, a, last);
    DecideOrContinue(e, i, a, last, step);
  }

  lemma DecideOrContinue(e: Episode, i: nat, a: Attempt, last: Option<string>, step: Step)
    requires Injective(e.setup.sha) && i <= e.request.maxObservations
    requires Ready(e, a.mutationCount, i, a, last)
    requires RoundEnds(e, i, a, last, step) && RoundBounds(e, i, a, step)
    ensures if step.Stop? then LoopEnds(e, i + 1, a.mutationCount, Settled(step.attempt, step.exit, step.clock))
      else step.clock == e.ClockAt(i + 1) && Ready(e, a.mutationCount, i + 1, step.attempt, Some(step.hash))
  {
    if step.Stop? { LoopStops(e, i, a, last, step); } else { LoopContinues(e, i, a, last, step); }
  }

  /** Step `i` keeps `inv` if it continues and gives `post` if it stops. */
  ghost predicate StepKeeps(step: Step, i: nat, clock: nat -> Clock,
                            inv: (nat, Attempt, Option<string>) -> bool, post: (nat, Settled) -> bool) {
    if step.Stop? then post(i + 1, Settled(step.attempt, step.exit, step.clock))
    else step.clock == clock(i + 1) && inv(i + 1, step.attempt, Some(step.hash))
  }

  ghost function Exhausted(a: Attempt, c: Clock): Settled {
    Settled(a.Finish(StablePersistenceMismatch, StabilizationExhausted), Returned, c)
  }

  /** A property of rounds, records and hashes kept by every round that continues, with a
      consequence of every stop. */
  ghost predicate LoopRule(rounds: Rounds, max: nat, clock: nat -> Clock,
                           inv: (nat, Attempt, Option<string>) -> bool, post: (nat, Settled) -> bool) {
    && (forall i: nat, a, last | i <= max && inv(i, a, last) ::
          StepKeeps(rounds(i, a, clock(i), last), i, clock, inv, post))
    && (forall i: nat, a, last | i == max + 1 && inv(i, a, last) :: post(i, Exhausted(a, clock(i))))
  }

  lemma {:induction false} LoopInduction(
    rounds: Rounds, max: nat, clock: nat -> Clock, inv: (nat, Attempt, Option<string>) -> bool,
    post: (nat, Settled) -> bool, i: nat, a: Attempt, last: Option<string>) returns (n: nat)
    requires LoopRule(rounds, max, clock, inv, post) && i <= max + 1 && inv(i, a, last)
    ensures post(n, Stabilize(rounds, max, a, clock(i), i, last))
    decreases max + 1 - i
  {
    if i > max {
      n := max + 1;
    } else {
      var step := rounds(i, a, clock(i), last);
      assert StepKeeps(step, i, clock, inv, post);
      if step.Stop? {
        n := i + 1;
      } else {
        n := LoopInduction(rounds, max, clock, inv, post, i + 1, step.attempt, Some(step.hash));
      }
    }
  }

  ghost function ClockOf(e: Episode): nat -> Clock { (i: nat) => e.ClockAt(i) }

  ghost function ReadyOf(e: Episode, count: nat): (nat, Attempt, Option<string>) -> bool {
    (i: nat, b: Attempt, last: Option<string>) => Ready(e, count, i, b, last)
  }

  ghost function EndsOf(e: Episode, count: nat): (nat, Settled) -> bool {
    (i: nat, r: Settled) => LoopEnds(e, i, count, r)
  }

  lemma RoundKeepsReady(e: Episode, count: nat, i: nat, b: Attempt, last: Option<string>)
    requires Injective(e.setup.sha) && i <= e.request.maxObservations && ReadyOf(e, count)(i, b, last)
    ensures StepKeeps(RoundsOf(e.setup, e.request, e.remote, e.number)(i, b, ClockOf(e)(i), last), i,
                      ClockOf(e), ReadyOf(e, count), EndsOf(e, count))
  {
    OneRound(e, count, i, b, last);
    KeepsFrom(e, count, i, RoundsOf(e.setup, e.request, e.remote, e.number)(i, b, e.ClockAt(i), last));
  }

  lemma KeepsFrom(e: Episode, count: nat, i: nat, step: Step)
    requires step.Stop? ==> LoopEnds(e, i + 1, count, Settled(step.attempt, step.exit, step.clock))
    requires step.Continue? ==> step.clock == e.ClockAt(i + 1) && Ready(e, count, i + 1, step.attempt, Some(step.hash))
    ensures StepKeeps(step, i, ClockOf(e), ReadyOf(e, count), EndsOf(e, count))
  {
  }

  lemma ExhaustionEnds(e: Episode, count: nat, b: Attempt, last: Option<string>)
    requires e.request.maxObservations >= 0 && ReadyOf(e, count)(e.request.maxObservations + 1, b, last)
    ensures var n := e.request.maxObservations + 1;
      EndsOf(e, count)(n, Exhausted(b, ClockOf(e)(n)))
  {
    LoopExhausts(e, b, last);
  }

  lemma StartsReady(e: Episode, a: Attempt)
    requires e.request.maxObservations >= 0 && PrIdentityChanged !in a.classifications
    ensures ReadyOf(e, a.mutationCount)(0, a, None) && ClockOf(e)(0) == RoundClock(0)
  {
  }

  /** The whole loop, from its start to its verdict. */
  lemma LoopVerdict(e: Episode, a: Attempt) returns (n: nat)
    requires Injective(e.setup.sha) && e.request.maxObservations >= 0
    requires PrIdentityChanged !in a.classifications
    ensures LoopEnds(e, n, a.mutationCount,
              Stabilize(RoundsOf(e.setup, e.request, e.remote, e.number), e.request.maxObservations,
                        a, RoundClock(0), 0, None))
  {
    var rounds, max := RoundsOf(e.setup, e.request, e.remote, e.number), e.request.maxObservations;
    var count := a.mutationCount;
    forall i: nat, b, last | i <= max && ReadyOf(e, count)(i, b, last)
      ensures StepKeeps(rounds(i, b, ClockOf(e)(i), last), i, ClockOf(e), ReadyOf(e, count), EndsOf(e, count))
    {
      RoundKeepsReady(e, count, i, b, last);
    }
    forall i: nat, b, last | i == max + 1 && ReadyOf(e, count)(i, b, last)
      ensures EndsOf(e, count)(i, Exhausted(b, ClockOf(e)(i)))
    {
      ExhaustionEnds(e, count, b, last);
    }
    StartsReady(e, a);
    n := LoopInduction(rounds, max, ClockOf(e), ReadyOf(e, count), EndsOf(e, count), 0, a, None);
  }

  // ---- Discipline of the one mutation ----

  /** Everything that must have been seen before the PATCH goes out. */
  ghost predicate PatchAuthorized(setup: Setup, request: Request, remote: Remote) {
    var first := remote.fetch(0, request.reference);
    && BodyHash(setup.sha, request.proposal) == request.pre.candidateHash
    && first.Fetched? && Mismatches(setup, first.pr, request.pre, true) == []
    && Validated(setup, request, first.pr)
    && NormalizeBody(first.pr.body) != NormalizeBody(request.proposal)
    && request.confirmed
    && var second := remote.fetch(1, ByNumber(first.pr.number));
    && second.Fetched? && !remote.graph(0).Interrupt? && Mismatches(setup, second.pr, request.pre, true) == []
  }

  /** The candidate passes the production rules in the scope of `pr`. */
  ghost predicate Validated(setup: Setup, request: Request, pr: PullRequest) {
    var live := LiveStateFor(pr, request.live, request.proposal);
    live.Live? && Violations(setup, request.proposal, pr.changedFiles, live.live) == []
  }

  const WITHOUT_PATCH := {
    NoMutationPreconditionFailed, NoMutationAlreadyConverged, ObservationApiFailed, PostPersistenceValidationFailed}

  const WITH_PATCH := {
    MutationApiFailed, MutationResponseInvalid, ImmediateConvergence, DelayedConvergence,
    StablePersistenceMismatch, PrIdentityChanged, UnexplainedNoncandidateBodyChange,
    PostPersistenceValidationFailed, ObservationApiFailed}

  /** A run that stopped short of the PATCH. */
  ghost predicate Withheld(e: Ending) {
    && e.sent == [] && e.attempt.mutationCount == 0
    && e.clock.fetches <= 2 && e.clock.patches == 0 && e.clock.sleeps == 0
    && (e.exit == Returned ==> e.attempt.outcome.Some? && e.attempt.outcome.value in WITHOUT_PATCH)
  }

  /** A run that sent the PATCH and then followed `AfterPatch` from record `a`. */
  ghost predicate Committed(setup: Setup, request: Request, remote: Remote, e: Ending, a: Attempt)
    requires remote.fetch(0, request.reference).Fetched?
  {
    var number := remote.fetch(0, request.reference).pr.number;
    var settled := AfterPatch(setup, request, remote, number, a);
    && a.mutationCount == 1 && PrIdentityChanged !in a.classifications && a.outcome == None
    && e == Ending(settled.attempt, settled.exit, settled.clock,
                   [Patch(request.pre.repository, request.pre.number, request.proposal)])
  }

  lemma MatchesNothingElse(setup: Setup, pr: PullRequest, pre: Preconditions)
    ensures Mismatches(setup, pr, pre, true) == [] ==>
      Mismatches(setup, pr, pre, false) == [] && BodyHash(setup.sha, pr.body) == pre.bodyHash
    ensures Mismatches(setup, pr, pre, false) == [] <==>
      && pr.repository == pre.repository && pr.number == pre.number && pr.state == pre.state
      && pr.draft == pre.draft && pr.base == pre.base && pr.baseSha == pre.baseSha
      && pr.head == pre.head && pr.headSha == pre.headSha
      && ChangedScopeHash(setup.sha, pr.changedFiles) == pre.scopeHash
  {
  }

  lemma SecondReadSplits(setup: Setup, request: Request, remote: Remote, a: Attempt) returns (b: Attempt)
    requires a.mutationCount == 0 && PrIdentityChanged !in a.classifications && a.outcome == None
    requires remote.fetch(0, request.reference).Fetched?
    ensures var number := remote.fetch(0, request.reference).pr.number;
      var e := FromSecondRead(setup, request, remote, number, a);
      var second := remote.fetch(1, ByNumber(number));
      if second.Fetched? && !remote.graph(0).Interrupt? && Mismatches(setup, second.pr, request.pre, true) == []
      then Committed(setup, request, remote, e, b)
      else Withheld(e) && e.attempt.outcome != Some(PostPersistenceValidationFailed)
  {
    var number := remote.fetch(0, request.reference).pr.number;
    var second := remote.fetch(1, ByNumber(number));
    LookFacts(setup, request.pre, request.proposal, second, remote.graph(0), PrePatch, a);
    var look := LookLive(setup, request.pre, request.proposal, second, remote.graph(0), PrePatch, a);
    b := Budgeted(setup, request, look.attempt);
    if second.Fetched? && !remote.graph(0).Interrupt? {
      LookRecords(setup, request.pre, request.proposal, second, remote.graph(0), PrePatch, a);
      MatchesNothingElse(setup, second.pr, request.pre);
      assert FromSecondRead(setup, request, remote, number, a)
          == Commit(setup, request, remote, number, second.pr, look.attempt);
    }
  }

  lemma RunSplits(setup: Setup, request: Request, remote: Remote) returns (a: Attempt)
    ensures if PatchAuthorized(setup, request, remote)
            then Committed(setup, request, remote, Run(setup, request, remote), a)
            else Withheld(Run(setup, request, remote))
  {
    a := NEW_ATTEMPT;
    var first := remote.fetch(0, request.reference);
    if BodyHash(setup.sha, request.proposal) == request.pre.candidateHash && first.Fetched?
       && Mismatches(setup, first.pr, request.pre, true) == [] {
      var seen := NEW_ATTEMPT.Record(
        Observe(setup, PreMutationRest, Some(first.pr.body), request.proposal, Some(200), None, Some(true)));
      assert Run(setup, request, remote) == FromFirstRead(setup, request, remote, first.pr, seen);
      if Validated(setup, request, first.pr)
         && NormalizeBody(first.pr.body) != NormalizeBody(request.proposal) && request.confirmed {
        a := SecondReadSplits(setup, request, remote, seen);
        assert Run(setup, request, remote) == FromSecondRead(setup, request, remote, first.pr.number, seen);
      } else {
        FirstReadWithholds(setup, request, remote, first.pr, seen);
      }
    }
  }

  lemma FirstReadWithholds(setup: Setup, request: Request, remote: Remote, pr: PullRequest, a: Attempt)
    requires a.mutationCount == 0
    requires !(Validated(setup, request, pr) && NormalizeBody(pr.body) != NormalizeBody(request.proposal)
               && request.confirmed)
    ensures Withheld(FromFirstRead(setup, request, remote, pr, a))
  {
  }

  ghost predicate Bounded(request: Request, r: Settled) {
    && r.attempt.mutationCount == 1 && r.clock.patches == 1
    && r.clock.fetches <= request.maxObservations + 3 && r.clock.sleeps <= request.maxObservations
    && (r.exit == Returned ==> r.attempt.outcome.Some? && r.attempt.outcome.value in WITH_PATCH)
  }

  ghost predicate StillBounded(e: Episode, i: nat, step: Step)
    requires step.Continue?
  {
    && step.clock == e.ClockAt(i + 1) && PrIdentityChanged !in step.attempt.classifications
    && step.attempt.mutationCount == 1
  }

  lemma RoundBounded(e: Episode, i: nat, a: Attempt, last: Option<string>)
    requires i <= e.request.maxObservations
    requires PrIdentityChanged !in a.classifications && a.mutationCount == 1
    ensures var step := RoundsOf(e.setup, e.request, e.remote, e.number)(i, a, e.ClockAt(i), last);
      if step.Stop? then Bounded(e.request, Settled(step.attempt, step.exit, step.clock))
      else StillBounded(e, i, step)
  {
    var step := e.RoundAt(i, a, last);
    RoundsAt(e.setup, e.request, e.remote, e.number, i, a, e.ClockAt(i), last);
    RoundVerdict(e, i, a, last);
    EndsBounded(e, i, a, last, step);
  }

  lemma EndsBounded(e: Episode, i: nat, a: Attempt, last: Option<string>, step: Step)
    requires i <= e.request.maxObservations && a.mutationCount == 1
    requires RoundEnds(e, i, a, last, step) && RoundBounds(e, i, a, step)
    ensures step.Stop? ==> Bounded(e.request, Settled(step.attempt, step.exit, step.clock))
    ensures step.Continue? ==> StillBounded(e, i, step)
  {
  }

  lemma LoopBounded(e: Episode, a: Attempt)
    requires e.request.maxObservations >= 0
    requires PrIdentityChanged !in a.classifications && a.mutationCount == 1
    ensures Bounded(e.request, Stabilize(RoundsOf(e.setup, e.request, e.remote, e.number),
                                         e.request.maxObservations, a, RoundClock(0), 0, None))
  {
    var rounds, max := RoundsOf(e.setup, e.request, e.remote, e.number), e.request.maxObservations;
    var clock := (i: nat) => e.ClockAt(i);
    var inv := (i: nat, b: Attempt, last: Option<string>) =>
      PrIdentityChanged !in b.classifications && b.mutationCount == 1;
    var post := (i: nat, r: Settled) => Bounded(e.request, r);
    forall i: nat, b, last | i <= max && inv(i, b, last)
      ensures StepKeeps(rounds(i, b, clock(i), last), i, clock, inv, post)
    {
      RoundBounded(e, i, b, last);
    }
    var n := LoopInduction(rounds, max, clock, inv, post, 0, a, None);
  }

  /** At most one PATCH, exactly when everything was seen to match, aimed at the bound pull
      request; a bounded number of calls; and outcomes that tell the two kinds of run apart. */
  lemma RepairDiscipline(setup: Setup, request: Request, remote: Remote)
    requires Admissible(request)
    ensures var e := Run(setup, request, remote);
      && |e.sent| == e.attempt.mutationCount == e.clock.patches <= 1
      && (e.sent != [] <==> PatchAuthorized(setup, request, remote))
      && (e.sent != [] ==> e.sent == [Patch(request.pre.repository, request.pre.number, request.proposal)])
      && e.clock.fetches <= request.maxObservations + 3 && e.clock.sleeps <= request.maxObservations
      && (e.exit == Returned ==> e.attempt.outcome.Some?)
      && (e.exit == Returned && e.sent == [] ==> e.attempt.outcome.value in WITHOUT_PATCH)
      && (e.exit == Returned && e.sent != [] ==> e.attempt.outcome.value in WITH_PATCH)
  {
    var a := RunSplits(setup, request, remote);
    if PatchAuthorized(setup, request, remote) {
      AfterPatchBounded(setup, request, remote, remote.fetch(0, request.reference).pr.number, a);
    }
  }

  lemma AfterPatchBounded(setup: Setup, request: Request, remote: Remote, number: int, a: Attempt)
    requires Admissible(request) && PrIdentityChanged !in a.classifications && a.mutationCount == 1
    ensures Bounded(request, AfterPatch(setup, request, remote, number, a))
  {
    if ReachesLoop(remote) {
      LoopBounded(Episode(setup, request, remote, number), Answered(setup, request, remote, a));
    }
  }

  /** The PATCH was answered with a body, so the stabilization loop runs. */
  ghost predicate ReachesLoop(remote: Remote) {
    remote.patch.PatchAnswered? && Get(remote.patch.response, "body").Str?
  }

  /** The record with the PATCH response's body observed. */
  ghost function Answered(setup: Setup, request: Request, remote: Remote, a: Attempt): Attempt
    requires ReachesLoop(remote)
  {
    a.Record(Observe(setup, MutationResponseRest, Some(Get(remote.patch.response, "body").s),
                     request.proposal, Some(200), None, None))
  }

  // ---- The shape of what the loop saw ----

  ghost function EpisodeOf(setup: Setup, request: Request, remote: Remote): Episode
    requires remote.fetch(0, request.reference).Fetched?
  {
    Episode(setup, request, remote, remote.fetch(0, request.reference).pr.number)
  }

  /** Rounds the stabilization loop read in a run that ended as `e`. */
  ghost function RoundsRead(e: Ending): int { e.clock.fetches - 2 }

  lemma CommittedLoops(setup: Setup, request: Request, remote: Remote, e: Ending, a: Attempt)
    requires Admissible(request) && Injective(setup.sha)
    requires remote.fetch(0, request.reference).Fetched? && ReachesLoop(remote)
    requires Committed(setup, request, remote, e, a)
    ensures RoundsRead(e) >= 1
    ensures LoopEnds(EpisodeOf(setup, request, remote), RoundsRead(e), 1, Settled(e.attempt, e.exit, e.clock))
  {
    var ep := EpisodeOf(setup, request, remote);
    var b := Answered(setup, request, remote, a);
    assert AfterPatch(setup, request, remote, ep.number, a)
        == Stabilize(RoundsOf(setup, request, remote, ep.number), request.maxObservations, b, RoundClock(0), 0, None);
    var n := LoopVerdict(ep, b);
  }

  ghost predicate Shaped(bodies: seq<string>, candidate: string) {
    exists p :: PrefixThenCandidate(bodies, candidate, p)
  }

  ghost predicate Departed(e: Ending) {
    e.exit == Returned && e.attempt.outcome == Some(UnexplainedNoncandidateBodyChange)
  }

  /** What `StabilizationShape` says of a run that ended as `e`. */
  ghost predicate ShapeHolds(ep: Episode, e: Ending) {
    var n := RoundsRead(e);
    && 1 <= n <= ep.request.maxObservations + 1
    && (forall i | 0 <= i < n - 1 :: ep.Clean(i))
    && Shaped(ep.Bodies(n - 1), ep.Candidate())
    && (Departed(e) <==> ep.Clean(n - 1) && !Shaped(ep.Bodies(n), ep.Candidate()))
  }

  lemma EndsInShape(ep: Episode, e: Ending)
    requires RoundsRead(e) >= 1
    requires LoopEnds(ep, RoundsRead(e), 1, Settled(e.attempt, e.exit, e.clock))
    ensures ShapeHolds(ep, e)
  {
    var n := RoundsRead(e);
    ShapeForms(ep.Bodies(n - 1), ep.Candidate());
    ShapeForms(ep.Bodies(n), ep.Candidate());
    ShapeStep(ep, n - 1);
  }

  /** Whatever the remote does: before the last round every body read was clean, and together
      they are one constant non-candidate prefix followed by the candidate throughout.  The run
      reports an unexplained change exactly when the last round was clean and is the first
      departure from that shape. */
  lemma StabilizationShape(setup: Setup, request: Request, remote: Remote)
    requires Admissible(request) && Injective(setup.sha)
    requires PatchAuthorized(setup, request, remote) && ReachesLoop(remote)
    ensures ShapeHolds(EpisodeOf(setup, request, remote), Run(setup, request, remote))
  {
    var a := RunSplits(setup, request, remote);
    var e := Run(setup, request, remote);
    CommittedLoops(setup, request, remote, e, a);
    EndsInShape(EpisodeOf(setup, request, remote), e);
  }

  /** Wherever REST showed the candidate, GraphQL was readable and showed something else. */
  ghost predicate GraphqlDisagreed(ep: Episode, n: int) {
    forall i | 0 <= i < n && ep.BodyAt(i) == ep.Candidate() ::
      ep.GraphAt(i).Reply? && NormalizeBody(ep.GraphAt(i).value) != ep.Candidate()
  }

  lemma ExhaustedDisagreed(ep: Episode, e: Ending)
    requires RoundsRead(e) >= 1
    requires LoopEnds(ep, RoundsRead(e), 1, Settled(e.attempt, e.exit, e.clock))
    requires e.exit == Returned && e.attempt.outcome == Some(StablePersistenceMismatch)
    ensures RoundsRead(e) == ep.request.maxObservations + 1
    ensures GraphqlDisagreed(ep, RoundsRead(e))
  {
    var n := RoundsRead(e);
    assert ep.Clean(n - 1) && !ep.Agrees(n - 1);
    forall i | 0 <= i < n && ep.BodyAt(i) == ep.Candidate()
      ensures ep.GraphAt(i).Reply? && NormalizeBody(ep.GraphAt(i).value) != ep.Candidate()
    {
      assert ep.Clean(i) && !ep.Agrees(i);
    }
  }

  /** A stable mismatch means the whole observation budget was spent, in shape, and in every
      round of the candidate suffix GraphQL contradicted REST. */
  lemma StableMismatchEvidence(setup: Setup, request: Request, remote: Remote)
    requires Admissible(request) && Injective(setup.sha)
    requires PatchAuthorized(setup, request, remote) && ReachesLoop(remote)
    requires var e := Run(setup, request, remote);
      e.exit == Returned && e.attempt.outcome == Some(StablePersistenceMismatch)
    ensures RoundsRead(Run(setup, request, remote)) == request.maxObservations + 1
    ensures GraphqlDisagreed(EpisodeOf(setup, request, remote), request.maxObservations + 1)
  {
    var a := RunSplits(setup, request, remote);
    var e := Run(setup, request, remote);
    CommittedLoops(setup, request, remote, e, a);
    ExhaustedDisagreed(EpisodeOf(setup, request, remote), e);
  }

  // ---- Validation cannot fail after the fact ----

  lemma LiveNormalized(pr: PullRequest, live: Option<LiveState>, a: string, b: string)
    requires NormalizeBody(a) == NormalizeBody(b)
    ensures LiveStateFor(pr, live, a).Live? <==> LiveStateFor(pr, live, b).Live?
    ensures LiveStateFor(pr, live, a).Live? ==>
      NormalizeLive(LiveStateFor(pr, live, a).live) == NormalizeLive(LiveStateFor(pr, live, b).live)
  {
  }

  lemma LiveOfMatching(p: PullRequest, q: PullRequest, live: Option<LiveState>, body: string)
    requires p.repository == q.repository && p.number == q.number && p.base == q.base
    requires p.baseSha == q.baseSha && p.head == q.head && p.headSha == q.headSha
    ensures LiveStateFor(p, live, body) == LiveStateFor(q, live, body)
  {
  }

  /** A candidate validated in one matching scope is valid, under any line endings, in every
      other scope that matches the same preconditions. */
  lemma ValidationTransfers(setup: Setup, request: Request, first: PullRequest, later: PullRequest)
    requires Injective(setup.sha) && LineFree(first.changedFiles) && LineFree(later.changedFiles)
    requires Mismatches(setup, first, request.pre, false) == []
    requires Mismatches(setup, later, request.pre, false) == []
    requires Validated(setup, request, first)
    requires NormalizeBody(later.body) == NormalizeBody(request.proposal)
    ensures var live := LiveStateFor(later, request.live, later.body);
      live.Live? && Violations(setup, later.body, later.changedFiles, live.live) == []
  {
    MatchesNothingElse(setup, first, request.pre);
    MatchesNothingElse(setup, later, request.pre);
    ScopeHashDeterminesScope(setup.sha, first.changedFiles, later.changedFiles);
    LiveOfMatching(first, later, request.live, request.proposal);
    LiveNormalized(later, request.live, request.proposal, later.body);
  }

  /** Every fetched scope is newline-free. */
  ghost predicate LineFreeScopes(remote: Remote) {
    forall n: nat, reference :: remote.fetch(n, reference).Fetched? ==>
      LineFree(remote.fetch(n, reference).pr.changedFiles)
  }

  lemma GenuineScopes(setup: Setup, request: Request, remote: Remote)
    requires Genuine(setup, request, remote)
    ensures LineFreeScopes(remote)
  {
    forall n: nat, reference | remote.fetch(n, reference).Fetched?
      ensures LineFree(remote.fetch(n, reference).pr.changedFiles)
    {
      var reply :| remote.fetch(n, reference)
        == FetchOpenPullRequest(setup.fold, reply, request.repository, reference);
    }
  }

  /** A round that agreed validates. */
  ghost predicate AgreementCompletes(ep: Episode, i: nat) {
    ep.Clean(i) && ep.Agrees(i) ==>
    Completion(ep, i) == Some(if i > 0 then DelayedConvergence else ImmediateConvergence)
  }

  lemma AgreementValid(setup: Setup, request: Request, remote: Remote, i: nat)
    requires Injective(setup.sha) && LineFreeScopes(remote) && PatchAuthorized(setup, request, remote)
    ensures AgreementCompletes(EpisodeOf(setup, request, remote), i)
  {
    var ep := EpisodeOf(setup, request, remote);
    if ep.Clean(i) && ep.Agrees(i) {
      var first, later := remote.fetch(0, request.reference).pr, ep.FetchAt(i).pr;
      assert LineFree(first.changedFiles) && LineFree(later.changedFiles);
      MatchesNothingElse(setup, first, request.pre);
      ValidationTransfers(setup, request, first, later);
    }
  }

  /** A settled run whose agreement completes is valid. */
  lemma SettledValid(ep: Episode, n: nat, r: Settled)
    requires LoopEnds(ep, n, 1, r) && AgreementCompletes(ep, n - 1)
    ensures r.exit == Returned && r.attempt.outcome != Some(PostPersistenceValidationFailed)
  {
  }

  lemma UnansweredPatch(setup: Setup, request: Request, remote: Remote, number: int, a: Attempt)
    requires a.outcome == None && !ReachesLoop(remote)
    ensures var r := AfterPatch(setup, request, remote, number, a);
      && r.attempt.outcome != Some(PostPersistenceValidationFailed)
      && (!remote.patch.PatchInterrupted? ==> r.exit == Returned)
  {
  }

  lemma FirstReadValid(setup: Setup, request: Request, remote: Remote, pr: PullRequest, a: Attempt)
    requires Injective(setup.sha) && LineFree(pr.changedFiles) && a.outcome == None
    requires Mismatches(setup, pr, request.pre, true) == []
    requires !(Validated(setup, request, pr) && NormalizeBody(pr.body) != NormalizeBody(request.proposal)
               && request.confirmed)
    ensures FromFirstRead(setup, request, remote, pr, a).attempt.outcome != Some(PostPersistenceValidationFailed)
  {
    if Validated(setup, request, pr) && NormalizeBody(pr.body) == NormalizeBody(request.proposal) {
      MatchesNothingElse(setup, pr, request.pre);
      ValidationTransfers(setup, request, pr, pr);
    }
  }

  /** Runs that withhold the PATCH do not fail late either. */
  lemma WithheldValid(setup: Setup, request: Request, remote: Remote)
    requires Injective(setup.sha) && LineFreeScopes(remote)
    requires !PatchAuthorized(setup, request, remote)
    ensures Run(setup, request, remote).attempt.outcome != Some(PostPersistenceValidationFailed)
  {
    var first := remote.fetch(0, request.reference);
    if BodyHash(setup.sha, request.proposal) == request.pre.candidateHash && first.Fetched?
       && Mismatches(setup, first.pr, request.pre, true) == [] {
      var seen := NEW_ATTEMPT.Record(
        Observe(setup, PreMutationRest, Some(first.pr.body), request.proposal, Some(200), None, Some(true)));
      assert Run(setup, request, remote) == FromFirstRead(setup, request, remote, first.pr, seen);
      if Validated(setup, request, first.pr)
         && NormalizeBody(first.pr.body) != NormalizeBody(request.proposal) && request.confirmed {
        var b := SecondReadSplits(setup, request, remote, seen);
        assert Run(setup, request, remote) == FromSecondRead(setup, request, remote, first.pr.number, seen);
      } else {
        FirstReadValid(setup, request, remote, first.pr, seen);
      }
    }
  }

  /** With a collision-free hash, nothing can fail validation once the candidate passed it:
      no run returns POST_PERSISTENCE_VALIDATION_FAILED, and after the PATCH nothing is
      raised unless the PATCH call itself was interrupted. */
  lemma ValidationNeverFailsLate(setup: Setup, request: Request, remote: Remote)
    requires Admissible(request) && Injective(setup.sha) && Genuine(setup, request, remote)
    ensures var e := Run(setup, request, remote);
      && e.attempt.outcome != Some(PostPersistenceValidationFailed)
      && (e.sent != [] && !remote.patch.PatchInterrupted? ==> e.exit == Returned)
  {
    GenuineScopes(setup, request, remote);
    var e := Run(setup, request, remote);
    var a := RunSplits(setup, request, remote);
    if PatchAuthorized(setup, request, remote) {
      if ReachesLoop(remote) {
        CommittedLoops(setup, request, remote, e, a);
        AgreementValid(setup, request, remote, RoundsRead(e) - 1);
        SettledValid(EpisodeOf(setup, request, remote), RoundsRead(e), Settled(e.attempt, e.exit, e.clock));
      } else {
        UnansweredPatch(setup, request, remote, remote.fetch(0, request.reference).pr.number, a);
      }
    } else {
      WithheldValid(setup, request, remote);
    }
  }

  /** Convergence is what the last of `n` rounds and no earlier one showed. */
  ghost predicate ConvergesExactly(ep: Episode, n: int, outcome: Option<Outcome>) {
    && n >= 1 && (forall i | 0 <= i < n - 1 :: !ep.Agrees(i))
    && (outcome == Some(ImmediateConvergence) <==> ep.Clean(n - 1) && ep.Agrees(n - 1) && n == 1)
    && (outcome == Some(DelayedConvergence) <==> ep.Clean(n - 1) && ep.Agrees(n - 1) && n > 1)
  }

  lemma LoopConverges(ep: Episode, n: nat, r: Settled)
    requires LoopEnds(ep, n, 1, r) && AgreementCompletes(ep, n - 1)
    ensures ConvergesExactly(ep, n, r.attempt.outcome)
  {
    assert !LoopRaises(ep, n);
    assert r.attempt.outcome == Some(LoopOutcome(ep, n));
  }

  lemma RunConverges(setup: Setup, request: Request, remote: Remote, ep: Episode, e: Ending)
    requires Admissible(request) && Injective(setup.sha)
    requires PatchAuthorized(setup, request, remote) && ReachesLoop(remote)
    requires ep == EpisodeOf(setup, request, remote) && e == Run(setup, request, remote)
    requires forall i: nat :: AgreementCompletes(ep, i)
    ensures ConvergesExactly(ep, RoundsRead(e), e.attempt.outcome)
  {
    var a := RunSplits(setup, request, remote);
    CommittedLoops(setup, request, remote, e, a);
    LoopConverges(ep, RoundsRead(e), Settled(e.attempt, e.exit, e.clock));
  }

  lemma AgreementsValid(setup: Setup, request: Request, remote: Remote)
    requires Injective(setup.sha) && Genuine(setup, request, remote) && PatchAuthorized(setup, request, remote)
    ensures forall i: nat :: AgreementCompletes(EpisodeOf(setup, request, remote), i)
  {
    GenuineScopes(setup, request, remote);
    forall i: nat ensures AgreementCompletes(EpisodeOf(setup, request, remote), i) {
      AgreementValid(setup, request, remote, i);
    }
  }

  /** The run converges exactly when its last round was clean and agreed, which no earlier
      round did; it is immediate exactly when that was the first read after the PATCH. */
  lemma ConvergenceExact(setup: Setup, request: Request, remote: Remote)
    requires Admissible(request) && Injective(setup.sha) && Genuine(setup, request, remote)
    requires PatchAuthorized(setup, request, remote) && ReachesLoop(remote)
    ensures var e := Run(setup, request, remote);
      ConvergesExactly(EpisodeOf(setup, request, remote), RoundsRead(e), e.attempt.outcome)
  {
    AgreementsValid(setup, request, remote);
    RunConverges(setup, request, remote, EpisodeOf(setup, request, remote), Run(setup, request, remote));
  }
}
