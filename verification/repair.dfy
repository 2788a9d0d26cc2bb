/** The guarded one-shot body repair: one attempt record, one possible PATCH, one
    bounded read-only stabilization loop.

    A remote is what would be answered to the n-th fetch, the n-th GraphQL query, the
    PATCH and the n-th sleep of a run.  It is arbitrary, so a statement over all remotes
    holds against every behaviour of GitHub, adaptive or not. */
module Repair {
  import opened Json
  import opened Options
  import opened PullRequests
  import opened Text

  datatype Outcome =
    | NoMutationPreconditionFailed
    | NoMutationAlreadyConverged
    | MutationApiFailed
    | MutationResponseInvalid
    | ImmediateConvergence
    | DelayedConvergence
    | TransientRepresentationDisagreement
    | StablePersistenceMismatch
    | PrIdentityChanged
    | UnexplainedNoncandidateBodyChange
    | PostPersistenceValidationFailed
    | GraphqlUnavailable
    | ObservationApiFailed

  datatype Preconditions = Preconditions(
    repository: string, number: int, state: string, draft: bool, base: string,
    baseSha: string, head: string, headSha: string, scopeHash: string,
    bodyHash: string, candidateHash: string, authorization: string)

  datatype Fact = Repository | Number | State | Draft | Base | BaseSha | Head | HeadSha | Scope | LiveBody

  datatype FinalState =
    | NotStarted
    | CandidateHashMismatch
    | InitialObservationFailed
    | Changed(facts: seq<Fact>)
    | CandidateFailedValidation
    | AlreadyConverged
    | PrePatchIdentityChanged
    | PrePatchFailed
    | PatchResponseMalformed
    | PatchFailed
    | PatchResponseMissingBody
    | ObservationInterrupted
    | PostPatchIdentityChanged
    | PostPatchObservationFailed
    | NoncandidateBodyChanged
    | StabilizationInterrupted
    | StabilizationExhausted
    | ConvergedButInvalid
    | ConvergedAndValidated

  datatype Tag = PrePatch | Immediate | Stabilization(index: nat)

  datatype Source = PreMutationRest | MutationResponseRest | Rest(tag: Tag) | Graphql(tag: Tag)

  datatype Observation = Observation(
    source: Source, bodyHash: Option<string>, mojibake: Option<bool>, apiStatus: Option<int>,
    equalsCandidate: Option<bool>, agree: Option<bool>, stable: Option<bool>)

  /** The caller-supplied authoritative live state; `rest` stands for the fields the
      repair itself never looks at. */
  datatype LiveState = LiveState(
    repository: Option<string>, number: Option<int>, base: Option<string>, baseSha: Option<string>,
    head: Option<string>, headSha: Option<string>, inventoryComplete: bool,
    body: Option<string>, rest: Json)

  /** Case folding, SHA-256, the payload encoding, and the production rules behind the
      validator: functions the model does not look into. */
  datatype Setup = Setup(
    fold: string -> string,
    sha: string -> string,
    encode: string -> string,
    rules: (string, seq<string>, Option<LiveState>) -> seq<string>)

  datatype Request = Request(
    repository: string, reference: Reference, proposal: string, pre: Preconditions,
    confirmed: bool, maxObservations: int, interval: real, live: Option<LiveState>)

  datatype PatchReply =
    | PatchApiFailed     // GitHubApiError
    | PatchMalformed     // MutationResponseError
    | PatchInterrupted   // any other exception, from the call or from hashing the body it returned
    | PatchAnswered(response: Json)

  /** What the remote answers in one run: to fetch number `n` of a reference, to GraphQL
      query `n`, to the PATCH, and whether sleep `n` is interrupted. */
  datatype Remote = Remote(
    fetch: (nat, Reference) -> Fetch, graph: nat -> Api<string>, patch: PatchReply, nap: nat -> bool)

  /** Every fetch result is something `fetch_open_pull_request` makes of some replies. */
  ghost predicate Genuine(setup: Setup, request: Request, remote: Remote) {
    forall n: nat, reference: Reference ::
      exists reply :: remote.fetch(n, reference)
        == FetchOpenPullRequest(setup.fold, reply, request.repository, reference)
  }

  datatype Patch = Patch(repository: string, number: int, body: string)

  /** How many calls of each kind have been made. */
  datatype Clock = Clock(fetches: nat, queries: nat, patches: nat, sleeps: nat)

  const START := Clock(0, 0, 0, 0)

  datatype Error = ProposalValidation | Repositories | References | States | GithubApi | Other

  datatype Exit = Returned | Raised(error: Error)

  // ---- The validator boundary ----

  function NormalizeLive(live: Option<LiveState>): Option<LiveState> {
    if live.Some? && live.value.body.Some? then
      Some(live.value.(body := Some(NormalizeBody(live.value.body.value))))
    else live
  }

  /** `validate_pr_evidence(...).violations`: body and files are normalized before any rule
      sees them, and the rules read the live body only through `normalize_pr_body`. */
  function Violations(setup: Setup, body: string, files: seq<string>, live: Option<LiveState>): seq<string> {
    setup.rules(NormalizeBody(body), NormalizeChangedFiles(files), NormalizeLive(live))
  }

  datatype Refreshed = Live(live: Option<LiveState>) | Stale

  /** `_live_state_for_pull_request` with an explicit body; `Stale` is its
      ProposalValidationError. */
  function LiveStateFor(pr: PullRequest, live: Option<LiveState>, body: string): Refreshed {
    if live.None? then Live(None)
    else
      var l := live.value;
      if l.repository != Some(pr.repository) || l.number != Some(pr.number) || l.base != Some(pr.base)
        || l.baseSha != Some(pr.baseSha) || l.head != Some(pr.head) || l.headSha != Some(pr.headSha)
      then Stale
      else if !l.inventoryComplete then Stale
      else Live(Some(l.(body := Some(body))))
  }

  /** `_precondition_mismatches`, in its order. */
  function Mismatches(setup: Setup, pr: PullRequest, pre: Preconditions, includeBody: bool): seq<Fact> {
      (if pr.repository != pre.repository then [Repository] else [])
    + (if pr.number != pre.number then [Number] else [])
    + (if pr.state != pre.state then [State] else [])
    + (if pr.draft != pre.draft then [Draft] else [])
    + (if pr.base != pre.base then [Base] else [])
    + (if pr.baseSha != pre.baseSha then [BaseSha] else [])
    + (if pr.head != pre.head then [Head] else [])
    + (if pr.headSha != pre.headSha then [HeadSha] else [])
    + (if ChangedScopeHash(setup.sha, pr.changedFiles) != pre.scopeHash then [Scope] else [])
    + (if includeBody && BodyHash(setup.sha, pr.body) != pre.bodyHash then [LiveBody] else [])
  }

  predicate MojibakeAt(b: string, i: nat)
    requires i + 3 <= |b|
  {
    b[i..i + 3] == ['\U{E2}', '\U{20AC}', '\U{201D}']
  }

  predicate HasMojibake(body: string) {
    var b := NormalizeBody(body);
    exists i | 0 <= i < |b| - 2 :: MojibakeAt(b, i)
  }

  function Observe(setup: Setup, source: Source, body: Option<string>, candidate: string,
                   apiStatus: Option<int>, agree: Option<bool>, stable: Option<bool>): Observation {
    match body
    case None => Observation(source, None, None, apiStatus, None, agree, stable)
    case Some(b) => Observation(
      source, Some(BodyHash(setup.sha, b)), Some(HasMojibake(b)), apiStatus,
      Some(NormalizeBody(b) == NormalizeBody(candidate)), agree, stable)
  }

  /** `next(item for item in reversed(observations) if item.source == source)` */
  function Latest(observations: seq<Observation>, source: Source): Option<Observation> {
    if observations == [] then None
    else if observations[|observations| - 1].source == source then Some(observations[|observations| - 1])
    else Latest(observations[..|observations| - 1], source)
  }

  // ---- The attempt record ----

  /** The value of a `PersistenceAttempt`'s mutable fields. */
  datatype Attempt = Attempt(
    payloadHash: Option<string>, payloadKeys: seq<string>, mutationCount: nat,
    observations: seq<Observation>, classifications: seq<Outcome>, outcome: Option<Outcome>,
    violations: seq<string>, finalState: FinalState)
  {
    function Classify(o: Outcome): Attempt {
      if o in classifications then this else this.(classifications := classifications + [o])
    }

    function Finish(o: Outcome, s: FinalState): Attempt {
      Classify(o).(outcome := Some(o), finalState := s)
    }

    function Record(o: Observation): Attempt { this.(observations := observations + [o]) }
  }

  const NEW_ATTEMPT := Attempt(None, [], 0, [], [], None, [], NotStarted)

  class PersistenceAttempt {
    const preconditions: Preconditions
    const candidateNormalizedHash: string
    const candidateRequestHash: string
    var payloadHash: Option<string>
    var payloadKeys: seq<string>
    var mutationCount: nat
    var observations: seq<Observation>
    var classifications: seq<Outcome>
    var outcome: Option<Outcome>
    var violations: seq<string>
    var finalState: FinalState

    ghost function View(): Attempt
      reads this
    {
      Attempt(payloadHash, payloadKeys, mutationCount, observations, classifications, outcome,
              violations, finalState)
    }

    constructor (preconditions: Preconditions, candidateNormalizedHash: string, candidateRequestHash: string)
      ensures View() == NEW_ATTEMPT
      ensures this.preconditions == preconditions
      ensures this.candidateNormalizedHash == candidateNormalizedHash
      ensures this.candidateRequestHash == candidateRequestHash
    {
      this.preconditions := preconditions;
      this.candidateNormalizedHash := candidateNormalizedHash;
      this.candidateRequestHash := candidateRequestHash;
      payloadHash, payloadKeys, mutationCount := None, [], 0;
      observations, classifications, outcome := [], [], None;
      violations, finalState := [], NotStarted;
    }

    method AddClassification(o: Outcome)
      modifies this`classifications
      ensures View() == old(View()).Classify(o)
    {
      if o !in classifications {
        classifications := classifications + [o];
      }
    }

    method Finish(o: Outcome, s: FinalState)
      modifies this`classifications, this`outcome, this`finalState
      ensures View() == old(View()).Finish(o, s)
    {
      AddClassification(o);
      outcome := Some(o);
      finalState := s;
    }

    method Record(o: Observation)
      modifies this`observations
      ensures View() == old(View()).Record(o)
    {
      observations := observations + [o];
    }
  }

  /** The remote and the sleeper, with a trace of what was asked of them in one run. */
  class Transport {
    const remote: Remote
    var clock: Clock
    var sent: seq<Patch>

    constructor (remote: Remote)
      ensures this.remote == remote && clock == START && sent == []
    {
      this.remote := remote;
      clock := START;
      sent := [];
    }

    method Fetch(reference: Reference) returns (r: Fetch)
      modifies this`clock
      ensures r == remote.fetch(old(clock).fetches, reference)
      ensures clock == old(clock).(fetches := old(clock).fetches + 1)
    {
      r := remote.fetch(clock.fetches, reference);
      clock := clock.(fetches := clock.fetches + 1);
    }

    method GraphqlBody() returns (r: Api<string>)
      modifies this`clock
      ensures r == remote.graph(old(clock).queries)
      ensures clock == old(clock).(queries := old(clock).queries + 1)
    {
      r := remote.graph(clock.queries);
      clock := clock.(queries := clock.queries + 1);
    }

    method UpdateBody(p: Patch) returns (r: PatchReply)
      modifies this
      ensures r == remote.patch
      ensures clock == old(clock).(patches := old(clock).patches + 1)
      ensures sent == old(sent) + [p]
    {
      r := remote.patch;
      clock := clock.(patches := clock.patches + 1);
      sent := sent + [p];
    }

    /** True when the sleep was interrupted. */
    method Sleep() returns (interrupted: bool)
      modifies this`clock
      ensures interrupted == remote.nap(old(clock).sleeps)
      ensures clock == old(clock).(sleeps := old(clock).sleeps + 1)
    {
      interrupted := remote.nap(clock.sleeps);
      clock := clock.(sleeps := clock.sleeps + 1);
    }
  }

  // ---- What one run does, as a function of what the remote answers ----

  datatype Seen = Saw(pr: PullRequest) | NoView | Broke(error: Error)

  datatype Look = Look(attempt: Attempt, seen: Seen)

  function FetchError(f: Fetch): Error {
    match f
    case WrongRepository => Repositories
    case BadReference => References
    case NotOpen => States
    case Unusable => GithubApi
    case _ => Other
  }

  /** `_observe_live_representations`: one REST read and, if it worked, one GraphQL read. */
  function LookLive(setup: Setup, pre: Preconditions, candidate: string, fetch: Fetch,
                    graph: Api<string>, tag: Tag, a: Attempt): Look {
    match fetch
    case NotOpen =>
      Look(a.Classify(PrIdentityChanged).Record(
             Observe(setup, Rest(tag), None, candidate, None, None, Some(false))), NoView)
    case Unusable =>
      Look(a.Classify(ObservationApiFailed).Record(
             Observe(setup, Rest(tag), None, candidate, None, None, None)), NoView)
    case Fetched(pr) =>
      var stable := Some(Mismatches(setup, pr, pre, false) == []);
      (match graph
       case Interrupt => Look(a, Broke(Other))
       case ApiError =>
         Look(a.Classify(GraphqlUnavailable)
              .Record(Observe(setup, Rest(tag), Some(pr.body), candidate, Some(200), None, stable))
              .Record(Observe(setup, Graphql(tag), None, candidate, None, None, stable)),
              Saw(pr))
       case Reply(body) =>
         var agree := Some(NormalizeBody(pr.body) == NormalizeBody(body));
         Look(a.Record(Observe(setup, Rest(tag), Some(pr.body), candidate, Some(200), agree, stable))
              .Record(Observe(setup, Graphql(tag), Some(body), candidate, Some(200), agree, stable)),
              Saw(pr)))
    case _ => Look(a, Broke(FetchError(fetch)))
  }

  /** `_complete_convergence`; `None` is the ProposalValidationError it may raise. */
  function Complete(setup: Setup, request: Request, pr: PullRequest, a: Attempt, delayed: bool): Option<Attempt> {
    match LiveStateFor(pr, request.live, pr.body)
    case Stale => None
    case Live(live) =>
      var violations := Violations(setup, pr.body, pr.changedFiles, live);
      var b := a.(violations := violations);
      if violations != [] then Some(b.Finish(PostPersistenceValidationFailed, ConvergedButInvalid))
      else Some(b.Finish(if delayed then DelayedConvergence else ImmediateConvergence, ConvergedAndValidated))
  }

  function RoundTag(index: nat): Tag {
    if index == 0 then Immediate else Stabilization(index)
  }

  /** What the recorded observations say about a round whose REST body is `body`. */
  datatype Reading = Reading(restMatches: bool, graphMatches: bool, agree: bool)

  function ReadRound(setup: Setup, candidate: string, body: string, graphql: Option<Observation>): Reading {
    Reading(
      NormalizeBody(body) == NormalizeBody(candidate),
      graphql.None? || graphql.value.bodyHash.None? || graphql.value.equalsCandidate == Some(true),
      graphql.None? || graphql.value.bodyHash.None?
        || graphql.value.bodyHash == Some(BodyHash(setup.sha, body)))
  }

  datatype Step =
    | Stop(attempt: Attempt, exit: Exit, clock: Clock)
    | Continue(attempt: Attempt, clock: Clock, hash: string)

  /** What a round concludes from the pull request it read. */
  function Judge(setup: Setup, request: Request, pr: PullRequest, nap: bool, a: Attempt, c: Clock,
                 index: nat, last: Option<string>): Step {
    var changed := Mismatches(setup, pr, request.pre, false);
    if changed != [] then
      Stop(a.Finish(PrIdentityChanged, Changed(changed)), Returned, c)
    else
      var hash := BodyHash(setup.sha, pr.body);
      var reading := ReadRound(setup, request.proposal, pr.body,
                               Latest(a.observations, Graphql(RoundTag(index))));
      if reading.restMatches && reading.graphMatches && reading.agree then
        match Complete(setup, request, pr, a, index > 0) {
          case None => Stop(a, Raised(ProposalValidation), c)
          case Some(b) => Stop(b, Returned, c)
        }
      else
        var b := if reading.agree then a else a.Classify(TransientRepresentationDisagreement);
        if last.Some? && hash != last.value && !reading.restMatches then
          Stop(b.Finish(UnexplainedNoncandidateBodyChange, NoncandidateBodyChanged), Returned, c)
        else if index < request.maxObservations then
          var slept := c.(sleeps := c.sleeps + 1);
          if nap then Stop(b.Finish(ObservationApiFailed, StabilizationInterrupted), Returned, slept)
          else Continue(b, slept, hash)
        else Continue(b, c, hash)
  }

  function AfterLook(c: Clock, fetch: Fetch): Clock {
    Clock(c.fetches + 1, c.queries + if fetch.Fetched? then 1 else 0, c.patches, c.sleeps)
  }

  /** A round once the remote was looked at, with the calls made by then. */
  function AfterView(setup: Setup, request: Request, nap: bool, look: Look, d: Clock, index: nat,
                     last: Option<string>): Step {
    match look.seen
    case Broke(_) => Stop(look.attempt.Finish(ObservationApiFailed, ObservationInterrupted), Returned, d)
    case NoView =>
      Stop(if PrIdentityChanged in look.attempt.classifications
           then look.attempt.Finish(PrIdentityChanged, PostPatchIdentityChanged)
           else look.attempt.Finish(ObservationApiFailed, PostPatchObservationFailed),
           Returned, d)
    case Saw(pr) => Judge(setup, request, pr, nap, look.attempt, d, index, last)
  }

  /** One round of the loop, given what the remote answers in it and whether a sleep
      after it would be interrupted. */
  function Round(setup: Setup, request: Request, fetch: Fetch, graph: Api<string>, nap: bool,
                 a: Attempt, c: Clock, index: nat, last: Option<string>): Step {
    AfterView(setup, request, nap, LookLive(setup, request.pre, request.proposal, fetch, graph, RoundTag(index), a),
              AfterLook(c, fetch), index, last)
  }

  /** A run that sends nothing more: its record, its exit, the calls it made. */
  datatype Settled = Settled(attempt: Attempt, exit: Exit, clock: Clock)

  /** What each round does, given the record, the calls so far and the last REST hash. */
  type Rounds = (nat, Attempt, Clock, Option<string>) -> Step

  function RoundsOf(setup: Setup, request: Request, remote: Remote, number: int): Rounds {
    (index: nat, a: Attempt, c: Clock, last: Option<string>) =>
      Round(setup, request, remote.fetch(index + 2, ByNumber(number)), remote.graph(index + 1),
            remote.nap(index), a, c, index, last)
  }

  /** Rounds `index..max` of the stabilization loop. */
  function Stabilize(rounds: Rounds, max: int, a: Attempt, c: Clock, index: nat, last: Option<string>): Settled
    decreases max + 1 - index
  {
    if index > max then Settled(a.Finish(StablePersistenceMismatch, StabilizationExhausted), Returned, c)
    else match rounds(index, a, c, last)
      case Stop(b, exit, d) => Settled(b, exit, d)
      case Continue(b, d, hash) => Stabilize(rounds, max, b, d, index + 1, Some(hash))
  }

  /** The calls made when round `index` begins. */
  function RoundClock(index: nat): Clock { Clock(index + 2, index + 1, 1, index) }

  /** The calls made by the two reads before the PATCH. */
  const TWO_READS := Clock(2, 1, 0, 0)

  /** After the PATCH was sent. */
  function AfterPatch(setup: Setup, request: Request, remote: Remote, number: int,
                      a: Attempt): Settled {
    var c := RoundClock(0);
    match remote.patch
    case PatchInterrupted => Settled(a, Raised(Other), c)
    case PatchMalformed => Settled(a.Finish(MutationResponseInvalid, PatchResponseMalformed), Returned, c)
    case PatchApiFailed => Settled(a.Finish(MutationApiFailed, PatchFailed), Returned, c)
    case PatchAnswered(response) =>
      var body := Get(response, "body");
      if !body.Str? then
        Settled(a.Record(Observe(setup, MutationResponseRest, None, request.proposal, Some(200), None, None))
                 .Finish(MutationResponseInvalid, PatchResponseMissingBody), Returned, c)
      else
        Stabilize(RoundsOf(setup, request, remote, number), request.maxObservations,
                  a.Record(Observe(setup, MutationResponseRest, Some(body.s), request.proposal,
                                   Some(200), None, None)),
                  c, 0, None)
  }

  /** How a run ended: the record, the exit, the calls made, the PATCHes sent. */
  datatype Ending = Ending(attempt: Attempt, exit: Exit, clock: Clock, sent: seq<Patch>)

  const PAYLOAD_KEYS := ["body"]

  /** The record with the payload bound and the mutation budget spent. */
  function Budgeted(setup: Setup, request: Request, a: Attempt): Attempt {
    a.(payloadHash := Some(setup.sha(setup.encode(request.proposal))),
       payloadKeys := PAYLOAD_KEYS, mutationCount := 1)
  }

  /** The last guard, and behind it the PATCH. */
  function Commit(setup: Setup, request: Request, remote: Remote, number: int, pr: PullRequest,
                  a: Attempt): Ending {
    var changed := Mismatches(setup, pr, request.pre, true);
    if changed != [] then
      Ending(a.Finish(NoMutationPreconditionFailed, Changed(changed)), Returned, TWO_READS, [])
    else
      var settled := AfterPatch(setup, request, remote, number, Budgeted(setup, request, a));
      Ending(settled.attempt, settled.exit, settled.clock,
             [Patch(pr.repository, pr.number, request.proposal)])
  }

  /** From the second read, immediately before the PATCH. */
  function FromSecondRead(setup: Setup, request: Request, remote: Remote, number: int, a: Attempt): Ending {
    var fetch := remote.fetch(1, ByNumber(number));
    var look := LookLive(setup, request.pre, request.proposal, fetch, remote.graph(0), PrePatch, a);
    var after := AfterLook(FIRST_FETCH, fetch);
    match look.seen
    case Broke(error) => Ending(look.attempt, Raised(error), after, [])
    case NoView =>
      Ending(if PrIdentityChanged in look.attempt.classifications
             then look.attempt.Finish(NoMutationPreconditionFailed, PrePatchIdentityChanged)
             else look.attempt.Finish(ObservationApiFailed, PrePatchFailed),
             Returned, after, [])
    case Saw(pr) => Commit(setup, request, remote, number, pr, look.attempt)
  }

  const FIRST_FETCH := Clock(1, 0, 0, 0)

  /** Once the first read has matched every precondition. */
  function FromFirstRead(setup: Setup, request: Request, remote: Remote, pr: PullRequest, a: Attempt): Ending {
    match LiveStateFor(pr, request.live, request.proposal)
    case Stale => Ending(a, Raised(ProposalValidation), FIRST_FETCH, [])
    case Live(live) =>
      var violations := Violations(setup, request.proposal, pr.changedFiles, live);
      if violations != [] then
        Ending(a.(violations := violations).Finish(NoMutationPreconditionFailed, CandidateFailedValidation),
               Returned, FIRST_FETCH, [])
      else if NormalizeBody(pr.body) == NormalizeBody(request.proposal) then (
        match Complete(setup, request, pr, a, false)
        case None => Ending(a, Raised(ProposalValidation), FIRST_FETCH, [])
        case Some(b) =>
          Ending(if b.outcome == Some(PostPersistenceValidationFailed) then b
                 else b.Finish(NoMutationAlreadyConverged, AlreadyConverged),
                 Returned, FIRST_FETCH, []))
      else if !request.confirmed then Ending(a, Raised(ProposalValidation), FIRST_FETCH, [])
      else FromSecondRead(setup, request, remote, pr.number, a)
  }

  /** The whole of `apply_open_pull_request_repair` once an attempt record exists; the clock
      counts the calls this run makes. */
  function Run(setup: Setup, request: Request, remote: Remote): Ending {
    if BodyHash(setup.sha, request.proposal) != request.pre.candidateHash then
      Ending(NEW_ATTEMPT.Finish(NoMutationPreconditionFailed, CandidateHashMismatch), Returned, START, [])
    else
      match remote.fetch(0, request.reference)
      case NotOpen =>
        Ending(NEW_ATTEMPT.Finish(NoMutationPreconditionFailed, InitialObservationFailed), Returned, FIRST_FETCH, [])
      case Unusable =>
        Ending(NEW_ATTEMPT.Finish(NoMutationPreconditionFailed, InitialObservationFailed), Returned, FIRST_FETCH, [])
      case Fetched(pr) =>
        var changed := Mismatches(setup, pr, request.pre, true);
        var a := NEW_ATTEMPT.Record(
          Observe(setup, PreMutationRest, Some(pr.body), request.proposal, Some(200), None, Some(changed == [])));
        if changed != [] then
          Ending(a.Finish(NoMutationPreconditionFailed, Changed(changed)), Returned, FIRST_FETCH, [])
        else FromFirstRead(setup, request, remote, pr, a)
      case _ => Ending(NEW_ATTEMPT, Raised(FetchError(remote.fetch(0, request.reference))), FIRST_FETCH, [])
  }

  // ---- The program ----

  method ObserveLiveRepresentations(setup: Setup, t: Transport, request: Request, number: int, tag: Tag,
                                    attempt: PersistenceAttempt) returns (seen: Seen)
    modifies t`clock, attempt`observations, attempt`classifications
    ensures var fetch := t.remote.fetch(old(t.clock).fetches, ByNumber(number));
      && Look(attempt.View(), seen) == LookLive(setup, request.pre, request.proposal, fetch,
           t.remote.graph(old(t.clock).queries), tag, old(attempt.View()))
      && t.clock == AfterLook(old(t.clock), fetch)
  {
    var fetch := t.Fetch(ByNumber(number));
    match fetch {
      case NotOpen =>
        attempt.AddClassification(PrIdentityChanged);
        attempt.Record(Observe(setup, Rest(tag), None, request.proposal, None, None, Some(false)));
        return NoView;
      case Unusable =>
        attempt.AddClassification(ObservationApiFailed);
        attempt.Record(Observe(setup, Rest(tag), None, request.proposal, None, None, None));
        return NoView;
      case Fetched(pr) =>
        var stable := Some(Mismatches(setup, pr, request.pre, false) == []);
        var graph := t.GraphqlBody();
        match graph {
          case Interrupt => return Broke(Other);
          case ApiError =>
            attempt.AddClassification(GraphqlUnavailable);
            attempt.Record(Observe(setup, Rest(tag), Some(pr.body), request.proposal, Some(200), None, stable));
            attempt.Record(Observe(setup, Graphql(tag), None, request.proposal, None, None, stable));
          case Reply(body) =>
            var agree := Some(NormalizeBody(pr.body) == NormalizeBody(body));
            attempt.Record(Observe(setup, Rest(tag), Some(pr.body), request.proposal, Some(200), agree, stable));
            attempt.Record(Observe(setup, Graphql(tag), Some(body), request.proposal, Some(200), agree, stable));
        }
        return Saw(pr);
      case _ => return Broke(FetchError(fetch));
    }
  }

  method CompleteConvergence(setup: Setup, request: Request, pr: PullRequest, attempt: PersistenceAttempt,
                             delayed: bool) returns (exit: Exit)
    modifies attempt
    ensures match Complete(setup, request, pr, old(attempt.View()), delayed)
      case None => exit == Raised(ProposalValidation) && attempt.View() == old(attempt.View())
      case Some(b) => exit == Returned && attempt.View() == b
  {
    match LiveStateFor(pr, request.live, pr.body) {
      case Stale => return Raised(ProposalValidation);
      case Live(live) =>
        attempt.violations := Violations(setup, pr.body, pr.changedFiles, live);
        if attempt.violations != [] {
          attempt.Finish(PostPersistenceValidationFailed, ConvergedButInvalid);
        } else {
          attempt.Finish(if delayed then DelayedConvergence else ImmediateConvergence, ConvergedAndValidated);
        }
        return Returned;
    }
  }

  method JudgeRound(setup: Setup, request: Request, t: Transport, pr: PullRequest, attempt: PersistenceAttempt,
                    index: nat, last: Option<string>)
    returns (stop: bool, exit: Exit, hash: string)
    requires t.clock.sleeps == index
    modifies t`clock, attempt
    ensures match Judge(setup, request, pr, t.remote.nap(index), old(attempt.View()), old(t.clock), index, last)
      case Stop(b, e, d) => stop && attempt.View() == b && exit == e && t.clock == d
      case Continue(b, d, h) => !stop && attempt.View() == b && hash == h && t.clock == d
  {
    stop, exit, hash := true, Returned, [];
    var changed := Mismatches(setup, pr, request.pre, false);
    if changed != [] {
      attempt.Finish(PrIdentityChanged, Changed(changed));
      return;
    }
    hash := BodyHash(setup.sha, pr.body);
    var graphql := Latest(attempt.observations, Graphql(RoundTag(index)));
    var reading := ReadRound(setup, request.proposal, pr.body, graphql);
    if reading.restMatches && reading.graphMatches && reading.agree {
      exit := CompleteConvergence(setup, request, pr, attempt, index > 0);
      return;
    }
    if !reading.agree {
      attempt.AddClassification(TransientRepresentationDisagreement);
    }
    if last.Some? && hash != last.value && !reading.restMatches {
      attempt.Finish(UnexplainedNoncandidateBodyChange, NoncandidateBodyChanged);
      return;
    }
    if index < request.maxObservations {
      var interrupted := t.Sleep();
      if interrupted {
        attempt.Finish(ObservationApiFailed, StabilizationInterrupted);
        return;
      }
    }
    stop := false;
  }

  /** The rest of a round, by what was seen. */
  method EndRound(setup: Setup, request: Request, t: Transport, seen: Seen, attempt: PersistenceAttempt,
                  index: nat, last: Option<string>)
    returns (stop: bool, exit: Exit, hash: string)
    requires t.clock.sleeps == index
    modifies t`clock, attempt
    ensures match AfterView(setup, request, t.remote.nap(index), Look(old(attempt.View()), seen), old(t.clock),
                            index, last)
      case Stop(b, e, d) => stop && attempt.View() == b && exit == e && t.clock == d
      case Continue(b, d, h) => !stop && attempt.View() == b && hash == h && t.clock == d
  {
    stop, exit, hash := true, Returned, [];
    match seen {
      case Broke(_) =>
        attempt.Finish(ObservationApiFailed, ObservationInterrupted);
      case NoView =>
        if PrIdentityChanged in attempt.classifications {
          attempt.Finish(PrIdentityChanged, PostPatchIdentityChanged);
        } else {
          attempt.Finish(ObservationApiFailed, PostPatchObservationFailed);
        }
      case Saw(pr) =>
        stop, exit, hash := JudgeRound(setup, request, t, pr, attempt, index, last);
    }
  }

  /** A round that goes on and is not the last made one fetch, one query and one sleep. */
  lemma NextClock(setup: Setup, request: Request, fetch: Fetch, graph: Api<string>, nap: bool, a: Attempt,
                  index: nat, last: Option<string>, step: Step)
    requires step == Round(setup, request, fetch, graph, nap, a, RoundClock(index), index, last)
    ensures step.Continue? && index < request.maxObservations ==> step.clock == RoundClock(index + 1)
  {
  }

  method StabilizationRound(setup: Setup, request: Request, t: Transport, number: int, attempt: PersistenceAttempt,
                            index: nat, last: Option<string>, ghost step: Step)
    returns (stop: bool, exit: Exit, hash: string)
    requires t.clock == RoundClock(index)
    requires step == Round(setup, request, t.remote.fetch(index + 2, ByNumber(number)), t.remote.graph(index + 1),
                           t.remote.nap(index), attempt.View(), RoundClock(index), index, last)
    modifies t`clock, attempt
    ensures match step
      case Stop(b, e, d) => stop && attempt.View() == b && exit == e && t.clock == d
      case Continue(b, d, h) =>
        && !stop && attempt.View() == b && hash == h && t.clock == d
        && (index < request.maxObservations ==> d == RoundClock(index + 1))
  {
    ghost var fetch, graph := t.remote.fetch(index + 2, ByNumber(number)), t.remote.graph(index + 1);
    NextClock(setup, request, fetch, graph, t.remote.nap(index), attempt.View(), index, last, step);
    var seen := ObserveLiveRepresentations(setup, t, request, number, RoundTag(index), attempt);
    stop, exit, hash := EndRound(setup, request, t, seen, attempt, index, last);
  }

  lemma RoundsAt(setup: Setup, request: Request, remote: Remote, number: int, index: nat, a: Attempt,
                 c: Clock, last: Option<string>)
    ensures RoundsOf(setup, request, remote, number)(index, a, c, last)
      == Round(setup, request, remote.fetch(index + 2, ByNumber(number)), remote.graph(index + 1),
               remote.nap(index), a, c, index, last)
  {
  }

  method NextRound(setup: Setup, request: Request, t: Transport, number: int, attempt: PersistenceAttempt,
                   index: nat, last: Option<string>, ghost rounds: Rounds)
    returns (stop: bool, exit: Exit, hash: string)
    requires t.clock == RoundClock(index) && rounds == RoundsOf(setup, request, t.remote, number)
    modifies t`clock, attempt
    ensures match rounds(index, old(attempt.View()), old(t.clock), last)
      case Stop(b, e, d) => stop && attempt.View() == b && exit == e && t.clock == d
      case Continue(b, d, h) =>
        && !stop && attempt.View() == b && hash == h && t.clock == d
        && (index < request.maxObservations ==> d == RoundClock(index + 1))
  {
    ghost var step := rounds(index, attempt.View(), t.clock, last);
    RoundsAt(setup, request, t.remote, number, index, attempt.View(), t.clock, last);
    stop, exit, hash := StabilizationRound(setup, request, t, number, attempt, index, last, step);
  }

  method StabilizeLoop(setup: Setup, request: Request, t: Transport, number: int, attempt: PersistenceAttempt)
    returns (exit: Exit)
    requires t.clock == RoundClock(0)
    modifies t`clock, attempt
    ensures var s := Stabilize(RoundsOf(setup, request, t.remote, number), request.maxObservations,
                               old(attempt.View()), RoundClock(0), 0, None);
      attempt.View() == s.attempt && exit == s.exit && t.clock == s.clock
  {
    ghost var rounds := RoundsOf(setup, request, t.remote, number);
    ghost var settled := Stabilize(rounds, request.maxObservations, attempt.View(), RoundClock(0), 0, None);
    var last: Option<string> := None;
    var index := 0;
    while index <= request.maxObservations
      invariant 0 <= index
      invariant index <= request.maxObservations ==> t.clock == RoundClock(index)
      invariant settled == Stabilize(rounds, request.maxObservations, attempt.View(), t.clock, index, last)
      decreases request.maxObservations + 1 - index
    {
      var stop, e, hash := NextRound(setup, request, t, number, attempt, index, last, rounds);
      if stop {
        return e;
      }
      last := Some(hash);
      index := index + 1;
    }
    attempt.Finish(StablePersistenceMismatch, StabilizationExhausted);
    return Returned;
  }

  /** From the PATCH on: the mutation budget is spent by the one `UpdateBody` call. */
  method PatchAndSettle(setup: Setup, request: Request, t: Transport, number: int, target: Patch,
                        attempt: PersistenceAttempt) returns (exit: Exit)
    requires t.clock == TWO_READS
    modifies t, attempt
    ensures t.sent == old(t.sent) + [target]
    ensures var s := AfterPatch(setup, request, t.remote, number, old(attempt.View()));
      attempt.View() == s.attempt && exit == s.exit && t.clock == s.clock
  {
    var reply := t.UpdateBody(target);
    match reply {
      case PatchInterrupted => return Raised(Other);
      case PatchMalformed =>
        attempt.Finish(MutationResponseInvalid, PatchResponseMalformed);
        return Returned;
      case PatchApiFailed =>
        attempt.Finish(MutationApiFailed, PatchFailed);
        return Returned;
      case PatchAnswered(response) =>
        var body := Get(response, "body");
        if !body.Str? {
          attempt.Record(Observe(setup, MutationResponseRest, None, request.proposal, Some(200), None, None));
          attempt.Finish(MutationResponseInvalid, PatchResponseMissingBody);
          return Returned;
        }
        attempt.Record(Observe(setup, MutationResponseRest, Some(body.s), request.proposal, Some(200), None, None));
        exit := StabilizeLoop(setup, request, t, number, attempt);
    }
  }

  method CommitPatch(setup: Setup, request: Request, t: Transport, number: int, pr: PullRequest,
                     attempt: PersistenceAttempt) returns (exit: Exit)
    requires attempt.mutationCount == 0
    requires t.clock == TWO_READS
    modifies t, attempt
    ensures var e := Commit(setup, request, t.remote, number, pr, old(attempt.View()));
      attempt.View() == e.attempt && exit == e.exit && t.clock == e.clock
      && t.sent == old(t.sent) + e.sent
  {
    var changed := Mismatches(setup, pr, request.pre, true);
    if changed != [] {
      attempt.Finish(NoMutationPreconditionFailed, Changed(changed));
      return Returned;
    }
    attempt.payloadHash := Some(setup.sha(setup.encode(request.proposal)));
    attempt.payloadKeys := PAYLOAD_KEYS;
    attempt.mutationCount := 1;
    var target := Patch(pr.repository, pr.number, request.proposal);
    assert attempt.View() == Budgeted(setup, request, old(attempt.View()));
    exit := PatchAndSettle(setup, request, t, number, target, attempt);
  }

  method SecondRead(setup: Setup, request: Request, t: Transport, number: int, attempt: PersistenceAttempt)
    returns (exit: Exit)
    requires attempt.mutationCount == 0 && t.clock == FIRST_FETCH
    modifies t, attempt
    ensures var e := FromSecondRead(setup, request, t.remote, number, old(attempt.View()));
      attempt.View() == e.attempt && exit == e.exit && t.clock == e.clock
      && t.sent == old(t.sent) + e.sent
  {
    var seen := ObserveLiveRepresentations(setup, t, request, number, PrePatch, attempt);
    match seen {
      case Broke(error) => return Raised(error);
      case NoView =>
        if PrIdentityChanged in attempt.classifications {
          attempt.Finish(NoMutationPreconditionFailed, PrePatchIdentityChanged);
        } else {
          attempt.Finish(ObservationApiFailed, PrePatchFailed);
        }
        return Returned;
      case Saw(pr) =>
        assert t.remote.fetch(1, ByNumber(number)).Fetched?;
        assert FromSecondRead(setup, request, t.remote, number, old(attempt.View()))
            == Commit(setup, request, t.remote, number, pr, attempt.View());
        exit := CommitPatch(setup, request, t, number, pr, attempt);
    }
  }

  method FirstRead(setup: Setup, request: Request, t: Transport, pr: PullRequest, attempt: PersistenceAttempt)
    returns (exit: Exit)
    requires attempt.mutationCount == 0 && t.clock == FIRST_FETCH
    modifies t, attempt
    ensures var e := FromFirstRead(setup, request, t.remote, pr, old(attempt.View()));
      attempt.View() == e.attempt && exit == e.exit && t.clock == e.clock
      && t.sent == old(t.sent) + e.sent
  {
    var state := LiveStateFor(pr, request.live, request.proposal);
    if state.Stale? {
      return Raised(ProposalValidation);
    }
    var violations := Violations(setup, request.proposal, pr.changedFiles, state.live);
    if violations != [] {
      attempt.violations := violations;
      attempt.Finish(NoMutationPreconditionFailed, CandidateFailedValidation);
      return Returned;
    }
    if NormalizeBody(pr.body) == NormalizeBody(request.proposal) {
      exit := CompleteConvergence(setup, request, pr, attempt, false);
      if exit == Returned && attempt.outcome != Some(PostPersistenceValidationFailed) {
        attempt.Finish(NoMutationAlreadyConverged, AlreadyConverged);
      }
      return;
    }
    if !request.confirmed {
      return Raised(ProposalValidation);
    }
    exit := SecondRead(setup, request, t, pr.number, attempt);
  }

  /** Everything after the attempt record exists. */
  method Perform(setup: Setup, request: Request, t: Transport, attempt: PersistenceAttempt) returns (exit: Exit)
    requires attempt.View() == NEW_ATTEMPT && t.clock == START
    modifies t, attempt
    ensures var e := Run(setup, request, t.remote);
      attempt.View() == e.attempt && exit == e.exit && t.clock == e.clock
      && t.sent == old(t.sent) + e.sent
  {
    if BodyHash(setup.sha, request.proposal) != request.pre.candidateHash {
      attempt.Finish(NoMutationPreconditionFailed, CandidateHashMismatch);
      return Returned;
    }
    var initial := t.Fetch(request.reference);
    match initial {
      case NotOpen =>
        attempt.Finish(NoMutationPreconditionFailed, InitialObservationFailed);
        return Returned;
      case Unusable =>
        attempt.Finish(NoMutationPreconditionFailed, InitialObservationFailed);
        return Returned;
      case Fetched(pr) =>
        var changed := Mismatches(setup, pr, request.pre, true);
        attempt.Record(Observe(setup, PreMutationRest, Some(pr.body), request.proposal, Some(200), None,
                               Some(changed == [])));
        if changed != [] {
          attempt.Finish(NoMutationPreconditionFailed, Changed(changed));
          return Returned;
        }
        exit := FirstRead(setup, request, t, pr, attempt);
      case _ => return Raised(FetchError(initial));
    }
  }

  predicate Admissible(request: Request) {
    request.maxObservations >= 0 && request.interval >= 0.0 && request.pre.authorization == "body-only"
  }

  /** `apply_open_pull_request_repair`; the transport's trace starts with this run.  An
      inadmissible request touches nothing. */
  method Apply(setup: Setup, request: Request, t: Transport) returns (exit: Exit, attempt: PersistenceAttempt?)
    requires t.clock == START
    modifies t
    ensures !Admissible(request) ==>
      exit == Raised(ProposalValidation) && attempt == null && t.clock == old(t.clock) && t.sent == old(t.sent)
    ensures Admissible(request) ==>
      var e := Run(setup, request, t.remote);
      && attempt != null && fresh(attempt) && attempt.View() == e.attempt && exit == e.exit
      && t.clock == e.clock && t.sent == old(t.sent) + e.sent
      && attempt.preconditions == request.pre
      && attempt.candidateNormalizedHash == BodyHash(setup.sha, request.proposal)
      && attempt.candidateRequestHash == setup.sha(request.proposal)
  {
    if request.maxObservations < 0 || request.interval < 0.0 || request.pre.authorization != "body-only" {
      return Raised(ProposalValidation), null;
    }
    attempt := new PersistenceAttempt(request.pre, BodyHash(setup.sha, request.proposal), setup.sha(request.proposal));
    exit := Perform(setup, request, t, attempt);
  }
}
