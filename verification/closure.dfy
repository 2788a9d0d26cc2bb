/** Closure-linkage inspection: which issues a pull request would close, whether each closure
    was declared and authorized, and whether the merge did what was declared. */
module Closure {
  import opened Options
  import opened Ordering

  // ---- The declared contract ----

  /** A contract entry as read: a field is `None` when it is missing or of the wrong type; `plain` tells
      whether it has no other keys and no optional field of the wrong type. */
  datatype Declaration = Declaration(
    repository: Option<string>, number: Option<int>, role: Option<string>,
    preState: Option<string>, postState: Option<string>,
    closureAuthorized: Option<bool>, reopenAuthorized: Option<bool>,
    authority: Option<string>, rationale: Option<string>, mustRemainOpen: Option<bool>,
    postReason: Option<string>, expectedReopen: bool, plain: bool)

  datatype ContractError =
    | RepositoryMismatch | NumberRequired
    | DuplicateDeclaration(number: int) | InvalidRole(number: int) | InvalidState(number: int)
    | AuthorizationRequired(number: int) | AuthorityRequired(number: int)
    | RationaleRequired(number: int) | OpenDeclarationRequired(number: int)

  const ROLES := {
    "completed_target", "parent", "continuation", "related", "historical_evidence", "unknown"}

  function IssueNumber(value: Option<int>): Option<int> {
    if value.Some? && value.value > 0 then value else None
  }

  predicate Filled(text: Option<string>) { text.Some? && text.value != "" }

  predicate StateName(text: Option<string>) { text == Some("open") || text == Some("closed") }

  /** An entry that raises no complaint of its own. */
  predicate Complete(d: Declaration, repository: string) {
    && d.repository == Some(repository)
    && IssueNumber(d.number).Some?
    && d.role.Some? && d.role.value in ROLES
    && StateName(d.preState) && StateName(d.postState)
    && d.closureAuthorized.Some? && d.reopenAuthorized.Some? && d.mustRemainOpen.Some?
    && Filled(d.authority) && Filled(d.rationale)
  }

  predicate DistinctNumbers(contract: seq<Declaration>) {
    forall i, j | 0 <= i < j < |contract| :: contract[i].number != contract[j].number
  }

  predicate Valid(contract: seq<Declaration>, repository: string) {
    && (forall d | d in contract :: Complete(d, repository))
    && DistinctNumbers(contract)
  }

  function When(complaint: bool, error: ContractError): set<ContractError> {
    if complaint then {error} else {}
  }

  /** The complaints about one entry with issue number `n`. */
  function EntryErrors(d: Declaration, n: int): set<ContractError> {
    When(d.role.None? || d.role.value !in ROLES, InvalidRole(n))
    + When(!StateName(d.preState) || !StateName(d.postState), InvalidState(n))
    + When(d.closureAuthorized.None? || d.reopenAuthorized.None?, AuthorizationRequired(n))
    + When(!Filled(d.authority), AuthorityRequired(n))
    + When(!Filled(d.rationale), RationaleRequired(n))
    + When(d.mustRemainOpen.None?, OpenDeclarationRequired(n))
  }

  ghost predicate SomeEntry(contract: seq<Declaration>, error: ContractError) {
    exists d :: d in contract && IssueNumber(d.number).Some? && error in EntryErrors(d, d.number.value)
  }

  ghost predicate DeclaredTwice(contract: seq<Declaration>, n: int) {
    n > 0 && exists i, j :: 0 <= i < j < |contract| && contract[i].number == Some(n) && contract[j].number == Some(n)
  }

  ghost predicate SomeForeign(contract: seq<Declaration>, repository: string) {
    exists d :: d in contract && d.repository != Some(repository)
  }

  ghost predicate SomeUnnumbered(contract: seq<Declaration>) {
    exists d :: d in contract && IssueNumber(d.number).None?
  }

  /** When a contract draws a complaint. */
  ghost predicate Complains(contract: seq<Declaration>, repository: string, error: ContractError) {
    match error
    case RepositoryMismatch => SomeForeign(contract, repository)
    case NumberRequired => SomeUnnumbered(contract)
    case DuplicateDeclaration(n) => DeclaredTwice(contract, n)
    case _ => SomeEntry(contract, error)
  }

  ghost predicate Mentions(contract: seq<Declaration>, n: int) {
    n > 0 && exists d :: d in contract && d.number == Some(n)
  }

  /** The complaints entry `d` adds behind `front`. */
  ghost predicate Adds(front: seq<Declaration>, d: Declaration, repository: string, error: ContractError) {
    match error
    case RepositoryMismatch => d.repository != Some(repository)
    case NumberRequired => IssueNumber(d.number).None?
    case DuplicateDeclaration(n) => d.number == Some(n) && Mentions(front, n)
    case _ => IssueNumber(d.number).Some? && error in EntryErrors(d, d.number.value)
  }

  lemma DeclaredTwiceStep(front: seq<Declaration>, d: Declaration, n: int)
    ensures DeclaredTwice(front + [d], n) <==> DeclaredTwice(front, n) || (d.number == Some(n) && Mentions(front, n))
  {
    var all := front + [d];
    if DeclaredTwice(all, n) {
      var i, j :| 0 <= i < j < |all| && all[i].number == Some(n) && all[j].number == Some(n);
      assert all[i] == front[i] && front[i] in front;
      assert j < |front| ==> all[j] == front[j];
    }
    if DeclaredTwice(front, n) {
      var i, j :| 0 <= i < j < |front| && front[i].number == Some(n) && front[j].number == Some(n);
      assert all[i].number == Some(n) && all[j].number == Some(n);
    }
    if d.number == Some(n) && Mentions(front, n) {
      var e :| e in front && e.number == Some(n);
      var i :| 0 <= i < |front| && front[i] == e;
      assert all[i].number == Some(n) && all[|front|].number == Some(n);
    }
  }

  lemma ComplainsStep(front: seq<Declaration>, d: Declaration, repository: string, error: ContractError)
    ensures Complains(front + [d], repository, error)
      <==> Complains(front, repository, error) || Adds(front, d, repository, error)
  {
    assert forall x :: x in front + [d] <==> x in front || x == d;
    match error
    case DuplicateDeclaration(n) => DeclaredTwiceStep(front, d, n);
    case _ =>
  }

  /** A contract draws no complaint exactly when it is valid. */
  lemma ValidIffSilent(contract: seq<Declaration>, repository: string)
    ensures Valid(contract, repository) <==> forall error :: !Complains(contract, repository, error)
  {
    if Valid(contract, repository) {
      forall error ensures !Complains(contract, repository, error) {
        assert forall d | d in contract && IssueNumber(d.number).Some? :: EntryErrors(d, d.number.value) == {};
      }
    } else {
      var error := SomeComplaint(contract, repository);
    }
  }

  lemma EntryComplaint(d: Declaration, repository: string) returns (error: ContractError)
    requires !Complete(d, repository) && d.repository == Some(repository) && IssueNumber(d.number).Some?
    ensures error in EntryErrors(d, d.number.value) && !error.RepositoryMismatch? && !error.NumberRequired?
      && !error.DuplicateDeclaration?
  {
    error :| error in EntryErrors(d, d.number.value);
  }

  lemma SomeComplaint(contract: seq<Declaration>, repository: string) returns (error: ContractError)
    requires !Valid(contract, repository)
    ensures Complains(contract, repository, error)
  {
    if d :| d in contract && !Complete(d, repository) {
      if d.repository != Some(repository) {
        error := RepositoryMismatch;
      } else if IssueNumber(d.number).None? {
        error := NumberRequired;
      } else {
        error := EntryComplaint(d, repository);
      }
    } else {
      var i, j :| 0 <= i < j < |contract| && contract[i].number == contract[j].number;
      assert contract[i] in contract;
      error := DuplicateDeclaration(contract[i].number.value);
    }
  }

  /** `validate_contract`: every complaint exactly when it is due, and none exactly for a valid
      contract. */
  method ValidateContract(contract: seq<Declaration>, repository: string) returns (errors: set<ContractError>)
    ensures forall error :: error in errors <==> Complains(contract, repository, error)
    ensures errors == {} <==> Valid(contract, repository)
  {
    errors := {};
    var seen: set<int> := {};
    for i := 0 to |contract|
      invariant forall n :: n in seen <==> Mentions(contract[..i], n)
      invariant forall error :: error in errors <==> Complains(contract[..i], repository, error)
    {
      var d := contract[i];
      ghost var front, before := contract[..i], errors;
      assert contract[..i + 1] == front + [d];
      var more := When(d.repository != Some(repository), RepositoryMismatch);
      var number := IssueNumber(d.number);
      if number.None? {
        more := more + {NumberRequired};
      } else {
        var n := number.value;
        more := more + When(n in seen, DuplicateDeclaration(n)) + EntryErrors(d, n);
        seen := seen + {n};
      }
      errors := errors + more;
      forall error ensures error in errors <==> Complains(front + [d], repository, error) {
        ComplainsStep(front, d, repository, error);
        AddsExactly(front, d, repository, error, more);
      }
    }
    assert contract[..|contract|] == contract;
    ValidIffSilent(contract, repository);
  }

  /** The complaints about an entry's own fields are of their own kinds. */
  lemma FieldErrors(d: Declaration, n: int, error: ContractError)
    ensures error.RepositoryMismatch? || error.NumberRequired? || error.DuplicateDeclaration? ==>
      error !in EntryErrors(d, n)
  {
  }

  lemma AddsExactly(
      front: seq<Declaration>, d: Declaration, repository: string, error: ContractError, more: set<ContractError>)
    requires IssueNumber(d.number).None? ==>
      more == When(d.repository != Some(repository), RepositoryMismatch) + {NumberRequired}
    requires IssueNumber(d.number).Some? ==>
      more == (When(d.repository != Some(repository), RepositoryMismatch)
               + When(Mentions(front, d.number.value), DuplicateDeclaration(d.number.value))
               + EntryErrors(d, d.number.value))
    ensures error in more <==> Adds(front, d, repository, error)
  {
    if IssueNumber(d.number).Some? {
      var own := EntryErrors(d, d.number.value);
      FieldErrors(d, d.number.value, error);
      assert error in more <==>
        (|| (error == RepositoryMismatch && d.repository != Some(repository))
         || (error == DuplicateDeclaration(d.number.value) && Mentions(front, d.number.value))
         || error in own);
    }
  }

  // ---- The timeline ----

  /** A timeline event.  `source` is `None` when the key is absent and `Some(None)` when it names
      no issue; `closesIssue` is `Some(false)` for any present value other than true. */
  datatype TimelineItem = TimelineItem(
    event: Option<string>, source: Option<Option<int>>, closesIssue: Option<bool>,
    sha: Option<string>, authorDate: Option<string>, createdAt: Option<string>, actor: Option<string>)

  datatype Classification =
    | CrossReference | DevelopmentLink | ClosingDevelopmentLink
    | CommitEvent | CloseEvent | ReopenEvent | UnknownEvent

  datatype Observation = Observation(
    classification: Classification, issue: Option<int>, explicitClosure: bool, event: string, occurredAt: string)

  function SourceIssue(item: TimelineItem): Option<int> {
    if item.source.Some? then IssueNumber(item.source.value) else None
  }

  /** A commit event that carries no linkage. */
  predicate PlainCommit(item: TimelineItem, isSha: string -> bool) {
    && item.sha.Some? && isSha(item.sha.value) && item.authorDate.Some?
    && item.source.None? && item.closesIssue.None?
  }

  function OrEmpty(text: Option<string>): string { if text.Some? then text.value else "" }

  /** The classification chain of `_timeline_observation`; `isSha` is the 40-hex-digit test. */
  function ClassOf(item: TimelineItem, isSha: string -> bool): Classification {
    var issue := SourceIssue(item);
    if item.event.None? then UnknownEvent
    else if item.event.value == "cross-referenced" && issue.Some? then CrossReference
    else if item.event.value == "connected" && issue.Some? then
      if item.closesIssue == Some(true) then ClosingDevelopmentLink else DevelopmentLink
    else if item.event.value == "closed" then CloseEvent
    else if item.event.value == "reopened" then ReopenEvent
    else if item.event.value == "committed" && PlainCommit(item, isSha) then CommitEvent
    else UnknownEvent
  }

  /** `_timeline_observation` */
  function Observe(item: TimelineItem, isSha: string -> bool): Observation {
    var c := ClassOf(item, isSha);
    Observation(
      c, SourceIssue(item), c.ClosingDevelopmentLink? || c.CloseEvent?,
      if item.event.Some? then item.event.value else "unknown",
      if c.CommitEvent? && item.createdAt.None? then OrEmpty(item.authorDate) else OrEmpty(item.createdAt))
  }

  /** The rank of a classification's name among the names. */
  function ClassRank(c: Classification): nat {
    match c
    case CloseEvent => 0
    case CrossReference => 1
    case ClosingDevelopmentLink => 2
    case DevelopmentLink => 3
    case CommitEvent => 4
    case ReopenEvent => 5
    case UnknownEvent => 6
  }

  /** Issue numbers are positive, so that no issue sorts like issue 0. */
  function IssueKey(issue: Option<int>): int { if issue.Some? then issue.value else 0 }

  /** The sort key of `_sorted_timeline_observations`. */
  predicate ObservationLe(a: Observation, b: Observation) {
    if ClassRank(a.classification) != ClassRank(b.classification) then
      ClassRank(a.classification) < ClassRank(b.classification)
    else if IssueKey(a.issue) != IssueKey(b.issue) then IssueKey(a.issue) < IssueKey(b.issue)
    else if a.event != b.event then StringLe(a.event, b.event)
    else StringLe(a.occurredAt, b.occurredAt)
  }

  lemma ObservationOrder()
    ensures TotalOrder(ObservationLe)
  {
    forall a, b ensures ObservationLe(a, b) || ObservationLe(b, a) {
      StringLeTotal(a.event, b.event);
      StringLeTotal(a.occurredAt, b.occurredAt);
    }
    forall a, b, c | ObservationLe(a, b) && ObservationLe(b, c) ensures ObservationLe(a, c) {
      ObservationTransitive(a, b, c);
    }
  }

  lemma ObservationTransitive(a: Observation, b: Observation, c: Observation)
    requires ObservationLe(a, b) && ObservationLe(b, c)
    ensures ObservationLe(a, c)
  {
    StringLeTotal(a.event, b.event);
    StringLeTotal(b.event, c.event);
    if StringLe(a.event, b.event) && StringLe(b.event, c.event) { StringLeTransitive(a.event, b.event, c.event); }
    if StringLe(a.occurredAt, b.occurredAt) && StringLe(b.occurredAt, c.occurredAt) {
      StringLeTransitive(a.occurredAt, b.occurredAt, c.occurredAt);
    }
  }

  function ObserveAll(items: seq<TimelineItem>, isSha: string -> bool): (os: seq<Observation>)
    ensures |os| == |items|
    ensures forall i | 0 <= i < |items| :: os[i] == Observe(items[i], isSha)
  {
    seq(|items|, i requires 0 <= i < |items| => Observe(items[i], isSha))
  }

  /** The issue numbers of observations. */
  function Issues(os: seq<Observation>): seq<int> {
    if os == [] then []
    else
      var last := os[|os| - 1];
      Issues(os[..|os| - 1]) + if last.issue.Some? then [last.issue.value] else []
  }

  // ---- Collected evidence ----

  datatype Failure = RequestFailed | MalformedReply | InvalidReference | BadCursor | PageLimit

  datatype Collected<T> = Collected(value: T) | NotCollected(failure: Failure)

  /** An optional text field of a reply. */
  datatype Field = Empty | Text(text: string) | NotText

  datatype IssueReply = Unavailable | Read(state: Option<string>, reason: Field, closedAt: Field, reopenedAt: Field)

  /** Everything the inspector is told: the closing references found in the body, the GraphQL
      references, the timeline, and the reply for each issue. */
  datatype Evidence = Evidence(
    bodyLinks: seq<int>, graphql: Collected<seq<int>>, timeline: Collected<seq<TimelineItem>>,
    isSha: string -> bool, issue: int -> IssueReply)
  {
    function GraphqlLinks(): seq<int> { if graphql.Collected? then graphql.value else [] }

    function Timeline(): seq<Observation> {
      if timeline.Collected? then Sort(ObserveAll(timeline.value, isSha), ObservationLe) else []
    }

    /** The issues with a development link of the given kind. */
    function Links(kind: Classification): set<int> {
      set o | o in Timeline() && o.classification == kind && o.issue.Some? :: o.issue.value
    }

    predicate Linked(n: int) { n in bodyLinks || n in GraphqlLinks() }

    /** Every issue number any of the three sources mentions. */
    function Discoverable(): seq<int> { bodyLinks + GraphqlLinks() + Issues(Timeline()) }

    /** The state as reported; `unknown` when it is missing, empty or could not be read. */
    function State(n: int): string {
      match issue(n)
      case Unavailable => "unknown"
      case Read(state, _, _, _) => if Filled(state) then state.value else "unknown"
    }
  }

  /** A validated entry. */
  datatype Entry = Entry(
    number: int, preState: string, postState: string, closureAuthorized: bool, reopenAuthorized: bool,
    mustRemainOpen: bool, postReason: Option<string>, expectedReopen: bool)

  predicate Forbids(e: Entry) { e.mustRemainOpen || !e.closureAuthorized }

  function ReadEntry(d: Declaration, repository: string): (e: Entry)
    requires Complete(d, repository)
    ensures d.number == Some(e.number)
  {
    Entry(d.number.value, d.preState.value, d.postState.value, d.closureAuthorized.value,
          d.reopenAuthorized.value, d.mustRemainOpen.value, d.postReason, d.expectedReopen)
  }

  /** The dictionary of entries by number. */
  function Declared(contract: seq<Entry>): map<int, Entry> {
    if contract == [] then map[]
    else
      var last := contract[|contract| - 1];
      Declared(contract[..|contract| - 1])[last.number := last]
  }

  function Numbers(contract: seq<Entry>): (numbers: seq<int>)
    ensures |numbers| == |contract|
    ensures forall i | 0 <= i < |contract| :: numbers[i] == contract[i].number
  {
    seq(|contract|, i requires 0 <= i < |contract| => contract[i].number)
  }

  // ---- Findings ----

  datatype Code =
    | NoClosingLinkage | AuthorizedLinkage | UnauthorizedLinkage
    | EvidenceIncompleteFound | StateMismatch | RoleUndeclared | AuthorityMissing
    | StateMatched | UnauthorizedClosure | ExpectedClosureMissing
    | UnauthorizedReopen | ExpectedReopenMissing | ReasonMismatch | TimestampAmbiguous
    | SourceUnknown

  datatype Source =
    | GraphqlSource | TimelineSource | ClosingEvidence | ContractSource | IssueStateSource
    | BodyOrGraphql | DevelopmentLinkage | GithubApi | PostMergeStates | UnknownSource

  datatype Finding = Finding(code: Code, issue: Option<int>, source: Source)

  /** The rank of a code's name among the names. */
  function CodeRank(c: Code): nat {
    match c
    case AuthorizedLinkage => 0
    case AuthorityMissing => 1
    case EvidenceIncompleteFound => 2
    case SourceUnknown => 3
    case RoleUndeclared => 4
    case StateMismatch => 5
    case NoClosingLinkage => 6
    case ExpectedClosureMissing => 7
    case ExpectedReopenMissing => 8
    case StateMatched => 9
    case ReasonMismatch => 10
    case TimestampAmbiguous => 11
    case UnauthorizedClosure => 12
    case UnauthorizedReopen => 13
    case UnauthorizedLinkage => 14
  }

  function SourceRank(s: Source): nat {
    match s
    case ClosingEvidence => 0
    case ContractSource => 1
    case DevelopmentLinkage => 2
    case GithubApi => 3
    case GraphqlSource => 4
    case IssueStateSource => 5
    case PostMergeStates => 6
    case BodyOrGraphql => 7
    case TimelineSource => 8
    case UnknownSource => 9
  }

  /** The sort key of `_sorted_findings`; a finding about no issue comes before those about one. */
  predicate FindingLe(a: Finding, b: Finding) {
    if CodeRank(a.code) != CodeRank(b.code) then CodeRank(a.code) < CodeRank(b.code)
    else if a.issue.Some? != b.issue.Some? then a.issue.None?
    else if IssueKey(a.issue) != IssueKey(b.issue) then IssueKey(a.issue) < IssueKey(b.issue)
    else SourceRank(a.source) <= SourceRank(b.source)
  }

  function SortFindings(findings: seq<Finding>): seq<Finding> { Sort(findings, FindingLe) }

  lemma RanksInjective()
    ensures forall a, b :: CodeRank(a) == CodeRank(b) ==> a == b
    ensures forall a, b :: SourceRank(a) == SourceRank(b) ==> a == b
  {
  }

  /** The key tells findings apart. */
  lemma FindingOrder()
    ensures TotalOrder(FindingLe)
    ensures forall a, b :: FindingLe(a, b) && FindingLe(b, a) ==> a == b
  {
    RanksInjective();
  }

  datatype Readiness = Ready | NotReady | EvidenceIncomplete

  const INCOMPLETE := {EvidenceIncompleteFound, RoleUndeclared, AuthorityMissing, SourceUnknown}
  const BLOCKING := {UnauthorizedLinkage, StateMismatch}
  const LINKAGE := {NoClosingLinkage, AuthorizedLinkage, UnauthorizedLinkage}

  predicate Reports(findings: seq<Finding>, codes: set<Code>) {
    exists f :: f in findings && f.code in codes
  }

  /** `_readiness`: incomplete evidence dominates everything else. */
  function Classify(findings: seq<Finding>): Readiness {
    if Reports(findings, INCOMPLETE) then EvidenceIncomplete
    else if Reports(findings, BLOCKING) then NotReady
    else Ready
  }

  /** The findings about sources that did not answer. */
  function SourceFindings(w: Evidence): seq<Finding> {
    (if w.graphql.NotCollected? then [Finding(EvidenceIncompleteFound, None, GraphqlSource)] else [])
    + (if w.timeline.NotCollected? then [Finding(EvidenceIncompleteFound, None, TimelineSource)] else [])
  }

  function UnknownFindings(os: seq<Observation>): seq<Finding> {
    if os == [] then []
    else
      var last := os[|os| - 1];
      UnknownFindings(os[..|os| - 1])
      + if last.classification.UnknownEvent? then [Finding(EvidenceIncompleteFound, last.issue, TimelineSource)] else []
  }

  function LinkageFinding(w: Evidence, n: int, e: Entry): Finding {
    if w.Linked(n) then Finding(if Forbids(e) then UnauthorizedLinkage else AuthorizedLinkage, Some(n), BodyOrGraphql)
    else if n in w.Links(ClosingDevelopmentLink) then
      Finding(if Forbids(e) then UnauthorizedLinkage else AuthorizedLinkage, Some(n), TimelineSource)
    else Finding(NoClosingLinkage, Some(n), GithubApi)
  }

  function IssueFindings(w: Evidence, n: int, entries: map<int, Entry>): seq<Finding> {
    if n !in entries then
      [Finding(RoleUndeclared, Some(n), ClosingEvidence), Finding(AuthorityMissing, Some(n), ContractSource)]
    else
      (if w.issue(n).Unavailable? then [Finding(SourceUnknown, Some(n), IssueStateSource)] else [])
      + (if w.State(n) != entries[n].preState then [Finding(StateMismatch, Some(n), IssueStateSource)] else [])
      + [LinkageFinding(w, n, entries[n])]
  }

  function AllIssueFindings(w: Evidence, numbers: seq<int>, entries: map<int, Entry>): seq<Finding> {
    if numbers == [] then []
    else
      AllIssueFindings(w, numbers[..|numbers| - 1], entries)
      + IssueFindings(w, numbers[|numbers| - 1], entries)
  }

  /** The discoverable and declared issues, ascending. */
  function Inspected(w: Evidence, contract: seq<Entry>): seq<int> {
    SortedInts(w.Discoverable() + Numbers(contract))
  }

  /** The findings of `inspect_pre_merge`, in the order they are appended. */
  function Findings(w: Evidence, contract: seq<Entry>): seq<Finding> {
    SourceFindings(w) + UnknownFindings(w.Timeline())
    + AllIssueFindings(w, Inspected(w, contract), Declared(contract))
  }

  /** The findings made before any issue is read. */
  method InspectSources(w: Evidence) returns (findings: seq<Finding>)
    ensures findings == SourceFindings(w) + UnknownFindings(w.Timeline())
  {
    findings := [];
    if w.graphql.NotCollected? {
      findings := findings + [Finding(EvidenceIncompleteFound, None, GraphqlSource)];
    }
    if w.timeline.NotCollected? {
      findings := findings + [Finding(EvidenceIncompleteFound, None, TimelineSource)];
    }
    var unknown := InspectTimeline(w.Timeline());
    findings := findings + unknown;
  }

  /** The events no shape fits, in the order they are listed. */
  method InspectTimeline(timeline: seq<Observation>) returns (findings: seq<Finding>)
    ensures findings == UnknownFindings(timeline)
  {
    findings := [];
    for i := 0 to |timeline|
      invariant findings == UnknownFindings(timeline[..i])
    {
      assert timeline[..i + 1][..i] == timeline[..i];
      if timeline[i].classification.UnknownEvent? {
        findings := findings + [Finding(EvidenceIncompleteFound, timeline[i].issue, TimelineSource)];
      }
    }
    assert timeline[..|timeline|] == timeline;
  }

  /** `inspect_pre_merge` once the contract and the identities are accepted. */
  method InspectPreMerge(w: Evidence, contract: seq<Entry>) returns (findings: seq<Finding>, readiness: Readiness)
    ensures findings == SortFindings(Findings(w, contract))
    ensures readiness == Classify(Findings(w, contract))
  {
    var sources := InspectSources(w);
    var issues := InspectIssues(w, Inspected(w, contract), Declared(contract));
    findings := SortFindings(sources + issues);
    readiness := Classify(sources + issues);
  }

  /** The loop over issues. */
  method InspectIssues(w: Evidence, order: seq<int>, entries: map<int, Entry>) returns (findings: seq<Finding>)
    ensures findings == AllIssueFindings(w, order, entries)
  {
    findings := [];
    for i := 0 to |order|
      invariant findings == AllIssueFindings(w, order[..i], entries)
    {
      assert order[..i + 1][..i] == order[..i];
      var about := InspectIssue(w, order[i], entries);
      findings := findings + about;
    }
    assert order[..|order|] == order;
  }

  /** The body of the loop over issues: incomplete evidence is reported exactly for an undeclared or
      unread issue, an obstacle exactly for a wrong state or a forbidden closure, and the linkage of
      a declared issue exactly once. */
  method InspectIssue(w: Evidence, n: int, entries: map<int, Entry>) returns (findings: seq<Finding>)
    ensures findings == IssueFindings(w, n, entries)
    ensures Reports(findings, INCOMPLETE) <==> n !in entries || w.issue(n).Unavailable?
    ensures Reports(findings, BLOCKING) <==> n in entries && !IssueConforms(w, n, entries[n])
    ensures n in entries ==> LinkageReported(w, n, entries[n], About(findings, n, LINKAGE))
  {
    IssueVerdicts(w, n, entries);
    AboutIssue(w, n, entries, n, IssueFindings(w, n, entries));
    if n in entries { LinkageCode(w, n, entries[n]); }
    findings := CollectIssue(w, n, entries);
  }

  method CollectIssue(w: Evidence, n: int, entries: map<int, Entry>) returns (findings: seq<Finding>)
    ensures findings == IssueFindings(w, n, entries)
  {
    if n !in entries {
      return [Finding(RoleUndeclared, Some(n), ClosingEvidence), Finding(AuthorityMissing, Some(n), ContractSource)];
    }
    var e := entries[n];
    findings := [];
    var observed := "unknown";
    match w.issue(n) {
      case Unavailable => findings := findings + [Finding(SourceUnknown, Some(n), IssueStateSource)];
      case Read(state, _, _, _) => observed := if Filled(state) then state.value else "unknown";
    }
    if observed != e.preState {
      findings := findings + [Finding(StateMismatch, Some(n), IssueStateSource)];
    }
    var linked := w.Linked(n);
    if linked && (e.mustRemainOpen || !e.closureAuthorized) {
      findings := findings + [Finding(UnauthorizedLinkage, Some(n), BodyOrGraphql)];
    } else if linked {
      findings := findings + [Finding(AuthorizedLinkage, Some(n), BodyOrGraphql)];
    } else if n in w.Links(ClosingDevelopmentLink) && (e.mustRemainOpen || !e.closureAuthorized) {
      findings := findings + [Finding(UnauthorizedLinkage, Some(n), TimelineSource)];
    } else if n in w.Links(ClosingDevelopmentLink) {
      findings := findings + [Finding(AuthorizedLinkage, Some(n), TimelineSource)];
    } else {
      findings := findings + [Finding(NoClosingLinkage, Some(n), GithubApi)];
    }
  }

  function ReadEntries(contract: seq<Declaration>, repository: string): (entries: seq<Entry>)
    requires Valid(contract, repository)
    ensures |entries| == |contract|
    ensures forall i | 0 <= i < |contract| :: contract[i].number == Some(entries[i].number)
  {
    seq(|contract|, i requires 0 <= i < |contract| =>
      assert contract[i] in contract;
      ReadEntry(contract[i], repository))
  }

  // ---- Readiness is exact ----

  /** The shapes of event the inspector understands. */
  predicate Recognized(item: TimelineItem, isSha: string -> bool) {
    && item.event.Some?
    && (|| (item.event.value in {"cross-referenced", "connected"} && SourceIssue(item).Some?)
        || item.event.value in {"closed", "reopened"}
        || (item.event.value == "committed" && item.sha.Some? && isSha(item.sha.value)
            && item.authorDate.Some? && item.source.None? && item.closesIssue.None?))
  }

  lemma TimelineElements(w: Evidence)
    requires w.timeline.Collected?
    ensures forall o :: o in w.Timeline() <==> o in ObserveAll(w.timeline.value, w.isSha)
    ensures multiset(w.Timeline()) == multiset(ObserveAll(w.timeline.value, w.isSha))
  {
    ObservationOrder();
    SortCorrect(ObserveAll(w.timeline.value, w.isSha), ObservationLe);
  }

  ghost predicate Distinctly(contract: seq<Entry>) { NoRepeats(Numbers(contract)) }

  predicate LinkedForClosure(w: Evidence, n: int) { w.Linked(n) || n in w.Links(ClosingDevelopmentLink) }

  ghost predicate AllDeclared(w: Evidence, contract: seq<Entry>) {
    forall n | n in w.Discoverable() :: n in Numbers(contract)
  }

  ghost predicate AllRead(w: Evidence, contract: seq<Entry>) {
    forall e | e in contract :: w.issue(e.number).Read?
  }

  /** Every source answered in full, every event is understood, every issue any source mentions
      is declared, and every declared issue was read. */
  ghost predicate EvidenceComplete(w: Evidence, contract: seq<Entry>) {
    && w.graphql.Collected? && w.timeline.Collected?
    && (forall item | item in w.timeline.value :: Recognized(item, w.isSha))
    && AllDeclared(w, contract) && AllRead(w, contract)
  }

  predicate IssueConforms(w: Evidence, n: int, e: Entry) {
    w.State(n) == e.preState && (LinkedForClosure(w, n) ==> !Forbids(e))
  }

  predicate EntryConforms(w: Evidence, e: Entry) { IssueConforms(w, e.number, e) }

  /** Every declared issue is in its declared state, and none is linked for closure against its
      declaration. */
  ghost predicate Conforms(w: Evidence, contract: seq<Entry>) {
    forall e | e in contract :: EntryConforms(w, e)
  }

  lemma UnknownIsUnrecognized(item: TimelineItem, isSha: string -> bool)
    ensures Observe(item, isSha).classification.UnknownEvent? <==> !Recognized(item, isSha)
  {
  }

  /** A closing development link to issue `n`, as GitHub reports it. */
  predicate ClosesByLink(item: TimelineItem, n: int) {
    item.event == Some("connected") && item.closesIssue == Some(true) && SourceIssue(item) == Some(n)
  }

  lemma {:induction false} IssuesElements(os: seq<Observation>)
    ensures forall n :: n in Issues(os) <==> exists o :: o in os && o.issue == Some(n)
  {
    if os != [] {
      var front, last := os[..|os| - 1], os[|os| - 1];
      assert os == front + [last];
      IssuesElements(front);
    }
  }

  lemma ObservedLink(item: TimelineItem, isSha: string -> bool, n: int)
    ensures Observe(item, isSha).issue == SourceIssue(item)
    ensures Observe(item, isSha).classification.ClosingDevelopmentLink? && SourceIssue(item) == Some(n)
      <==> ClosesByLink(item, n)
  {
  }

  /** Which issues the timeline mentions, read off the events. */
  lemma TimelineMentions(items: seq<TimelineItem>, isSha: string -> bool, n: int)
    ensures n in Issues(ObserveAll(items, isSha)) <==> exists item :: item in items && SourceIssue(item) == Some(n)
  {
    var os := ObserveAll(items, isSha);
    IssuesElements(os);
    forall i | 0 <= i < |items| ensures os[i].issue == SourceIssue(items[i]) && os[i] in os && items[i] in items {
      ObservedLink(items[i], isSha, n);
    }
    if item :| item in items && SourceIssue(item) == Some(n) {
      var i :| 0 <= i < |items| && items[i] == item;
      assert os[i].issue == Some(n);
    }
    if o :| o in os && o.issue == Some(n) {
      var i :| 0 <= i < |os| && os[i] == o;
      assert SourceIssue(items[i]) == Some(n);
    }
  }

  ghost predicate SomeCloses(items: seq<TimelineItem>, n: int) {
    exists item :: item in items && ClosesByLink(item, n)
  }

  ghost predicate SomeClosing(os: seq<Observation>, n: int) {
    exists o :: o in os && o.classification.ClosingDevelopmentLink? && o.issue == Some(n)
  }

  /** Which issues the timeline links for closure, read off the events. */
  lemma TimelineCloses(items: seq<TimelineItem>, isSha: string -> bool, n: int)
    ensures SomeClosing(ObserveAll(items, isSha), n) <==> SomeCloses(items, n)
  {
    var os := ObserveAll(items, isSha);
    forall i | 0 <= i < |items|
      ensures os[i].classification.ClosingDevelopmentLink? && os[i].issue == Some(n) <==> ClosesByLink(items[i], n)
    {
      ObservedLink(items[i], isSha, n);
    }
    if SomeCloses(items, n) {
      var item :| item in items && ClosesByLink(item, n);
      var i :| 0 <= i < |items| && items[i] == item;
      assert os[i] in os;
    }
    if SomeClosing(os, n) {
      var o :| o in os && o.classification.ClosingDevelopmentLink? && o.issue == Some(n);
      var i :| 0 <= i < |os| && os[i] == o;
      assert items[i] in items;
    }
  }

  /** What is discoverable and what is linked for closure, in terms of the raw sources. */
  lemma SourcesRead(w: Evidence, n: int)
    requires w.graphql.Collected? && w.timeline.Collected?
    ensures n in w.Discoverable() <==>
      (|| n in w.bodyLinks || n in w.graphql.value
       || exists item :: item in w.timeline.value && SourceIssue(item) == Some(n))
    ensures LinkedForClosure(w, n) <==>
      n in w.bodyLinks || n in w.graphql.value || SomeCloses(w.timeline.value, n)
  {
    var os := ObserveAll(w.timeline.value, w.isSha);
    TimelineElements(w);
    IssuesElements(w.Timeline());
    IssuesElements(os);
    TimelineMentions(w.timeline.value, w.isSha, n);
    TimelineCloses(w.timeline.value, w.isSha, n);
    assert n in w.Links(ClosingDevelopmentLink) <==> SomeClosing(w.Timeline(), n);
    assert SomeClosing(w.Timeline(), n) <==> SomeClosing(os, n);
  }

  lemma ReportsConcat(a: seq<Finding>, b: seq<Finding>, codes: set<Code>)
    ensures Reports(a + b, codes) <==> Reports(a, codes) || Reports(b, codes)
  {
    if Reports(a, codes) || Reports(b, codes) {
      var f: Finding :| f.code in codes && (f in a || f in b);
      assert f in a + b;
    }
  }

  lemma {:induction false} ReportsUnknown(os: seq<Observation>, codes: set<Code>)
    ensures Reports(UnknownFindings(os), codes)
      <==> EvidenceIncompleteFound in codes && exists o :: o in os && o.classification.UnknownEvent?
  {
    if os != [] {
      var front, last := os[..|os| - 1], os[|os| - 1];
      assert os == front + [last];
      ReportsUnknown(front, codes);
      var own := if last.classification.UnknownEvent?
        then [Finding(EvidenceIncompleteFound, last.issue, TimelineSource)] else [];
      assert last.classification.UnknownEvent? ==> own[0] in own;
      ReportsConcat(UnknownFindings(front), own, codes);
    }
  }

  lemma {:induction false} ReportsIssues(w: Evidence, numbers: seq<int>, entries: map<int, Entry>, codes: set<Code>)
    ensures Reports(AllIssueFindings(w, numbers, entries), codes)
      <==> exists n :: n in numbers && Reports(IssueFindings(w, n, entries), codes)
  {
    if numbers != [] {
      var front, last := numbers[..|numbers| - 1], numbers[|numbers| - 1];
      assert numbers == front + [last];
      ReportsIssues(w, front, entries, codes);
      ReportsConcat(AllIssueFindings(w, front, entries), IssueFindings(w, last, entries), codes);
    }
  }

  lemma {:induction false} DeclaredLookup(contract: seq<Entry>)
    ensures Declared(contract).Keys == set n | n in Numbers(contract)
    ensures Distinctly(contract) ==> forall e | e in contract :: Declared(contract)[e.number] == e
  {
    if contract != [] {
      var front, last := contract[..|contract| - 1], contract[|contract| - 1];
      DeclaredLookup(front);
      assert contract == front + [last];
      assert Numbers(contract) == Numbers(front) + [last.number];
      if Distinctly(contract) {
        forall e | e in front ensures e.number != last.number {
          var i :| 0 <= i < |front| && front[i] == e;
          assert Numbers(contract)[i] == e.number;
        }
      }
    }
  }

  lemma IssueVerdicts(w: Evidence, n: int, entries: map<int, Entry>)
    ensures Reports(IssueFindings(w, n, entries), INCOMPLETE) <==> n !in entries || w.issue(n).Unavailable?
    ensures Reports(IssueFindings(w, n, entries), BLOCKING)
      <==> n in entries && !IssueConforms(w, n, entries[n])
  {
    var fs := IssueFindings(w, n, entries);
    if n !in entries {
      assert fs[0].code == RoleUndeclared;
    } else {
      var unread := if w.issue(n).Unavailable? then [Finding(SourceUnknown, Some(n), IssueStateSource)] else [];
      var moved := if w.State(n) != entries[n].preState
        then [Finding(StateMismatch, Some(n), IssueStateSource)] else [];
      var link := LinkageFinding(w, n, entries[n]);
      assert unread != [] ==> unread[0] in fs;
      assert moved != [] ==> moved[0] in fs;
      assert link in fs;
    }
  }

  lemma SourceVerdicts(w: Evidence)
    ensures Reports(SourceFindings(w), INCOMPLETE) <==> w.graphql.NotCollected? || w.timeline.NotCollected?
    ensures !Reports(SourceFindings(w), BLOCKING)
  {
    var fs := SourceFindings(w);
    if w.graphql.NotCollected? || w.timeline.NotCollected? {
      assert fs[0].code == EvidenceIncompleteFound;
    }
  }

  ghost predicate IssuesReport(w: Evidence, contract: seq<Entry>, codes: set<Code>) {
    exists n :: n in Inspected(w, contract) && Reports(IssueFindings(w, n, Declared(contract)), codes)
  }

  lemma FindingsReport(w: Evidence, contract: seq<Entry>, codes: set<Code>)
    ensures Reports(Findings(w, contract), codes) <==>
      (|| Reports(SourceFindings(w), codes)
       || (EvidenceIncompleteFound in codes && exists o :: o in w.Timeline() && o.classification.UnknownEvent?)
       || IssuesReport(w, contract, codes))
  {
    var a, b := SourceFindings(w), UnknownFindings(w.Timeline());
    var c := AllIssueFindings(w, Inspected(w, contract), Declared(contract));
    ReportsConcat(a, b, codes);
    ReportsConcat(a + b, c, codes);
    ReportsUnknown(w.Timeline(), codes);
    ReportsIssues(w, Inspected(w, contract), Declared(contract), codes);
  }

  lemma TimelineUnderstood(w: Evidence)
    requires w.timeline.Collected?
    ensures (exists o :: o in w.Timeline() && o.classification.UnknownEvent?)
      <==> !(forall item | item in w.timeline.value :: Recognized(item, w.isSha))
  {
    var items, os := w.timeline.value, ObserveAll(w.timeline.value, w.isSha);
    TimelineElements(w);
    forall i | 0 <= i < |items| ensures os[i].classification.UnknownEvent? <==> !Recognized(items[i], w.isSha) {
      UnknownIsUnrecognized(items[i], w.isSha);
    }
    if item :| item in items && !Recognized(item, w.isSha) {
      var i :| 0 <= i < |items| && items[i] == item;
      assert os[i] in os;
    }
    if o :| o in os && o.classification.UnknownEvent? {
      var i :| 0 <= i < |os| && os[i] == o;
      assert items[i] in items;
    }
  }

  lemma InspectedElements(w: Evidence, contract: seq<Entry>)
    ensures Ascending(Inspected(w, contract))
    ensures forall n :: n in Inspected(w, contract) <==> n in w.Discoverable() || n in Numbers(contract)
  {
    SortedIntsElements(w.Discoverable() + Numbers(contract));
  }

  lemma NumberOf(contract: seq<Entry>, e: Entry)
    requires e in contract
    ensures e.number in Numbers(contract)
  {
    var i :| 0 <= i < |contract| && contract[i] == e;
    assert Numbers(contract)[i] == e.number;
  }

  lemma EntryOf(contract: seq<Entry>, n: int) returns (e: Entry)
    requires n in Numbers(contract)
    ensures e in contract && e.number == n
  {
    var i :| 0 <= i < |contract| && Numbers(contract)[i] == n;
    e := contract[i];
  }

  lemma IncompleteIssue(w: Evidence, contract: seq<Entry>)
    requires IssuesReport(w, contract, INCOMPLETE)
    ensures !AllDeclared(w, contract) || !AllRead(w, contract)
  {
    InspectedElements(w, contract);
    DeclaredLookup(contract);
    var n :| n in Inspected(w, contract) && Reports(IssueFindings(w, n, Declared(contract)), INCOMPLETE);
    IssueVerdicts(w, n, Declared(contract));
    if n in Numbers(contract) {
      var e := EntryOf(contract, n);
    }
  }

  lemma IssuesIncomplete(w: Evidence, contract: seq<Entry>)
    ensures IssuesReport(w, contract, INCOMPLETE) <==> !AllDeclared(w, contract) || !AllRead(w, contract)
  {
    InspectedElements(w, contract);
    if IssuesReport(w, contract, INCOMPLETE) {
      IncompleteIssue(w, contract);
    } else if n :| n in w.Discoverable() && n !in Numbers(contract) {
      DeclaredLookup(contract);
      IssueVerdicts(w, n, Declared(contract));
    } else if e :| e in contract && w.issue(e.number).Unavailable? {
      NumberOf(contract, e);
      IssueVerdicts(w, e.number, Declared(contract));
    }
  }

  lemma IssuesBlocked(w: Evidence, contract: seq<Entry>)
    requires Distinctly(contract)
    ensures IssuesReport(w, contract, BLOCKING) <==> !Conforms(w, contract)
  {
    InspectedElements(w, contract);
    DeclaredLookup(contract);
    if IssuesReport(w, contract, BLOCKING) {
      var n :| n in Inspected(w, contract) && Reports(IssueFindings(w, n, Declared(contract)), BLOCKING);
      IssueVerdicts(w, n, Declared(contract));
      var e := EntryOf(contract, n);
    }
    if e :| e in contract && !EntryConforms(w, e) {
      NumberOf(contract, e);
      IssueVerdicts(w, e.number, Declared(contract));
    }
  }

  /** Ready means exactly: the evidence is complete and every declared issue conforms.  Incomplete
      evidence dominates, whatever else was found. */
  lemma ReadinessExact(w: Evidence, contract: seq<Entry>)
    requires Distinctly(contract)
    ensures var readiness := Classify(Findings(w, contract));
      && (readiness == Ready <==> EvidenceComplete(w, contract) && Conforms(w, contract))
      && (readiness == EvidenceIncomplete <==> !EvidenceComplete(w, contract))
  {
    FindingsReport(w, contract, INCOMPLETE);
    FindingsReport(w, contract, BLOCKING);
    SourceVerdicts(w);
    if w.timeline.Collected? { TimelineUnderstood(w); }
    IssuesIncomplete(w, contract);
    IssuesBlocked(w, contract);
  }

  // ---- One linkage finding per declared issue ----

  /** The findings with one of the codes about issue `n`. */
  function About(findings: seq<Finding>, n: int, codes: set<Code>): seq<Finding> {
    if findings == [] then []
    else
      var last := findings[|findings| - 1];
      About(findings[..|findings| - 1], n, codes) + if last.code in codes && last.issue == Some(n) then [last] else []
  }

  lemma {:induction false} AboutConcat(a: seq<Finding>, b: seq<Finding>, n: int, codes: set<Code>)
    ensures About(a + b, n, codes) == About(a, n, codes) + About(b, n, codes)
  {
    if b == [] {
      assert a + b == a;
    } else {
      AboutConcat(a, b[..|b| - 1], n, codes);
      assert (a + b)[..|a + b| - 1] == a + b[..|b| - 1];
    }
  }

  lemma {:induction false} AboutNone(findings: seq<Finding>, n: int, codes: set<Code>)
    requires forall f | f in findings :: f.code !in codes || f.issue != Some(n)
    ensures About(findings, n, codes) == []
  {
    if findings != [] {
      assert findings[|findings| - 1] in findings;
      AboutNone(findings[..|findings| - 1], n, codes);
    }
  }

  lemma IssueOwn(w: Evidence, m: int, entries: map<int, Entry>)
    ensures forall f | f in IssueFindings(w, m, entries) :: f.issue == Some(m)
    ensures m !in entries ==> forall f | f in IssueFindings(w, m, entries) :: f.code !in LINKAGE
  {
  }

  lemma LinkageLast(w: Evidence, n: int, entries: map<int, Entry>) returns (front: seq<Finding>)
    requires n in entries
    ensures IssueFindings(w, n, entries) == front + [LinkageFinding(w, n, entries[n])]
    ensures forall f | f in front :: f.code !in LINKAGE
  {
    front := (if w.issue(n).Unavailable? then [Finding(SourceUnknown, Some(n), IssueStateSource)] else [])
      + (if w.State(n) != entries[n].preState then [Finding(StateMismatch, Some(n), IssueStateSource)] else []);
  }

  lemma AboutLast(front: seq<Finding>, last: Finding, n: int, codes: set<Code>)
    requires forall f | f in front :: f.code !in codes
    requires last.issue == Some(n) && last.code in codes
    ensures About(front + [last], n, codes) == [last]
  {
    AboutNone(front, n, codes);
    assert (front + [last])[..|front + [last]| - 1] == front;
  }

  lemma AboutIssue(w: Evidence, m: int, entries: map<int, Entry>, n: int, fs: seq<Finding>)
    requires fs == IssueFindings(w, m, entries)
    ensures About(fs, n, LINKAGE) == if m == n && n in entries then [LinkageFinding(w, n, entries[n])] else []
  {
    IssueOwn(w, m, entries);
    if m == n && n in entries {
      var front := LinkageLast(w, n, entries);
      AboutLast(front, LinkageFinding(w, n, entries[n]), n, LINKAGE);
    } else {
      AboutNone(fs, n, LINKAGE);
    }
  }

  lemma {:induction false} AboutIssues(w: Evidence, numbers: seq<int>, entries: map<int, Entry>, n: int)
    requires Ascending(numbers)
    ensures About(AllIssueFindings(w, numbers, entries), n, LINKAGE)
         == if n in numbers && n in entries then [LinkageFinding(w, n, entries[n])] else []
  {
    if numbers != [] {
      var front, last := numbers[..|numbers| - 1], numbers[|numbers| - 1];
      assert numbers == front + [last];
      assert n in numbers <==> n in front || n == last;
      assert n == last ==> n !in front;
      AboutIssues(w, front, entries, n);
      AboutIssue(w, last, entries, n, IssueFindings(w, last, entries));
      AboutConcat(AllIssueFindings(w, front, entries), IssueFindings(w, last, entries), n, LINKAGE);
    }
  }

  lemma {:induction false} UnknownNoLinkage(os: seq<Observation>)
    ensures forall f | f in UnknownFindings(os) :: f.code !in LINKAGE
  {
    if os != [] {
      UnknownNoLinkage(os[..|os| - 1]);
    }
  }

  lemma LinkageCode(w: Evidence, n: int, e: Entry)
    ensures LinkageFinding(w, n, e).code == UnauthorizedLinkage <==> LinkedForClosure(w, n) && Forbids(e)
    ensures LinkageFinding(w, n, e).code == AuthorizedLinkage <==> LinkedForClosure(w, n) && !Forbids(e)
    ensures LinkageFinding(w, n, e).code == NoClosingLinkage <==> !LinkedForClosure(w, n)
  {
  }

  /** The one linkage finding about issue `n`, by whether it is linked for closure and may be. */
  ghost predicate LinkageReported(w: Evidence, n: int, e: Entry, about: seq<Finding>) {
    && |about| == 1
    && (about[0].code == UnauthorizedLinkage <==> LinkedForClosure(w, n) && Forbids(e))
    && (about[0].code == AuthorizedLinkage <==> LinkedForClosure(w, n) && !Forbids(e))
    && (about[0].code == NoClosingLinkage <==> !LinkedForClosure(w, n))
  }

  /** Every declared issue gets exactly one linkage finding, which says whether it is linked for
      closure and whether that was declared, and an undeclared one gets none. */
  lemma OneLinkageFinding(w: Evidence, contract: seq<Entry>, n: int)
    requires Distinctly(contract)
    ensures forall e | e in contract && e.number == n ::
      LinkageReported(w, n, e, About(Findings(w, contract), n, LINKAGE))
    ensures n !in Numbers(contract) ==> About(Findings(w, contract), n, LINKAGE) == []
  {
    var a, b := SourceFindings(w), UnknownFindings(w.Timeline());
    var c := AllIssueFindings(w, Inspected(w, contract), Declared(contract));
    UnknownNoLinkage(w.Timeline());
    AboutNone(a + b, n, LINKAGE);
    AboutConcat(a + b, c, n, LINKAGE);
    InspectedElements(w, contract);
    AboutIssues(w, Inspected(w, contract), Declared(contract), n);
    DeclaredLookup(contract);
    forall e | e in contract && e.number == n
      ensures LinkageReported(w, n, e, About(Findings(w, contract), n, LINKAGE))
    {
      NumberOf(contract, e);
      LinkageCode(w, n, e);
    }
  }

  // ---- Sorting the findings ----

  lemma SortedElements(findings: seq<Finding>)
    ensures SortedBy(SortFindings(findings), FindingLe)
    ensures multiset(SortFindings(findings)) == multiset(findings)
    ensures forall f :: f in SortFindings(findings) <==> f in findings
  {
    FindingOrder();
    SortCorrect(findings, FindingLe);
  }

  /** Sorting changes neither what is reported nor the readiness. */
  lemma SortedReports(findings: seq<Finding>, codes: set<Code>)
    ensures Reports(SortFindings(findings), codes) <==> Reports(findings, codes)
    ensures Classify(SortFindings(findings)) == Classify(findings)
  {
    SortedElements(findings);
  }

  lemma AboutAround(l: seq<Finding>, f: Finding, r: seq<Finding>, n: int, codes: set<Code>)
    ensures multiset(About(l + [f] + r, n, codes)) == multiset(About(l + r, n, codes)) + multiset(About([f], n, codes))
  {
    AboutConcat(l + [f], r, n, codes);
    AboutConcat(l, [f], n, codes);
    AboutConcat(l, r, n, codes);
  }

  lemma {:induction false} AboutPermutes(a: seq<Finding>, b: seq<Finding>, n: int, codes: set<Code>)
    requires multiset(a) == multiset(b)
    ensures multiset(About(a, n, codes)) == multiset(About(b, n, codes))
  {
    if a == [] {
      EmptyContents(b);
    } else {
      var f, front := a[|a| - 1], a[..|a| - 1];
      assert a == front + [f];
      assert f in multiset(a);
      var l, r := RemoveOne(b, f);
      AboutPermutes(front, l + r, n, codes);
      AboutConcat(front, [f], n, codes);
      AboutAround(l, f, r, n, codes);
    }
  }

  /** A list of one is the same list in any order. */
  lemma OnlyOrder<T>(x: seq<T>, y: seq<T>)
    requires multiset(x) == multiset(y) && |x| == 1
    ensures x == y
  {
    assert |x| == |multiset(x)| == |multiset(y)| == |y|;
    assert x[0] in multiset(y);
  }

  lemma SortedAbout(findings: seq<Finding>, n: int, codes: set<Code>)
    requires |About(findings, n, codes)| == 1
    ensures About(SortFindings(findings), n, codes) == About(findings, n, codes)
  {
    SortedElements(findings);
    AboutPermutes(findings, SortFindings(findings), n, codes);
    OnlyOrder(About(findings, n, codes), About(SortFindings(findings), n, codes));
  }
}
