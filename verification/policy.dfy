/** The evidence-reuse policy evaluator: from one caller inventory to ready or blocked. */
module Policy {
  import opened Options
  import opened Ordering
  import opened Text

  /** The impact classes, in the order of their names. */
  datatype ImpactClass =
    | ApplicationImplementation
    | DatabaseOrMigration
    | DeploymentOrInfrastructure
    | DocumentationOnly
    | EvidenceOnlyMetadata
    | IngestionOrSourceContract
    | SchemaOrGovernanceValidator
    | SecurityOrPrivacy
    | TestOnly
    | Unknown
    | WorkflowOrRequiredCheckContract

  function Rank(c: ImpactClass): nat {
    match c
    case ApplicationImplementation => 0
    case DatabaseOrMigration => 1
    case DeploymentOrInfrastructure => 2
    case DocumentationOnly => 3
    case EvidenceOnlyMetadata => 4
    case IngestionOrSourceContract => 5
    case SchemaOrGovernanceValidator => 6
    case SecurityOrPrivacy => 7
    case TestOnly => 8
    case Unknown => 9
    case WorkflowOrRequiredCheckContract => 10
  }

  datatype Rule = Rule(path: string, impactClass: ImpactClass)

  /** The parts of the policy file the evaluator reads, the hash, and the path pattern. */
  datatype Rulebook = Rulebook(
    rules: seq<Rule>, requiredChecks: seq<string>, disclosures: seq<string>,
    sha: string -> string, pathOk: string -> bool)

  datatype Identity = Identity(
    repository: string, number: int, baseRef: string, baseSha: string, headRef: string,
    headSha: string, treeSha: string, inventoryHash: string, policyVersion: string,
    schemaVersion: string, validatorVersion: string, boundary: seq<string>,
    dependencyDigest: Option<string>, bodyHash: Option<string>)

  datatype EvidenceState = Retained | Fresh | Live | Superseded | Invalidated

  datatype Evidence = Evidence(
    id: string, state: EvidenceState, purpose: string, identity: Identity, bodyDependent: bool,
    references: seq<string>)

  datatype Status = Success | Failure | Pending

  datatype CheckRun = CheckRun(
    check: string, runId: int, jobId: int, status: Status, conclusion: Option<string>,
    headSha: string, treeSha: string, inventoryHash: string, bodyHash: Option<string>)

  /** A schema-valid policy input. */
  datatype Input = Input(
    state: Identity, complete: bool, paths: seq<string>, dependencyKnown: bool,
    dependencyDigest: Option<string>, evidence: seq<Evidence>, runs: seq<CheckRun>)

  datatype Code =
    | InvalidPath
    | NondeterministicInventory
    | InventoryHashMismatch
    | IncompleteInventory
    | UnknownClass
    | UncertainDependency
    | RunTie(check: string)
    | Unobserved(check: string)
    | InputMismatch(check: string)
    | ConclusionMismatch(check: string)
    | PendingCheck(check: string)
    | FailedCheck(check: string)
    | FailureSupersedes(check: string)
    | DuplicatesCompressed(check: string)
    | EvidenceInvalidated(id: string, field: string)

  function Render(c: Code): string {
    match c
    case InvalidPath => "INVALID_CHANGED_FILE_PATH"
    case NondeterministicInventory => "NONDETERMINISTIC_CHANGED_FILE_INVENTORY"
    case InventoryHashMismatch => "CHANGED_FILE_INVENTORY_HASH_MISMATCH"
    case IncompleteInventory => "INCOMPLETE_CHANGED_FILE_INVENTORY"
    case UnknownClass => "UNKNOWN_CHANGE_CLASS"
    case UncertainDependency => "UNCERTAIN_DEPENDENCY_STATE"
    case RunTie(check) => "AMBIGUOUS_REQUIRED_CHECK_RUN_TIE:" + check
    case Unobserved(check) => "REQUIRED_CHECK_UNOBSERVED:" + check
    case InputMismatch(check) => "REQUIRED_CHECK_INPUT_MISMATCH:" + check
    case ConclusionMismatch(check) => "REQUIRED_CHECK_CONCLUSION_MISMATCH:" + check
    case PendingCheck(check) => "REQUIRED_CHECK_PENDING:" + check
    case FailedCheck(check) => "REQUIRED_CHECK_FAILED:" + check
    case FailureSupersedes(check) => "NEWER_FAILED_RUN_SUPERSEDES_SUCCESS:" + check
    case DuplicatesCompressed(check) => "DUPLICATE_SUCCESSFUL_RUNS_COMPRESSED:" + check
    case EvidenceInvalidated(id, field) => "EVIDENCE_INVALIDATED:" + id + ":" + field
  }

  function RenderAll(codes: seq<Code>): seq<string> {
    seq(|codes|, i requires 0 <= i < |codes| => Render(codes[i]))
  }

  // ---- Changed paths ----

  predicate Applies(rule: Rule, path: string) {
    || path == rule.path
    || (rule.path != [] && rule.path[|rule.path| - 1] == '/' && rule.path <= path)
  }

  /** Python's order on `(len(prefix), impact_class)` pairs. */
  predicate Outranks(a: (nat, ImpactClass), b: (nat, ImpactClass)) {
    a.0 > b.0 || (a.0 == b.0 && Rank(a.1) > Rank(b.1))
  }

  /** `max(matches, default=(0, "unknown"))`, when the rules are read front to back. */
  function BestMatch(path: string, rules: seq<Rule>): Option<(nat, ImpactClass)> {
    if rules == [] then None
    else
      var best, rule := BestMatch(path, rules[..|rules| - 1]), rules[|rules| - 1];
      if !Applies(rule, path) then best
      else if best.None? || Outranks((|rule.path|, rule.impactClass), best.value)
      then Some((|rule.path|, rule.impactClass)) else best
  }

  function ClassifyPath(path: string, rules: seq<Rule>): ImpactClass {
    var best := BestMatch(path, rules);
    if best.None? then Unknown else best.value.1
  }

  method CollectBestMatch(path: string, rules: seq<Rule>) returns (c: ImpactClass)
    ensures c == ClassifyPath(path, rules)
  {
    var matches: seq<(nat, ImpactClass)> := [];
    var best: Option<(nat, ImpactClass)> := None;
    for i := 0 to |rules|
      invariant best == BestMatch(path, rules[..i])
    {
      assert rules[..i + 1][..i] == rules[..i];
      if Applies(rules[i], path) {
        var found := (|rules[i].path|, rules[i].impactClass);
        if best.None? || Outranks(found, best.value) {
          best := Some(found);
        }
      }
    }
    assert rules[..|rules|] == rules;
    c := if best.None? then Unknown else best.value.1;
  }

  function Classes(paths: seq<string>, rules: seq<Rule>): set<ImpactClass> {
    set p | p in paths :: ClassifyPath(p, rules)
  }

  /** `_validate_paths` on a list of strings. */
  function PathErrors(paths: seq<string>, pathOk: string -> bool): seq<Code> {
    (if exists p | p in paths :: !pathOk(p) then [InvalidPath] else [])
    + (if paths != Sort(paths, StringLe) || Distinct(paths) != paths then [NondeterministicInventory] else [])
  }

  datatype Requirements = Requirements(
    focused: set<string>, fullSuite: bool, docs: bool, workflow: bool, sensitive: bool, liveEvidence: bool,
    bodyRegeneration: bool, independentReview: bool, boundaryDisclosure: bool, terminalChecks: bool,
    reusePermitted: bool, unknownScope: bool)

  function Focus(c: ImpactClass): set<string> {
    match c
    case EvidenceOnlyMetadata => {"evidence_metadata"}
    case DocumentationOnly => {"documentation", "whitespace"}
    case TestOnly => {"affected_regression", "owning_test_collection"}
    case SchemaOrGovernanceValidator => {"schema_or_governance_validator"}
    case ApplicationImplementation => {"affected_application"}
    case IngestionOrSourceContract => {"source_contract"}
    case DatabaseOrMigration => {"schema_or_migration"}
    case SecurityOrPrivacy => {"security_or_privacy"}
    case WorkflowOrRequiredCheckContract => {"workflow_contract"}
    case DeploymentOrInfrastructure => {"infrastructure"}
    case Unknown => {}
  }

  const FULL_SUITE := {
    SchemaOrGovernanceValidator, ApplicationImplementation, IngestionOrSourceContract, DatabaseOrMigration,
    SecurityOrPrivacy, WorkflowOrRequiredCheckContract, DeploymentOrInfrastructure}

  const SENSITIVE := {SecurityOrPrivacy, WorkflowOrRequiredCheckContract, SchemaOrGovernanceValidator}

  function StrictRequirements(classes: set<ImpactClass>): Requirements {
    Requirements(
      set c, f | c in classes && f in Focus(c) :: f,
      classes * FULL_SUITE != {},
      DocumentationOnly in classes || SchemaOrGovernanceValidator in classes,
      WorkflowOrRequiredCheckContract in classes || SchemaOrGovernanceValidator in classes,
      classes * SENSITIVE != {},
      true,
      EvidenceOnlyMetadata in classes,
      classes - {EvidenceOnlyMetadata, DocumentationOnly} != {},
      classes - {EvidenceOnlyMetadata, DocumentationOnly} != {},
      true,
      Unknown !in classes,
      Unknown in classes)
  }

  // ---- Required check runs ----

  function Id(r: CheckRun): (int, int) { (r.runId, r.jobId) }

  predicate IdLe(r: CheckRun, s: CheckRun) {
    r.runId < s.runId || (r.runId == s.runId && r.jobId <= s.jobId)
  }

  function RunsOf(runs: seq<CheckRun>, check: string): seq<CheckRun> {
    if runs == [] then []
    else
      var front, last := RunsOf(runs[..|runs| - 1], check), runs[|runs| - 1];
      if last.check == check then front + [last] else front
  }

  /** Two different runs of one identity. */
  ghost predicate Tied(runs: seq<CheckRun>) {
    exists r, s :: r in runs && s in runs && Id(r) == Id(s) && r != s
  }

  /** The check's distinct runs, oldest first. */
  function Ordered(observed: seq<CheckRun>): seq<CheckRun> {
    Sort(Distinct(observed), IdLe)
  }

  datatype Verdict = InputsDiffer | ConclusionDiffers | StillPending | Failed | Passed

  predicate SameInputs(r: CheckRun, current: Identity) {
    && r.headSha == current.headSha && r.treeSha == current.treeSha
    && r.inventoryHash == current.inventoryHash && r.bodyHash == current.bodyHash
  }

  function Judge(newest: CheckRun, current: Identity): Verdict {
    if !SameInputs(newest, current) then InputsDiffer
    else if newest.status == Success && newest.conclusion != Some("success") then ConclusionDiffers
    else if newest.status == Pending && newest.conclusion != None then ConclusionDiffers
    else if newest.status == Failure && (newest.conclusion == None || newest.conclusion == Some("success"))
    then ConclusionDiffers
    else if newest.status == Pending then StillPending
    else if newest.status == Failure then Failed
    else Passed
  }

  datatype RunRef = RunRef(check: string, runId: int, jobId: int)

  function Refs(runs: seq<CheckRun>): seq<RunRef> {
    seq(|runs|, i requires 0 <= i < |runs| => RunRef(runs[i].check, runs[i].runId, runs[i].jobId))
  }

  datatype Obligations = Obligations(
    retained: seq<RunRef>, superseded: seq<RunRef>, blockers: seq<Code>, reasons: seq<Code>)
  {
    function Plus(o: Obligations): Obligations {
      Obligations(retained + o.retained, superseded + o.superseded, blockers + o.blockers, reasons + o.reasons)
    }
  }

  const NO_OBLIGATIONS := Obligations([], [], [], [])

  function VerdictObligations(v: Verdict, newest: CheckRun): Obligations {
    var check := newest.check;
    match v
    case InputsDiffer => Obligations([], [], [InputMismatch(check)], [InputMismatch(check)])
    case ConclusionDiffers => Obligations([], [], [ConclusionMismatch(check)], [ConclusionMismatch(check)])
    case StillPending => Obligations([], [], [PendingCheck(check)], [])
    case Failed => Obligations([], [], [FailedCheck(check)], [FailureSupersedes(check)])
    case Passed => Obligations(Refs([newest]), [], [], [])
  }

  predicate AllSucceeded(runs: seq<CheckRun>) {
    forall i | 0 <= i < |runs| :: runs[i].status == Success
  }

  /** The older distinct runs of an observed, untied check. */
  function HistoryObligations(ordered: seq<CheckRun>): Obligations
    requires ordered != []
  {
    var newest := ordered[|ordered| - 1];
    if |ordered| > 1 then
      Obligations([], Refs(ordered[..|ordered| - 1]), [],
                  if AllSucceeded(ordered) then [DuplicatesCompressed(newest.check)] else [])
    else NO_OBLIGATIONS
  }

  ghost function CheckObligations(runs: seq<CheckRun>, check: string, current: Identity): Obligations {
    var observed := RunsOf(runs, check);
    var ordered := Ordered(observed);
    if Tied(observed) then Obligations([], [], [RunTie(check)], [])
    else if ordered == [] then Obligations([], [], [Unobserved(check)], [])
    else
      var newest := ordered[|ordered| - 1];
      VerdictObligations(Judge(newest, current), newest).Plus(HistoryObligations(ordered))
  }

  ghost function RunObligations(runs: seq<CheckRun>, checks: seq<string>, current: Identity): Obligations {
    if checks == [] then NO_OBLIGATIONS
    else RunObligations(runs, checks[..|checks| - 1], current)
         .Plus(CheckObligations(runs, checks[|checks| - 1], current))
  }

  // ---- Evidence ----

  function Differs<T(==)>(prior: T, current: T, field: string): seq<string> {
    if prior != current then [field] else []
  }

  /** The fields on which an evidence identity has changed, in the source's order. */
  function ChangedFields(e: Evidence, current: Identity): seq<string> {
    var prior := e.identity;
    Differs(prior.repository, current.repository, "repository")
    + Differs(prior.number, current.number, "pull_request_number")
    + Differs(prior.baseRef, current.baseRef, "base_ref")
    + Differs(prior.baseSha, current.baseSha, "base_sha")
    + Differs(prior.headRef, current.headRef, "head_ref")
    + Differs(prior.headSha, current.headSha, "head_sha")
    + Differs(prior.treeSha, current.treeSha, "tree_sha")
    + Differs(prior.inventoryHash, current.inventoryHash, "changed_file_inventory_hash")
    + Differs(prior.policyVersion, current.policyVersion, "policy_version")
    + Differs(prior.schemaVersion, current.schemaVersion, "schema_version")
    + Differs(prior.validatorVersion, current.validatorVersion, "validator_version")
    + Differs(prior.boundary, current.boundary, "governed_boundary_classification")
    + Differs(prior.dependencyDigest, current.dependencyDigest, "dependency_state_digest")
    + (if e.bodyDependent then Differs(prior.bodyHash, current.bodyHash, "pr_body_hash") else [])
  }

  predicate EvidenceLe(a: Evidence, b: Evidence) { StringLe(a.id, b.id) }

  datatype Fate = Reuse | Recollect | Invalidate(fields: seq<string>)

  function FateOf(e: Evidence, current: Identity, permitted: bool): Fate {
    var changed := ChangedFields(e, current);
    if e.state == Fresh && changed == [] && permitted then Reuse
    else if e.state == Live then Recollect
    else Invalidate(if changed == [] then ["evidence_state"] else changed)
  }

  /** What becomes of each evidence item. */
  type Fates = Evidence -> Fate

  function FatesOf(current: Identity, permitted: bool): Fates { e => FateOf(e, current, permitted) }

  /** All the result keeps of an evidence item. */
  datatype Reference = Reference(id: string, references: seq<string>)

  function ReferenceTo(e: Evidence): Reference { Reference(e.id, e.references) }

  datatype Sifted = Sifted(reused: seq<Reference>, recollected: seq<Reference>,
                           invalidated: seq<(Reference, seq<string>)>, reasons: seq<Code>)

  function InvalidationReasons(id: string, fields: seq<string>): seq<Code> {
    seq(|fields|, i requires 0 <= i < |fields| => EvidenceInvalidated(id, fields[i]))
  }

  function Sift(evidence: seq<Evidence>, fates: Fates): Sifted {
    if evidence == [] then Sifted([], [], [], [])
    else
      var front, e := Sift(evidence[..|evidence| - 1], fates), evidence[|evidence| - 1];
      match fates(e)
      case Reuse => front.(reused := front.reused + [ReferenceTo(e)])
      case Recollect => front.(recollected := front.recollected + [ReferenceTo(e)])
      case Invalidate(fields) =>
        front.(invalidated := front.invalidated + [(ReferenceTo(e), fields)],
               reasons := front.reasons + InvalidationReasons(e.id, fields))
  }

  // ---- The evaluator ----

  /** `repository_state` echoes the input; the constant lists of the source's result are left out. */
  datatype Result = Result(
    ready: bool, state: Identity, complete: bool, inventoryHash: string, paths: seq<string>,
    classes: set<ImpactClass>, requirements: Requirements, reused: seq<Reference>, retainedRuns: seq<RunRef>,
    recollected: seq<Reference>, supersededRuns: seq<RunRef>, invalidated: seq<(Reference, seq<string>)>,
    blockers: seq<string>, disclosures: seq<string>, reasons: seq<string>)

  /** Blockers that do not depend on evidence or check runs. */
  function ScopeBlockers(book: Rulebook, input: Input): seq<Code> {
      PathErrors(input.paths, book.pathOk)
    + (if input.state.inventoryHash != book.sha(JoinLines(input.paths)) then [InventoryHashMismatch] else [])
    + (if !input.complete then [IncompleteInventory] else [])
    + (if Unknown in Classes(input.paths, book.rules) then [UnknownClass] else [])
    + (if !input.dependencyKnown || input.dependencyDigest == None || input.dependencyDigest == Some("")
       then [UncertainDependency] else [])
  }

  function ScopeRequirements(book: Rulebook, input: Input): Requirements {
    var r := StrictRequirements(Classes(input.paths, book.rules));
    r.(reusePermitted := r.reusePermitted && ScopeBlockers(book, input) == [])
  }

  function Assemble(book: Rulebook, input: Input, sifted: Sifted, o: Obligations): Result {
    var blockers := ScopeBlockers(book, input) + o.blockers;
    var reasons := ScopeBlockers(book, input) + sifted.reasons + o.reasons;
    var classes := Classes(input.paths, book.rules);
    Result(
      blockers == [], input.state, input.complete, book.sha(JoinLines(input.paths)), input.paths,
      if classes == {} then {Unknown} else classes, ScopeRequirements(book, input),
      sifted.reused, o.retained, sifted.recollected, o.superseded, sifted.invalidated,
      SortedSet(RenderAll(blockers)), book.disclosures,
      if reasons == [] then ["POLICY_DECISION_COMPLETE"] else SortedSet(RenderAll(reasons)))
  }

  ghost function Evaluation(book: Rulebook, input: Input): Result {
    var permitted := ScopeRequirements(book, input).reusePermitted;
    Assemble(book, input, Sift(Sort(input.evidence, EvidenceLe), FatesOf(input.state, permitted)),
             RunObligations(input.runs, book.requiredChecks, input.state))
  }

  // ---- The program ----

  lemma DistinctSnoc(front: seq<CheckRun>, last: CheckRun)
    ensures Distinct(front + [last]) == if last in front then Distinct(front) else Distinct(front) + [last]
  {
    var s := front + [last];
    assert s[..|s| - 1] == front;
    DistinctElements(front);
  }

  lemma TiedSnoc(front: seq<CheckRun>, last: CheckRun)
    ensures Tied(front + [last]) <==> Tied(front) || exists r :: r in front && Id(r) == Id(last) && r != last
  {
    var s := front + [last];
    assert forall r :: r in s <==> r in front || r == last;
    if Tied(s) && !Tied(front) {
      var x, y :| x in s && y in s && Id(x) == Id(y) && x != y;
      assert (x in front && y == last) || (y in front && x == last);
    }
  }

  /** A dictionary of runs by identity that covers `front`. */
  ghost predicate Covers(byIdentity: map<(int, int), CheckRun>, front: seq<CheckRun>) {
    && (forall id | id in byIdentity :: byIdentity[id] in front && Id(byIdentity[id]) == id)
    && (forall r | r in front :: Id(r) in byIdentity)
  }

  predicate Clashes(byIdentity: map<(int, int), CheckRun>, run: CheckRun) {
    Id(run) in byIdentity && byIdentity[Id(run)] != run
  }

  lemma CoversStep(byIdentity: map<(int, int), CheckRun>, front: seq<CheckRun>, run: CheckRun)
    requires Covers(byIdentity, front)
    ensures Covers(if Clashes(byIdentity, run) then byIdentity else byIdentity[Id(run) := run], front + [run])
  {
  }

  lemma ClashIsTie(byIdentity: map<(int, int), CheckRun>, front: seq<CheckRun>, run: CheckRun)
    requires Covers(byIdentity, front)
    ensures Tied(front + [run]) <==> Tied(front) || Clashes(byIdentity, run)
    ensures !Tied(front + [run]) ==> (Id(run) in byIdentity <==> run in front)
  {
    TiedSnoc(front, run);
  }

  /** What the dictionary, its values and the conflicts found say about the runs read. */
  ghost predicate Indexed(
    byIdentity: map<(int, int), CheckRun>, values: seq<CheckRun>, conflicts: nat, front: seq<CheckRun>)
  {
    && Covers(byIdentity, front)
    && (conflicts > 0 <==> Tied(front))
    && (conflicts == 0 ==> values == Distinct(front))
  }

  lemma IndexStep(
      byIdentity: map<(int, int), CheckRun>, values: seq<CheckRun>, conflicts: nat, front: seq<CheckRun>,
      run: CheckRun)
    requires Indexed(byIdentity, values, conflicts, front) && !Clashes(byIdentity, run)
    ensures Indexed(byIdentity[Id(run) := run], if Id(run) in byIdentity then values else values + [run], conflicts,
                    front + [run])
  {
    DistinctSnoc(front, run);
    CoversStep(byIdentity, front, run);
    ClashIsTie(byIdentity, front, run);
  }

  lemma IndexClash(
      byIdentity: map<(int, int), CheckRun>, values: seq<CheckRun>, conflicts: nat, front: seq<CheckRun>,
      run: CheckRun)
    requires Indexed(byIdentity, values, conflicts, front) && Clashes(byIdentity, run)
    ensures Indexed(byIdentity, values, conflicts + 1, front + [run])
  {
    CoversStep(byIdentity, front, run);
    ClashIsTie(byIdentity, front, run);
  }

  /** The dict the source fills by run identity, and one blocker per contradiction it meets. */
  method IndexByIdentity(observed: seq<CheckRun>, check: string)
    returns (values: seq<CheckRun>, conflicts: seq<Code>)
    ensures conflicts != [] <==> Tied(observed)
    ensures forall c | c in conflicts :: c == RunTie(check)
    ensures !Tied(observed) ==> values == Distinct(observed)
  {
    var byIdentity: map<(int, int), CheckRun> := map[];
    values, conflicts := [], [];
    for i := 0 to |observed|
      invariant forall c | c in conflicts :: c == RunTie(check)
      invariant Indexed(byIdentity, values, |conflicts|, observed[..i])
    {
      var run := observed[i];
      assert observed[..i + 1] == observed[..i] + [run];
      if Clashes(byIdentity, run) {
        IndexClash(byIdentity, values, |conflicts|, observed[..i], run);
        conflicts := conflicts + [RunTie(check)];
      } else {
        IndexStep(byIdentity, values, |conflicts|, observed[..i], run);
        if Id(run) !in byIdentity {
          values := values + [run];
        }
        byIdentity := byIdentity[Id(run) := run];
      }
    }
    assert observed[..|observed|] == observed;
  }

  method CollectRunsOf(runs: seq<CheckRun>, check: string) returns (observed: seq<CheckRun>)
    ensures observed == RunsOf(runs, check)
  {
    observed := [];
    for i := 0 to |runs|
      invariant observed == RunsOf(runs[..i], check)
    {
      assert runs[..i + 1][..i] == runs[..i];
      if runs[i].check == check {
        observed := observed + [runs[i]];
      }
    }
    assert runs[..|runs|] == runs;
  }

  /** Obligations up to repeated blockers. */
  ghost predicate Matches(got: Obligations, spec: Obligations) {
    && got.retained == spec.retained && got.superseded == spec.superseded && got.reasons == spec.reasons
    && SameElements(got.blockers, spec.blockers)
  }

  method CollectCheckObligations(runs: seq<CheckRun>, check: string, current: Identity)
    returns (o: Obligations)
    ensures Matches(o, CheckObligations(runs, check, current))
  {
    var observed := CollectRunsOf(runs, check);
    var values, conflicts := IndexByIdentity(observed, check);
    if conflicts != [] {
      assert conflicts[0] in conflicts;
      return Obligations([], [], conflicts, []);
    }
    var ordered := Sort(values, IdLe);
    if ordered == [] {
      return Obligations([], [], [Unobserved(check)], []);
    }
    var newest := ordered[|ordered| - 1];
    o := VerdictObligations(Judge(newest, current), newest).Plus(HistoryObligations(ordered));
  }

  method CollectRunObligations(runs: seq<CheckRun>, checks: seq<string>, current: Identity)
    returns (o: Obligations)
    ensures Matches(o, RunObligations(runs, checks, current))
  {
    o := NO_OBLIGATIONS;
    for i := 0 to |checks|
      invariant Matches(o, RunObligations(runs, checks[..i], current))
    {
      assert checks[..i + 1][..i] == checks[..i];
      var more := CollectCheckObligations(runs, checks[i], current);
      o := o.Plus(more);
    }
    assert checks[..|checks|] == checks;
  }

  method SiftEvidence(evidence: seq<Evidence>, fates: Fates) returns (s: Sifted)
    ensures s == Sift(evidence, fates)
  {
    s := Sifted([], [], [], []);
    for i := 0 to |evidence|
      invariant s == Sift(evidence[..i], fates)
    {
      assert evidence[..i + 1][..i] == evidence[..i];
      var e := evidence[i];
      match fates(e) {
        case Reuse => s := s.(reused := s.reused + [ReferenceTo(e)]);
        case Recollect => s := s.(recollected := s.recollected + [ReferenceTo(e)]);
        case Invalidate(fields) =>
          s := s.(invalidated := s.invalidated + [(ReferenceTo(e), fields)],
                  reasons := s.reasons + InvalidationReasons(e.id, fields));
      }
    }
    assert evidence[..|evidence|] == evidence;
  }

  lemma RenderSameElements(a: seq<Code>, b: seq<Code>)
    requires SameElements(a, b)
    ensures SameElements(RenderAll(a), RenderAll(b))
  {
    RenderWithin(a, b);
    RenderWithin(b, a);
  }

  lemma RenderWithin(a: seq<Code>, b: seq<Code>)
    requires forall c | c in a :: c in b
    ensures forall x | x in RenderAll(a) :: x in RenderAll(b)
  {
    forall x | x in RenderAll(a) ensures x in RenderAll(b) {
      var i :| 0 <= i < |a| && RenderAll(a)[i] == x;
      assert a[i] in b;
      var j :| 0 <= j < |b| && b[j] == a[i];
      assert RenderAll(b)[j] == x;
    }
  }

  lemma AssembleMatches(book: Rulebook, input: Input, sifted: Sifted, got: Obligations, spec: Obligations)
    requires got.retained == spec.retained && got.superseded == spec.superseded
    requires SameElements(got.blockers, spec.blockers) && SameElements(got.reasons, spec.reasons)
    ensures Assemble(book, input, sifted, got) == Assemble(book, input, sifted, spec)
  {
    var scope := ScopeBlockers(book, input);
    var a, b := scope + got.blockers, scope + spec.blockers;
    var c, d := scope + sifted.reasons + got.reasons, scope + sifted.reasons + spec.reasons;
    assert SameElements(a, b) && SameElements(c, d);
    SameEmptiness(a, b);
    SameEmptiness(c, d);
    RenderSameElements(a, b);
    RenderSameElements(c, d);
    SortedSetDependsOnElements(RenderAll(a), RenderAll(b));
    SortedSetDependsOnElements(RenderAll(c), RenderAll(d));
  }

  lemma SameEmptiness<T(!new)>(a: seq<T>, b: seq<T>)
    requires SameElements(a, b)
    ensures a == [] <==> b == []
  {
    if a != [] { assert a[0] in b; }
    if b != [] { assert b[0] in a; }
  }

  /** `evaluate` on a schema-valid input. */
  method Evaluate(book: Rulebook, input: Input) returns (r: Result)
    ensures r == Evaluation(book, input)
  {
    var permitted := ScopeRequirements(book, input).reusePermitted;
    var sifted := SiftEvidence(Sort(input.evidence, EvidenceLe), FatesOf(input.state, permitted));
    var o := CollectRunObligations(input.runs, book.requiredChecks, input.state);
    r := Assemble(book, input, sifted, o);
    AssembleMatches(book, input, sifted, o, RunObligations(input.runs, book.requiredChecks, input.state));
  }
}
