# Verified model of the evidence, audit and snapshot tooling

This project models, in Dafny, the parts of the repository that decide things by themselves, and proves
what those decisions guarantee. Check it with `dafny verify dfyconfig.toml`.

* **The guarded one-shot body repair** (`text`, `json`, `pull_request`, `repair`, `repair_properties`,
  `repair_classifications`).
  A pull-request body is replaced by at most one PATCH, between reads of an uncooperative remote, and then
  observed through REST and GraphQL until both agree or the budget is spent. A remote is an arbitrary answer
  to the n-th fetch, the n-th GraphQL query, the PATCH and the n-th sleep, so a theorem over all remotes
  covers every behaviour of GitHub. The classes `PersistenceAttempt` and `Transport` are updated in place by
  the methods; the run is also a function `Run` of the remote, the methods are proved equal to it, and the
  theorems are about `Run`. The main results are `RepairDiscipline`, `StabilizationShape`,
  `StableMismatchEvidence`, `ValidationNeverFailsLate`, `ConvergenceExact` and `ClassificationsExact`.
* **The evidence-reuse policy and the self-hashing envelope** (`policy`, `policy_properties`, `envelope`,
  `compact_evidence`, `binding_guard`). The evaluator turns unbounded lists of check runs and evidence into
  ready or blocked; the compact envelope stores, inside a body, the hash of that body with the hash fields
  nulled. `ReadyExact`, `RunOrderIrrelevant`, `RunsConserved` and `EvidenceConserved` characterize the
  evaluator. `StabilizesExactly` says when rendering with a bound hash is a fixpoint, and
  `StaleBodyNeverStabilizes` gives the inputs that are never rendered.
* **Portable paths** (`portable_paths`, `splice`, `path_replacement`, `path_audit`, `path_inventory`,
  `overlap_example`): positions, path ends, violations, the placeholders, the right-to-left replacement of
  spans, the audit loop that re-reads, replaces, re-scans, writes and reads back, and its inventory.
* **Paged and compared data** (`pagination`, `equivalence`): the offset-paging loops with their bounds, the
  completeness check, and the export/query comparison.
* **Closure linkage** (`closing_references`, `closure`, `closure_evidence`, `closure_order`,
  `post_merge`): which issues a pull request would close, readiness before the merge, which inspections yield
  evidence at all, what the order of the sources does to it, and the verdict after the merge.
* **The snapshot migrations** (`snapshot_migrations`, `snapshot_database`): three revisions up and down,
  between inserts and deletes.

`ordering` holds the stable sort that stands for `sorted`, and `options` the type of values that may be
missing.

Hashes, case folding, regular expressions, validation rules, JSON text, SHA patterns and date formats are functions
the model receives and does not look into. A hash or an encoding is assumed injective only where a lemma says so
(`Injective`, `InjectiveDumps`, `FaithfulResults`, `InjectiveFingerprint`).

## Results that are not what one might expect

* Scope hashes do not tell scopes apart, but lines: two scopes have one hash exactly when their paths, broken
  into lines and put in a row, are the same lines (`ScopeHashExact`). So `ScopeHashConfusesNewlines` gives two
  different scopes with one hash, while newline-free scopes have equal hashes exactly when they are equal
  (`ScopeHashDeterminesScope`). Scopes that come from the transport are newline-free (`FetchOpenPullRequest`).
* Replacing the spans of one body in place reads only original text exactly when the spans do not overlap
  (`DisjointnessIsExact`, and `ScannedSpansExact` for the program's own spans and placeholders), and the
  scanner does report overlapping spans. `OverlapDamages` follows one body, `'/home/a /home/b/downloads'/x`:
  the audit's replacement loses the closing quotation mark, which lies outside both spans, no simultaneous
  substitution gives that result, and the scanner finds nothing left in it. `AuditWritesDamage` shows the audit
  writing it, reporting both paths as verified absent and nothing as remaining.
* Rendering compact evidence can report "did not stabilize" on a schema-valid input. `StabilizesExactly` gives
  the exact condition on the check runs and the evidence. A newest run of a required check that is current in
  everything but the body hash always has this effect (`StaleBodyNeverStabilizes`), and
  `StaleInputNeverStabilizes` gives one input. `UniformInputStabilizes` is the usual case in which rendering
  stabilizes, with no assumption on the hash.
* An inspection before the merge reads everything and then raises when its own evidence does not fit the
  schema. `ClosureEvidence.Inspect` says exactly when: among others for an empty contract, and for two
  development links that name the same issue, because the list of links must not repeat an issue and is not
  deduplicated. `RepeatedLinkRefused` gives one input that is ready and accepted with one link and refused
  with two.
* What an inspection finds never depends on the order in which the sources list things (`OrderIrrelevant`),
  but the timeline it emits can: the sort key leaves out actor and commit. `EmissionOrderExact` says exactly
  when, and `CommitsTie` gives the case of two commits of one moment.
* The program datastore loop fails on every source of more than 190,000 rows, and only there
  (`ProgramCapture`).

## Model

| member | source | states |
|---|---|---|
| Text.NormalizeIsOnePass | scripts/check_independent_verification.py:205-214 | The two replacement passes over line endings equal one left-to-right pass in which CRLF, lone CR and LF each end one line. |
| Text.NormalizationContract | scripts/check_independent_verification.py:205-214 | Normalized bodies have no CR, normalizing is idempotent and fixes exactly the CR-free bodies, and every other character stays, in order. |
| Text.NormalizeEqualIffSameLines | scripts/check_independent_verification.py:205-220 | Two bodies normalize alike exactly when they have the same lines under any mix of line endings. |
| Text.NormalizeConcat | scripts/check_independent_verification.py:205-214 | Normalization distributes over every seam that does not split a CRLF. |
| Text.CollectChangedFiles | scripts/check_independent_verification.py:405-413 | The loop over the insertion-ordered dictionary computes the scope function. |
| Text.ScopeElements | scripts/check_independent_verification.py:405-413 | The scope lists each nonempty normalized path of the input once, and nothing else. |
| Text.ScopeIdempotent | scripts/check_independent_verification.py:405-413 | Normalizing a normalized scope changes nothing. |
| Text.ScopeJoinInjective | scripts/prepare_pr_body.py:96-100 | On newline-free paths, equal newline joins come from equal scopes. |
| Text.ScopeHashExact | scripts/prepare_pr_body.py:96-100 | With a collision-free hash, any two scopes have equal hashes exactly when the lines of their normalized paths, in a row, are the same. |
| Text.ScopeHashDeterminesScope | scripts/prepare_pr_body.py:96-100 | With a collision-free hash, newline-free scopes have equal hashes exactly when they are equal; a case of ScopeHashExact. |
| Text.ScopeHashConfusesNewlines | scripts/prepare_pr_body.py:96-100 | One path holding a newline has the hash of two paths, for every hash function. |
| PullRequests.StrippedLinesAreLines | scripts/prepare_pr_body.py:397-404 | The changed files read from the transport are newline-free. |
| PullRequests.FetchOpenPullRequest | scripts/prepare_pr_body.py:518-556 | Which replies end a fetch how: fetched exactly for a repository and reference that agree up to case and an open, well-formed pull request, and then every field is read off the replies and the scope is newline-free; wrong repository, unresolvable reference, not open and interrupted each exactly when due, and the API error otherwise. |
| Repair.PersistenceAttempt.constructor | scripts/prepare_pr_body.py:149-166 | A fresh record holds the preconditions and hashes given, no observation, no outcome and no mutation. |
| Repair.PersistenceAttempt.AddClassification | scripts/prepare_pr_body.py:168-170 | A classification is appended once and nothing else changes. |
| Repair.PersistenceAttempt.Finish | scripts/prepare_pr_body.py:172-176 | Finishing sets outcome and final state and classifies the outcome, leaving the rest. |
| Repair.PersistenceAttempt.Record | scripts/prepare_pr_body.py:687-711 | An observation is appended and nothing else changes. |
| Repair.ObserveLiveRepresentations | scripts/prepare_pr_body.py:727-805 | One fetch and, only if it succeeds, one GraphQL query are made, and the record gains exactly the observations and classifications of the function LookLive. |
| Repair.CompleteConvergence | scripts/prepare_pr_body.py:808-838 | The record is completed as the function Complete says, or untouched when the live state is stale. |
| Repair.JudgeRound | scripts/prepare_pr_body.py:1024-1069 | The verdict on one clean or changed read: record, clock, error and hash carried on are those of the function Judge. |
| Repair.StabilizationRound | scripts/prepare_pr_body.py:996-1069 | One round of the loop stops or goes on as the function Round says, with the clock of the next round. |
| Repair.StabilizeLoop | scripts/prepare_pr_body.py:995-1073 | The loop over last_rest_hash computes the recursive function Stabilize over rounds. |
| Repair.PatchAndSettle | scripts/prepare_pr_body.py:959-1073 | Exactly one PATCH is sent, to the given target, and the run ends as AfterPatch says. |
| Repair.CommitPatch | scripts/prepare_pr_body.py:942-961 | Nothing is sent when a precondition changed; otherwise the budget is taken before the one PATCH. |
| Repair.SecondRead | scripts/prepare_pr_body.py:922-947 | The read before the PATCH and everything after it end as FromSecondRead says, with its sent list. |
| Repair.FirstRead | scripts/prepare_pr_body.py:900-932 | Validation, the already-converged case, the confirmation check and the rest end as FromFirstRead says. |
| Repair.Perform | scripts/prepare_pr_body.py:872-1073 | A run over a fresh record ends, sends and counts exactly as the function Run says. |
| Repair.Apply | scripts/prepare_pr_body.py:841-1073 | Inadmissible requests raise before any call; admissible ones return a fresh record equal to Run on the same remote. |
| RepairProperties.ReadingIsAgreement | scripts/prepare_pr_body.py:1030-1046 | The convergence test computed from recorded hashes and flags is true exactly when REST shows the candidate and GraphQL, if readable, does too. |
| RepairProperties.ShapeForms | scripts/prepare_pr_body.py:1056-1061 | Changing only towards the candidate is the same as a constant non-candidate prefix followed by the candidate throughout. |
| RepairProperties.RoundVerdict | scripts/prepare_pr_body.py:996-1069 | How a round ends is decided by what it read: lost identity, agreement, an unexplained change, an interrupted sleep, or going on. |
| RepairProperties.LoopVerdict | scripts/prepare_pr_body.py:995-1073 | Every round of the loop but the last was clean, short of agreement and in shape, and the last one alone decides exit, outcome and counters. |
| RepairProperties.RunSplits | scripts/prepare_pr_body.py:841-968 | A run either commits to the PATCH, exactly when it was authorized by everything seen before, or ends with nothing sent. |
| RepairProperties.RepairDiscipline | scripts/prepare_pr_body.py:841-1073 | At most one PATCH, equal to the mutation count; sent exactly when confirmed, hash-matched, validated, different and re-read under all preconditions; aimed at the bound pull request; at most max+3 fetches and max sleeps; outcomes split by mutation count. |
| RepairProperties.StabilizationShape | scripts/prepare_pr_body.py:995-1073 | Before the last round the bodies read are a constant non-candidate prefix then the candidate, and the unexplained-change outcome is returned exactly when the last clean round is the first departure. |
| RepairProperties.StableMismatchEvidence | scripts/prepare_pr_body.py:995-1073 | A stable mismatch used the whole budget, and in every round where REST showed the candidate GraphQL was readable and differed. |
| RepairProperties.ValidationTransfers | scripts/prepare_pr_body.py:559-587 | A candidate validated in one matching scope is valid under any line endings in every other read that matches the same preconditions. |
| RepairProperties.ValidationNeverFailsLate | scripts/prepare_pr_body.py:808-919 | With a collision-free hash no run ends in post-persistence validation failure, and nothing is raised after the PATCH unless the PATCH call itself was interrupted or the body it returned could not be hashed (both are PatchInterrupted). |
| RepairProperties.ConvergenceExact | scripts/prepare_pr_body.py:1046-1053 | Immediate or delayed convergence is returned exactly when the last round was clean and agreed, which no earlier round did, by whether it was the first. |
| RepairClassifications.UnmatchedExact | scripts/prepare_pr_body.py:872-899 | A run whose first read did not match sends nothing. It raises exactly the error of a fetch that met another repository, an unresolvable reference or an interruption; otherwise it returns a failed precondition whose final state says exactly which: candidate hash, failed observation, or the list of changed facts. |
| RepairClassifications.WithheldExact | scripts/prepare_pr_body.py:900-941 | After a matching first read without PATCH: already converged exactly when the live body is the valid candidate, an error exactly on stale live state or missing confirmation, an observation failure exactly when the second read failed. |
| RepairClassifications.PatchReplyExact | scripts/prepare_pr_body.py:960-984 | The two mutation outcomes are returned exactly for a failed PATCH and for a malformed or bodyless response. |
| RepairClassifications.ClassificationsExact | scripts/prepare_pr_body.py:714-724 | The record reports a transient disagreement exactly when in some clean round a readable GraphQL body differed from REST (lines 1041-1055), and an unavailable GraphQL exactly when some query failed. |
| RepairProperties.LiveNormalized | scripts/check_independent_verification.py:912-940 | Bodies that normalize alike give the validator the same live state, as it reads it only normalized (lines 697-700). |
| Policy.CollectBestMatch | scripts/evaluate_evidence_reuse_policy.py:63-69 | The scan over the rules computes the class of the highest-ranked match. |
| Policy.IndexByIdentity | scripts/evaluate_evidence_reuse_policy.py:168-175 | A conflict is reported exactly when two different runs share an identity, in whatever order; without one the dictionary holds the distinct runs. |
| Policy.CollectCheckObligations | scripts/evaluate_evidence_reuse_policy.py:166-216 | One check's loop body yields the specified obligations, blockers up to repetition. |
| Policy.CollectRunObligations | scripts/evaluate_evidence_reuse_policy.py:159-217 | The loop over required checks yields the specified obligations, blockers up to repetition. |
| Policy.SiftEvidence | scripts/evaluate_evidence_reuse_policy.py:257-272 | The evidence loop files every item by its fate. |
| Policy.Evaluate | scripts/evaluate_evidence_reuse_policy.py:220-319 | The evaluator equals the specification, repeated blockers included, because its result sorts a set. |
| PolicyProperties.RunOrderIrrelevant | scripts/evaluate_evidence_reuse_policy.py:159-217 | Permuting check runs or repeating identical ones leaves the whole result unchanged; contradictions are found in any order. |
| PolicyProperties.PathErrorsExact | scripts/evaluate_evidence_reuse_policy.py:51-60 | No path error exactly when every path is valid and the inventory is strictly ascending. |
| PolicyProperties.CheckBlockersExact | scripts/evaluate_evidence_reuse_policy.py:166-207 | A check adds no blocker exactly when its runs do not contradict each other and its newest run succeeded on the current inputs. |
| PolicyProperties.ReadyExact | scripts/evaluate_evidence_reuse_policy.py:220-319 | Ready exactly when the scope is valid, hashed, complete and classified, the dependency state known, and every required check's newest run is success/success on the current head, tree, inventory and body hashes. |
| PolicyProperties.NewerFailureBlocks | scripts/evaluate_evidence_reuse_policy.py:185-203 | A failing run that is newest for a required check blocks any input. |
| PolicyProperties.RunsConserved | scripts/evaluate_evidence_reuse_policy.py:178-212 | For an observed untied check, the superseded runs followed by the newest are its distinct runs, oldest first. |
| PolicyProperties.EvidenceConserved | scripts/evaluate_evidence_reuse_policy.py:257-272 | Each evidence item lands in exactly one list, where its state and identity put it; the lists hold nothing else. |
| PolicyProperties.SiftPartitions | scripts/evaluate_evidence_reuse_policy.py:257-272 | The three lists together are the references of the evidence, as multisets. |
| PolicyProperties.UnchangedExact | scripts/evaluate_evidence_reuse_policy.py:136-156 | No field has changed exactly when the identities are equal, the body hash counting only for body-dependent evidence. |
| PolicyProperties.ClassifyLongest | scripts/evaluate_evidence_reuse_policy.py:63-69 | The class is that of a longest matching rule, unknown exactly without one, and independent of rule order. |
| PolicyProperties.LongestRuleDecides | scripts/evaluate_evidence_reuse_policy.py:63-69 | When equal prefixes carry equal classes, any longest matching rule names the class. |
| PolicyProperties.RequirementsJoin | scripts/evaluate_evidence_reuse_policy.py:72-133 | The requirements of a union of class sets are the join of the requirements. |
| PolicyProperties.ExtraPathNeverRelaxes | scripts/evaluate_evidence_reuse_policy.py:72-133 | Adding a changed file never relaxes an obligation. |
| Envelope.NullGovernedHashes | scripts/check_independent_verification.py:331-348 | The in-place walk over the copied envelope computes the canonical envelope. |
| Envelope.BindEach | scripts/check_independent_verification.py:387-402 | The in-place binding of state and runs computes the bound input. |
| Envelope.GovernedNullIdempotent | scripts/check_independent_verification.py:331-348 | Nulling twice is nulling once, and fields outside input and result are untouched. |
| Envelope.NullInputReads | scripts/check_independent_verification.py:336-347 | Nulling an input nulls the hash of its state and of each of its runs and changes nothing else. |
| Envelope.BindReads | scripts/check_independent_verification.py:394-401 | Binding sets the hash of the state and of each run that is an object and changes nothing else. |
| Envelope.BindInvisible | scripts/check_independent_verification.py:331-402 | Binding a digest is invisible in the canonical input exactly when every governed hash field was there before. |
| CompactEvidence.BindCommutes | scripts/check_independent_verification.py:387-402 | Binding a typed input and binding its JSON agree, and a schema-valid input has all governed fields. |
| CompactEvidence.CanonicalEnvelopeKept | scripts/check_independent_verification.py:351-402 | Binding leaves the canonical envelope alone when it changes the result in nothing but the body hash. |
| CompactEvidence.CanonicalPieces | scripts/check_independent_verification.py:351-378 | The canonical body is fixed normalized text around the decision word and the canonical envelope. |
| CompactEvidence.StabilizesIffResultKept | scripts/prepare_pr_body.py:288-325 | The digest of the second rendering equals that of the first exactly when binding changes the result in nothing but the hash. |
| CompactEvidence.BodyNormalizes | scripts/check_independent_verification.py:351-378 | Normalizing a rendered body normalizes the text around the envelope and leaves the envelope's text alone. |
| BindingGuard.SafeKept | scripts/evaluate_evidence_reuse_policy.py:136-217 | If every required check and evidence item is safe to bind, the evaluation of the bound input differs in the body hash only. |
| BindingGuard.KeptExactly | scripts/evaluate_evidence_reuse_policy.py:136-272 | For every input, binding changes the evaluation in the body hash only exactly when every required check is safe and the three evidence lists stay; if no two different evidence items share identifier and references, exactly when every check and every item is safe. |
| BindingGuard.StabilizesExactly | scripts/prepare_pr_body.py:288-325 | With a collision-free hash and faithful encodings, rendering does not report "did not stabilize" exactly when every required check is safe and binding the preliminary digest leaves the evidence lists alone; item by item when identifier and references tell the evidence items apart. |
| BindingGuard.StaleBodyNeverStabilizes | scripts/prepare_pr_body.py:320-324 | A newest run of a required check that matches the current inputs in all but the body hash makes binding change the evaluation, whatever the digest, and so (with a collision-free hash and faithful encodings) rendering never stabilizes. |
| BindingGuard.StaleInputNeverStabilizes | scripts/prepare_pr_body.py:320-324 | One schema-valid input, with one successful run recorded for an earlier body, that never stabilizes under any rulebook requiring its check. |
| BindingGuard.UniformInputStabilizes | scripts/prepare_pr_body.py:288-325 | If all runs carry the state's body hash and body-dependent evidence compares as before, rendering stabilizes and only the body hash of the result changes. |
| PortablePaths.LastNewline | src/ccld_complaints/portable_paths.py:94-97 | The reverse search finds the last newline, or -1 when there is none. |
| PortablePaths.PositionOfOffset | src/ccld_complaints/portable_paths.py:94-97 | Every offset has a valid line and column that lead back to it. |
| PortablePaths.OffsetOfPosition | src/ccld_complaints/portable_paths.py:94-97 | Every valid line and column has an offset that leads back to it. |
| PortablePaths.PositionsOrdered | src/ccld_complaints/portable_paths.py:94-97 | Offsets are ordered as their positions are lexicographically. |
| PortablePaths.ScanPathEnd | src/ccld_complaints/portable_paths.py:100-115 | The advancing loop computes the path end. |
| PortablePaths.PathEndExact | src/ccld_complaints/portable_paths.py:100-115 | The end lies in the text; a quoted path ends at the first closing quote, a bare one at its first stop, or at the end of its line when it begins the line and a space stopped it. |
| PortablePaths.ScanViolations | src/ccld_complaints/portable_paths.py:132-172 | The loops over patterns and matches compute the sorted violations. |
| PortablePaths.ViolationsLocated | scripts/audit_portable_paths.py:419-428 | Every reported span is nonempty, in the text and carries its own position; sorting one item's records by line and column keeps the order by start. |
| Splice.PortableReplacement | scripts/audit_portable_paths.py:240-254 | The loop replaces the spans one after the other from the last start to the first, and the types are the recommendations in reverse. |
| Splice.RightToLeft | scripts/audit_portable_paths.py:247-254 | Right-to-left replacement of spans in order is simultaneous substitution. |
| Splice.InPlaceIsSimultaneous | scripts/audit_portable_paths.py:240-254 | For disjoint spans listed in any order, replacing in place keeps all text outside and replaces each span from its original text; the types follow the spans from left to right. |
| Splice.DisjointnessIsExact | scripts/audit_portable_paths.py:247-252 | For any replacer whose output is nonempty and never begins like the span it replaces, every replacement sees the original text of its span exactly when no two spans overlap. |
| Splice.MatchReported | src/ccld_complaints/portable_paths.py:132-172 | Every match of every pattern that is not excluded is among the reported violations, up to its path end. |
| Splice.QuotedMatchesOverlap | src/ccld_complaints/portable_paths.py:100-115 | Two matches of the scanner, one quoted and the other inside its quotation, make the reported violations of that text overlap. |
| PathReplacement.RecommendationBegins | src/ccld_complaints/portable_paths.py:118-129 | Every recommended placeholder begins with an angle bracket. |
| PathReplacement.ReplacementBegins | scripts/audit_portable_paths.py:206-237 | Every replacement text begins with the recommended placeholder, whatever basename or repository path follows. |
| PathReplacement.ScannedSpansExact | scripts/audit_portable_paths.py:240-254 | The program's own replacements of its scanner's own spans all see original text exactly when the reported spans do not overlap. |
| OverlapExample.OverlapDamages | scripts/audit_portable_paths.py:240-254 | For one body with two quoted home paths the reported spans overlap, the in-place result drops the closing quotation mark outside both, no substitution of reported spans gives that result, and the scanner finds nothing in it. |
| PathAudit.WriteItem | scripts/audit_portable_paths.py:380-404 | The write goes to the item's endpoint, the read right after reads that endpoint back, and the records are those of the specification. |
| PathAudit.CorrectItem | scripts/audit_portable_paths.py:342-404 | One editable item is re-read at its own endpoint, replaced, re-scanned and written as specified. |
| PathAudit.Audit | scripts/audit_portable_paths.py:298-416 | Records, remaining count, the endpoint of every read and every write of the whole loop are those of the specification, also when a call fails. |
| PathAudit.AuditAccounts | scripts/audit_portable_paths.py:298-441 | There are as many records as violations, and every record is retained, verified absent or remaining. |
| PathAudit.RecordsFollowViolations | scripts/audit_portable_paths.py:298-441 | The records of a finished audit are about the violations of the items, one each and in order. |
| PathAudit.WritesAreDue | scripts/audit_portable_paths.py:342-380 | Only viewer-authored items are written, at their own endpoint, just after a read of that endpoint whose hash equals the collected one, with a violation-free candidate made from the collected body. |
| PathAudit.NothingRemaining | scripts/audit_portable_paths.py:380-390 | An apply run with nothing remaining wrote every offending item of the viewer at its endpoint and, in the read right after, read it back there equal to its violation-free candidate. |
| PathInventory.AuditContent | scripts/audit_portable_paths.py:289-441 | No inventory exactly when a call fails; otherwise the audit's records sorted by kind, number, comment, line and column, and a summary that adds up: every violation is retained, verified absent or remaining, and the corrections applied are the verified ones and those that did not persist. |
| OverlapExample.AuditWritesDamage | scripts/audit_portable_paths.py:342-416 | An apply run over one item of the viewer with overlapping spans writes the damaged body, records both violations as verified absent and ends with nothing remaining. |
| Pagination.CapturePages | scripts/profile_build_week_arcgis_source.py:382-411 | The paging loop computes the recursive capture: all pages, a malformed page, or the bound exceeded. |
| Pagination.CeilIsLeast | scripts/profile_build_week_arcgis_source.py:384-385 | The page count is the least that holds all rows. |
| Pagination.CaptureExact | scripts/profile_build_week_arcgis_source.py:382-411 | Against a faithful service the loop succeeds exactly when the bound leaves room for every full page and the empty one, and then returns all rows in order. |
| Pagination.ArcgisCapturePasses | scripts/profile_build_week_arcgis_source.py:378-422 | With distinct nonblank identifiers the ArcGIS loop never trips its bound, ends with the empty page after ceil(n/size)+1 requests, and its pages pass the completeness check. |
| Pagination.ProgramCapture | scripts/profile_build_week_arcgis_source.py:473-514 | The program loop collects everything exactly up to 190,000 rows. |
| Pagination.GatherPages | src/ccld_complaints/arcgis_facility_source_evaluation.py:507-529 | The counting loop gathers page sizes, malformed indexes and rows, and its counters agree with the rows. |
| Pagination.AnalyzeCompletePagination | src/ccld_complaints/arcgis_facility_source_evaluation.py:499-571 | Pass exactly when no page is malformed, the last is empty, none exceeds the maximum and the nonblank object ids are the expected ones, once each; the difference sets are exact. |
| Pagination.RecordsAreSum | src/ccld_complaints/arcgis_facility_source_evaluation.py:513-559 | The record count is the sum of the page counts. |
| Pagination.CompleteCounts | src/ccld_complaints/arcgis_facility_source_evaluation.py:530-571 | Complete pages hold one record per expected id plus those without an id, at most (pages-1) times the maximum. |
| Equivalence.BuildIndex | src/ccld_complaints/arcgis_facility_source_evaluation.py:717-724 | The index maps exactly the identifiers that occur to the sorted fingerprints of their rows. |
| Equivalence.CountFieldDifferences | src/ccld_complaints/arcgis_facility_source_evaluation.py:745-763 | The nested loops count, per field, the shared facilities on which it differs. |
| Equivalence.CompareExportQuery | src/ccld_complaints/arcgis_facility_source_evaluation.py:706-790 | The comparison of projected rows is the specified one, and each side's row, identifier, blank and duplicate reports are right. |
| Equivalence.SideExact | src/ccld_complaints/arcgis_facility_source_evaluation.py:735-780 | For each side, an identifier is a duplicate exactly when two rows have it, the blank rows are those without an identifier, and rows equal identifiers plus blank rows exactly when there is no duplicate. |
| Equivalence.ProjectedNormal | src/ccld_complaints/arcgis_facility_source_evaluation.py:461-482 | Projected rows are fixed by a second normalization when normalization is idempotent. |
| Equivalence.CountRedundant | src/ccld_complaints/arcgis_facility_source_evaluation.py:764-790 | The row-count conjunct of the verdict is redundant, and equivalence comes with equal content hashes and empty difference lists, for any fingerprint. |
| Equivalence.VerdictExact | src/ccld_complaints/arcgis_facility_source_evaluation.py:706-764 | With injective fingerprints, equivalent exactly when the projected rows are the same multiset, and then no field is counted as differing. |
| Equivalence.ReportedExactly | src/ccld_complaints/arcgis_facility_source_evaluation.py:728-734 | A facility is listed for one side exactly when it has rows there only, and as changed exactly when it has rows on both sides and some row occurs differently often. |
| Equivalence.ChangedIffFieldDiffers | src/ccld_complaints/arcgis_facility_source_evaluation.py:728-763 | A facility with one row on each side is changed exactly when some field is counted as differing for it. |
| ClosingReferences.AddNodes | scripts/closure_linkage_inspection.py:176-181 | One page's nodes are added exactly when all nodes together stay distinct issue numbers. |
| ClosingReferences.ClosingIssues | scripts/closure_linkage_inspection.py:139-187 | A result exactly when one of the first 20 pages completes the collection, and then the concatenation of all pages; otherwise the failure names what page and why. |
| ClosingReferences.OneEnding | scripts/closure_linkage_inspection.py:139-187 | A collection has one last page, and a run that has one among its 20 requests never fails. |
| Closure.ValidateContract | scripts/closure_linkage_inspection.py:211-241 | Each complaint is reported exactly when it is due: a foreign repository, a missing number, a number declared twice, or the field of an entry it names; and none exactly for a valid contract. |
| Closure.UnknownIsUnrecognized | scripts/closure_linkage_inspection.py:311-358 | An event is unknown exactly when it has none of the recognized shapes. |
| Closure.SourcesRead | scripts/closure_linkage_inspection.py:311-340 | An issue is discoverable, and is linked for closure, exactly as the body, GraphQL and the raw timeline events say. |
| Closure.InspectSources | scripts/closure_linkage_inspection.py:416-465 | The findings before any issue is read: one per failed source and one per unknown event, in the order the observations are sorted. |
| Closure.InspectIssue | scripts/closure_linkage_inspection.py:480-578 | One issue's findings report incomplete evidence exactly when it is undeclared or unread, an obstacle exactly when it is in another state or linked for closure against its declaration, and exactly one linkage of a declared issue, the right one. |
| Closure.InspectPreMerge | scripts/closure_linkage_inspection.py:415-624 | The findings over sources and ascending issues, in the order they are emitted, and their classification. |
| Closure.ReadinessExact | scripts/closure_linkage_inspection.py:260-271 | Ready exactly when both sources answered, every event is understood, every discoverable issue is declared, every declared one was read in its expected state, and every one linked for closure is authorized and need not stay open; incomplete evidence dominates. |
| Closure.OneLinkageFinding | scripts/closure_linkage_inspection.py:530-578 | Every declared issue gets exactly one linkage finding, saying whether it is linked for closure and whether that was declared; an undeclared one gets none. |
| ClosureEvidence.Inspect | scripts/closure_linkage_inspection.py:393-626 | Evidence comes out exactly for a valid contract, matching identities and answers the schema accepts, read off the raw sources (contract not empty, texts within their lengths, dates, actors, states and reasons of the kinds allowed, no plain development link repeated); it is the record of what was read, its findings are sorted and complete, and it is ready, or incomplete, exactly as evidence and issues are. |
| ClosureEvidence.SchemaAccepts | schemas/closure-linkage-evidence-v1.schema.json:27-260 | The emitted record fits the schema exactly when the contract, the pull request, the raw timeline events and the issue replies are acceptable. |
| ClosureEvidence.LinksRepeat | scripts/closure_linkage_inspection.py:464-468 | The list of development links repeats an issue exactly when two raw events link it plainly. |
| ClosureEvidence.CollectedNumbersFit | scripts/closure_linkage_inspection.py:176-183 | The numbers a complete closing-reference collection returns are positive and distinct, as the schema demands. |
| ClosureEvidence.RepeatedLinkRefused | scripts/closure_linkage_inspection.py:464-468 | One input whose evidence is ready and accepted with one plain development link is refused when that link is listed twice. |
| ClosureOrder.OrderIrrelevant | scripts/closure_linkage_inspection.py:361-370 | Findings, the timeline as decided by, and readiness do not depend on the order in which the body, GraphQL, the timeline and the contract list things. |
| ClosureOrder.EmissionOrderExact | scripts/closure_linkage_inspection.py:361-370 | The listing order of the timeline shows in the emitted timeline exactly when two different emitted events tie in the sort key. |
| ClosureOrder.CommitsTie | scripts/closure_linkage_inspection.py:333-357 | Two commits of one moment with different SHAs are emitted in the order in which they were listed. |
| ClosureOrder.EmittedSeen | scripts/closure_linkage_inspection.py:449-451 | The emitted timeline, without actors and commits, is the one the inspection decides by. |
| ClosureOrder.RecordOrderIrrelevant | scripts/closure_linkage_inspection.py:579-624 | Reordered sources give the same record up to the order of tied events, and the same record if none tie. |
| PostMerge.CollectStates | scripts/closure_linkage_inspection.py:656-676 | The collection holds the answers for the declared issues in order and is complete exactly when all answered. |
| PostMerge.Normalize | scripts/closure_linkage_inspection.py:689-697 | Refused exactly when an observation is about an undeclared issue; otherwise the last observation of each issue. |
| PostMerge.VerifyPostMerge | scripts/closure_linkage_inspection.py:679-812 | An error exactly on another identity or an undeclared issue; otherwise the sorted findings, which are clean exactly when collection was complete and every declared issue ended as declared, and hold one exact outcome per declared issue. |
| PostMerge.VerifyEntry | scripts/closure_linkage_inspection.py:709-811 | One entry's findings are clean exactly when the issue was observed to end as declared; ambiguous timestamps, an unauthorized and a missing reopening are each reported exactly when due, and there is one outcome, the one its state calls for. |
| PostMerge.PostMergeExact | scripts/closure_linkage_inspection.py:679-812 | Only matches are reported exactly when collection was complete and every declared issue ended as declared, in readable order, reopened where authorized and expected. |
| PostMerge.CollectedVerdict | scripts/closure_linkage_inspection.py:656-812 | Collecting and verifying together accept what they collected, and report only matches exactly when every declared issue answered and ended as declared. |
| PostMerge.OneOutcome | scripts/closure_linkage_inspection.py:757-811 | Every declared issue gets exactly one outcome, each of the four declared ones exactly when due; it is an unauthorized closure exactly when the issue closed although neither expected nor authorized. |
| SnapshotMigrations.UpgradeWorks | migrations/versions/20260721_0010_transparencyapi_source_snapshot.py:19-175 | On a consistent database every upgrade script runs through and changes the schema only. |
| SnapshotMigrations.DowngradeWorks | migrations/versions/20260721_0010_transparencyapi_source_snapshot.py:178-211 | A downgrade is refused exactly by its row guard; otherwise no drop or CHECK fails and only rows of dropped tables are lost. |
| SnapshotMigrations.RunConsistent | migrations/versions/20260720_0008_source_snapshot_lifecycle.py:19-197 | After any run of upgrades, downgrades, inserts and deletes the schema is that of the revision, every snapshot passes the CHECKs in force, keys are distinct and foreign keys resolve. |
| SnapshotMigrations.OnlyGuardsRefuse | migrations/versions/20260720_0009_live_arcgis_query_scope.py:19-67 | In every reachable database an upgrade works and a downgrade is refused exactly when rows of the revision being left exist: no script drops a referenced table or violates a CHECK. |
| SnapshotMigrations.UpgradeThenDowngrade | migrations/versions/20260721_0010_transparencyapi_source_snapshot.py:19-211 | A downgrade takes an upgrade back, rows and all. |
| SnapshotMigrations.DowngradeThenUpgrade | migrations/versions/20260721_0010_transparencyapi_source_snapshot.py:178-211 | Upgrading again after a downgrade from 0009 or 0010 brings every snapshot back; lost are only the rows of the four tables of 0010. |
| SnapshotMigrations.DeleteKeeps | migrations/versions/20260720_0008_source_snapshot_lifecycle.py:90-132 | Deleting a snapshot with its cascades keeps the database consistent. |
| SnapshotDatabase.Database.CreateTable | migrations/versions/20260720_0008_source_snapshot_lifecycle.py:19-70 | Creating a table works exactly when it is new and its target exists, and changes nothing otherwise. |
| SnapshotDatabase.Database.DropTable | migrations/versions/20260720_0008_source_snapshot_lifecycle.py:181-197 | Dropping works exactly when the table exists and is not referenced, and changes nothing otherwise. |
| SnapshotDatabase.Database.ReplaceChecks | migrations/versions/20260720_0009_live_arcgis_query_scope.py:19-36 | Replacing the CHECKs works exactly when no stored row violates them, and changes nothing otherwise. |
| SnapshotDatabase.Database.Downgrade0009 | migrations/versions/20260720_0009_live_arcgis_query_scope.py:39-67 | The guarded narrowing in place; a refused one changes nothing. |
| SnapshotDatabase.Database.Downgrade0010 | migrations/versions/20260721_0010_transparencyapi_source_snapshot.py:178-211 | The guarded drops and narrowing in place; the guard refuses before any operation. |
| SnapshotDatabase.Database.Upgrade | migrations/versions/20260720_0008_source_snapshot_lifecycle.py:19-178 | One revision up always works on a consistent database and keeps it consistent. |
| SnapshotDatabase.Database.Downgrade | migrations/versions/20260720_0009_live_arcgis_query_scope.py:39-67 | One revision down is refused, with nothing changed, exactly when rows of the revision exist, and keeps the database consistent. |

## Left out

- Subprocess, `gh`, git, HTTP, file and clock work: replaced by arbitrary answers indexed by call number.
- Observation timestamps (`observed_at`), audit and inspection times: not recorded.
- Pull-request titles: no modelled decision reads them.
- The payload check for other keys than `body` and the second-mutation assertion in the repair: both unreachable, since the payload is built from one key and a record starts with no mutation; the methods require the latter.
- The stale-body check of the live state (no explicit body): the repair always passes a body.
- The production rules behind the validator: one function of the normalized body, the normalized scope and the normalized live state.
- Locating the heading and the fenced JSON in a body, duplicate keys and JSON text: a body is given as text, envelope, text.
- JSON schema validation of policy inputs, rulebooks and results: they are typed.
- The constant parts of the closure evidence, and those copied from the parts modelled (obligations, availability labels, limitations): they always are what the schema asks. Further keys of a contract entry, and the types of its optional fields, are one flag of the entry.
- Response bodies without a UTF-8 encoding (lone surrogates), which a Dafny string cannot hold: hashing one raises, and counts as an interruption of the call that returned it.
- The constant lists of the policy result (live obligations, authorized and unauthorized mutations).
- Collecting the GitHub items to audit, and the constant parts of the inventory.
- The path patterns and their exclusions: functions the model receives; the example of overlapping spans states what they find in its two texts.
- The approved-fixture exemption of the path scanner: a single early return.
- Reported totals of the program datastore loop: nothing looks at them.
- Records of the program datastore that are not mappings: the loop drops them before it counts a page, so a page without mappings would end it; records are taken to be mappings.
- Sorted rendering of the lists in the comparison report: they are sets here.
- Rows of the equivalence model carry values already picked from their source columns; the facility identifier is not a date field, so its plain and its field normalization coincide.
- The regular expression for closing keywords in a body: the inspector receives the issue numbers found.
- The wording of findings and the availability labels of failures.
- The identity checks before post-merge collection: the collection starts from matching identities.
- Comparing timestamps with and without a time zone: a timestamp is a moment, unreadable or absent.
- Columns of the snapshot tables that carry no key, reference or replaced CHECK, and the CHECKs, keys and indexes of the dependent tables.
- Updates of stored rows, and databases that keep part of a failed script: every script is proved to run through or to be refused by its guard before its first operation.
