/** Exactly when binding the body hash leaves the policy result alone, and hence exactly when
    rendering compact evidence stabilizes. */
module BindingGuard {
  import opened CompactEvidence
  import opened Options
  import opened Ordering
  import opened Policy
  import opened PolicyProperties
  import opened Text

  function BoundRun(r: CheckRun, digest: string): CheckRun { r.(bodyHash := Some(digest)) }

  function BoundRuns(runs: seq<CheckRun>, digest: string): seq<CheckRun> {
    seq(|runs|, k requires 0 <= k < |runs| => BoundRun(runs[k], digest))
  }

  function BoundState(x: Identity, digest: string): Identity { x.(bodyHash := Some(digest)) }

  // ---- The guard ----

  /** Contradictory runs that still contradict each other when body hashes are ignored. */
  ghost predicate TiedBeyondHash(runs: seq<CheckRun>) {
    exists r, s :: r in runs && s in runs && Id(r) == Id(s) && r.(bodyHash := None) != s.(bodyHash := None)
  }

  predicate OtherInputsMatch(r: CheckRun, current: Identity) {
    r.headSha == current.headSha && r.treeSha == current.treeSha && r.inventoryHash == current.inventoryHash
  }

  /** Binding cannot change what the policy says of this check: its runs contradict each other
      anyway, or they do not contradict each other at all and the newest one is either already
      on the current body hash or off in some other input. */
  ghost predicate CheckBindSafe(runs: seq<CheckRun>, check: string, current: Identity) {
    var observed := RunsOf(runs, check);
    || TiedBeyondHash(observed)
    || (!Tied(observed)
        && forall newest | IsNewest(runs, check, newest) ::
             newest.bodyHash == current.bodyHash || !OtherInputsMatch(newest, current))
  }

  /** Binding cannot change the fate of this evidence item. */
  predicate EvidenceBindSafe(e: Evidence, current: Identity, digest: string) {
    || e.state == Live || !e.bodyDependent
    || (e.identity.bodyHash == current.bodyHash <==> e.identity.bodyHash == Some(digest))
  }

  ghost predicate RunsBindSafe(book: Rulebook, i: Input) {
    forall check | check in book.requiredChecks :: CheckBindSafe(i.runs, check, i.state)
  }

  ghost predicate BindSafe(book: Rulebook, i: Input, digest: string) {
    && RunsBindSafe(book, i)
    && (forall e | e in i.evidence :: EvidenceBindSafe(e, i.state, digest))
  }

  // ---- Runs under binding ----

  lemma {:induction false} BoundRunsOf(runs: seq<CheckRun>, check: string, digest: string)
    ensures RunsOf(BoundRuns(runs, digest), check) == BoundRuns(RunsOf(runs, check), digest)
  {
    if runs != [] {
      var front, last := runs[..|runs| - 1], runs[|runs| - 1];
      BoundRunsOf(front, check, digest);
      assert BoundRuns(runs, digest)[..|runs| - 1] == BoundRuns(front, digest);
      if last.check == check {
        assert BoundRuns(RunsOf(front, check) + [last], digest)
            == BoundRuns(RunsOf(front, check), digest) + [BoundRun(last, digest)];
      }
    }
  }

  lemma BoundElements(runs: seq<CheckRun>, digest: string)
    ensures forall x | x in BoundRuns(runs, digest) :: exists r :: r in runs && BoundRun(r, digest) == x
    ensures forall r | r in runs :: BoundRun(r, digest) in BoundRuns(runs, digest)
  {
    var b := BoundRuns(runs, digest);
    forall x | x in b ensures exists r :: r in runs && BoundRun(r, digest) == x {
      var k :| 0 <= k < |b| && b[k] == x;
      assert runs[k] in runs && BoundRun(runs[k], digest) == x;
    }
    forall r | r in runs ensures BoundRun(r, digest) in b {
      var k :| 0 <= k < |runs| && runs[k] == r;
      assert b[k] == BoundRun(r, digest);
    }
  }

  lemma BoundApart(r: CheckRun, s: CheckRun, digest: string)
    ensures BoundRun(r, digest) == BoundRun(s, digest) <==> r.(bodyHash := None) == s.(bodyHash := None)
    ensures Id(BoundRun(r, digest)) == Id(r)
  {
  }

  lemma BoundTiesOnly(runs: seq<CheckRun>, digest: string)
    requires Tied(BoundRuns(runs, digest))
    ensures TiedBeyondHash(runs)
  {
    var b := BoundRuns(runs, digest);
    var x, y :| x in b && y in b && Id(x) == Id(y) && x != y;
    var p :| 0 <= p < |b| && b[p] == x;
    var q :| 0 <= q < |b| && b[q] == y;
    BoundApart(runs[p], runs[q], digest);
    BoundApart(runs[q], runs[p], digest);
    assert runs[p] in runs && runs[q] in runs;
  }

  lemma BoundTiesToo(runs: seq<CheckRun>, digest: string)
    requires TiedBeyondHash(runs)
    ensures Tied(BoundRuns(runs, digest)) && Tied(runs)
  {
    var r, s :| r in runs && s in runs && Id(r) == Id(s) && r.(bodyHash := None) != s.(bodyHash := None);
    BoundElements(runs, digest);
    BoundApart(r, s, digest);
    BoundApart(s, r, digest);
    assert Id(BoundRun(r, digest)) == Id(BoundRun(s, digest));
  }

  lemma BoundTies(runs: seq<CheckRun>, digest: string)
    ensures Tied(BoundRuns(runs, digest)) <==> TiedBeyondHash(runs)
    ensures TiedBeyondHash(runs) ==> Tied(runs)
  {
    if Tied(BoundRuns(runs, digest)) { BoundTiesOnly(runs, digest); }
    if TiedBeyondHash(runs) { BoundTiesToo(runs, digest); }
  }

  /** Without contradictions, binding and ordering commute. */
  lemma BoundOrdered(runs: seq<CheckRun>, digest: string)
    requires !Tied(runs)
    ensures Ordered(BoundRuns(runs, digest)) == BoundRuns(Ordered(runs), digest)
  {
    var b, o := BoundRuns(runs, digest), Ordered(runs);
    var x, y := BoundRuns(o, digest), Ordered(b);
    BoundTies(runs, digest);
    OrderedRuns(runs);
    OrderedRuns(b);
    BoundElements(runs, digest);
    BoundElements(o, digest);
    IdOrder();
    assert SortedBy(x, IdLe);
    forall p, q | 0 <= p < q < |x| ensures x[p] != x[q] {
      assert o[p] in o && o[q] in o && o[p] != o[q];
    }
    SameElementsPermute(y, x);
    assert TieFree(y, IdLe);
    SortedUnique(y, x, IdLe);
  }

  lemma SafeCheckKept(runs: seq<CheckRun>, check: string, current: Identity, digest: string)
    requires CheckBindSafe(runs, check, current)
    ensures CheckObligations(BoundRuns(runs, digest), check, BoundState(current, digest))
      == CheckObligations(runs, check, current)
  {
    var observed := RunsOf(runs, check);
    BoundRunsOf(runs, check, digest);
    BoundTies(observed, digest);
    if !TiedBeyondHash(observed) {
      BoundOrdered(observed, digest);
      LastIsNewest(runs, check);
      var o := Ordered(observed);
      if o != [] {
        SafeHistoryKept(o, current, digest);
      }
    }
  }

  lemma SafeHistoryKept(o: seq<CheckRun>, current: Identity, digest: string)
    requires o != []
    requires var newest := o[|o| - 1]; newest.bodyHash == current.bodyHash || !OtherInputsMatch(newest, current)
    ensures var newest, b := o[|o| - 1], BoundRuns(o, digest);
      && VerdictObligations(Judge(BoundRun(newest, digest), BoundState(current, digest)), BoundRun(newest, digest))
         == VerdictObligations(Judge(newest, current), newest)
      && HistoryObligations(b) == HistoryObligations(o)
  {
    var b := BoundRuns(o, digest);
    assert Refs(b[..|b| - 1]) == Refs(o[..|o| - 1]);
    assert Refs([BoundRun(o[|o| - 1], digest)]) == Refs([o[|o| - 1]]);
    assert AllSucceeded(b) <==> AllSucceeded(o) by {
      assert forall k | 0 <= k < |o| :: b[k].status == o[k].status;
    }
  }

  lemma {:induction false} SafeRunsKept(runs: seq<CheckRun>, checks: seq<string>, current: Identity, digest: string)
    requires forall check | check in checks :: CheckBindSafe(runs, check, current)
    ensures RunObligations(BoundRuns(runs, digest), checks, BoundState(current, digest))
      == RunObligations(runs, checks, current)
  {
    if checks != [] {
      SafeRunsKept(runs, checks[..|checks| - 1], current, digest);
      SafeCheckKept(runs, checks[|checks| - 1], current, digest);
    }
  }

  // ---- Evidence under binding ----

  /** The changed fields other than the body hash. */
  function OtherChanges(e: Evidence, current: Identity): seq<string> {
    ChangedFields(e.(bodyDependent := false), current)
  }

  function HashChange(e: Evidence, current: Identity): seq<string> {
    if e.bodyDependent && e.identity.bodyHash != current.bodyHash then ["pr_body_hash"] else []
  }

  lemma ChangesSplit(e: Evidence, current: Identity, digest: string)
    ensures ChangedFields(e, current) == OtherChanges(e, current) + HashChange(e, current)
    ensures OtherChanges(e, BoundState(current, digest)) == OtherChanges(e, current)
  {
  }

  lemma FateKept(e: Evidence, current: Identity, digest: string, permitted: bool)
    ensures EvidenceBindSafe(e, current, digest) <==>
      FateOf(e, BoundState(current, digest), permitted) == FateOf(e, current, permitted)
  {
    ChangesSplit(e, current, digest);
    ChangesSplit(e, BoundState(current, digest), digest);
    FateOfChanges(e, OtherChanges(e, current), permitted);
  }

  /** The fate of an item whose other changes are `others`, with and without a hash change. */
  function FateFrom(e: Evidence, changed: seq<string>, permitted: bool): Fate {
    if e.state == Fresh && changed == [] && permitted then Reuse
    else if e.state == Live then Recollect
    else Invalidate(if changed == [] then ["evidence_state"] else changed)
  }

  lemma FateOfChanges(e: Evidence, others: seq<string>, permitted: bool)
    ensures (FateFrom(e, others + [], permitted) == FateFrom(e, others + ["pr_body_hash"], permitted)
             <==> e.state == Live)
  {
    assert others + [] == others;
    assert |others + ["pr_body_hash"]| == |others| + 1;
    assert ["pr_body_hash"][0] == "pr_body_hash" && "pr_body_hash"[0] != "evidence_state"[0];
    assert others == [] ==> (others + ["pr_body_hash"])[0] != ["evidence_state"][0];
  }

  lemma {:induction false} SafeEvidenceKept(evidence: seq<Evidence>, current: Identity, digest: string, permitted: bool)
    requires forall e | e in evidence :: EvidenceBindSafe(e, current, digest)
    ensures Sift(evidence, FatesOf(BoundState(current, digest), permitted))
         == Sift(evidence, FatesOf(current, permitted))
  {
    if evidence != [] {
      SafeEvidenceKept(evidence[..|evidence| - 1], current, digest, permitted);
      FateKept(evidence[|evidence| - 1], current, digest, permitted);
    }
  }

  // ---- Sufficiency ----

  lemma BoundScope(book: Rulebook, i: Input, digest: string)
    ensures ScopeBlockers(book, Bound(i, digest)) == ScopeBlockers(book, i)
    ensures ScopeRequirements(book, Bound(i, digest)) == ScopeRequirements(book, i)
    ensures Bound(i, digest).runs == BoundRuns(i.runs, digest)
    ensures Bound(i, digest).state == BoundState(i.state, digest)
  {
  }

  lemma AssembleKept(book: Rulebook, i: Input, digest: string, sifted: Sifted, o: Obligations)
    ensures SameButHash(Assemble(book, i, sifted, o), Assemble(book, Bound(i, digest), sifted, o))
  {
    BoundScope(book, i, digest);
  }

  /** The reused, recollected and invalidated evidence when `current` is the current identity. */
  function EvidenceLists(book: Rulebook, i: Input, current: Identity): Sifted {
    Sift(Sort(i.evidence, EvidenceLe), FatesOf(current, ScopeRequirements(book, i).reusePermitted)).(reasons := [])
  }

  /** The three evidence lists are the same before and after binding. */
  predicate EvidenceListsKept(book: Rulebook, i: Input, digest: string) {
    EvidenceLists(book, i, BoundState(i.state, digest)) == EvidenceLists(book, i, i.state)
  }

  function ReasonsOf(invalidated: seq<(Reference, seq<string>)>): seq<Code> {
    if invalidated == [] then []
    else
      var last := invalidated[|invalidated| - 1];
      ReasonsOf(invalidated[..|invalidated| - 1]) + InvalidationReasons(last.0.id, last.1)
  }

  /** The reasons are read off the invalidated items. */
  lemma {:induction false} SiftReasons(evidence: seq<Evidence>, fates: Fates)
    ensures Sift(evidence, fates).reasons == ReasonsOf(Sift(evidence, fates).invalidated)
  {
    if evidence != [] {
      var front, e := evidence[..|evidence| - 1], evidence[|evidence| - 1];
      SiftReasons(front, fates);
      if fates(e).Invalidate? {
        var before, s := Sift(front, fates).invalidated, Sift(evidence, fates).invalidated;
        assert s[..|s| - 1] == before;
      }
    }
  }

  lemma SiftTold(evidence: seq<Evidence>, fates: Fates, other: Fates)
    requires Sift(evidence, fates).(reasons := []) == Sift(evidence, other).(reasons := [])
    ensures Sift(evidence, fates) == Sift(evidence, other)
  {
    SiftReasons(evidence, fates);
    SiftReasons(evidence, other);
  }

  lemma ListsKept(book: Rulebook, i: Input, digest: string)
    requires RunsBindSafe(book, i) && EvidenceListsKept(book, i, digest)
    ensures SameButHash(Evaluation(book, i), Evaluation(book, Bound(i, digest)))
  {
    var permitted := ScopeRequirements(book, i).reusePermitted;
    var sorted := Sort(i.evidence, EvidenceLe);
    BoundScope(book, i, digest);
    SafeRunsKept(i.runs, book.requiredChecks, i.state, digest);
    SiftTold(sorted, FatesOf(BoundState(i.state, digest), permitted), FatesOf(i.state, permitted));
    AssembleKept(book, i, digest, Sift(sorted, FatesOf(i.state, permitted)),
                 RunObligations(i.runs, book.requiredChecks, i.state));
  }

  lemma SafeKept(book: Rulebook, i: Input, digest: string)
    requires BindSafe(book, i, digest)
    ensures SameButHash(Evaluation(book, i), Evaluation(book, Bound(i, digest)))
  {
    EvidenceOrder();
    SortCorrect(i.evidence, EvidenceLe);
    SafeEvidenceKept(Sort(i.evidence, EvidenceLe), i.state, digest, ScopeRequirements(book, i).reusePermitted);
    ListsKept(book, i, digest);
  }

  // ---- Necessity ----

  lemma RenderTellsTies(c: Code, check: string)
    requires Render(c) == Render(RunTie(check))
    ensures c == RunTie(check)
  {
    assert Render(RunTie(check))[0] == 'A';
    if c.RunTie? {
      CancelPrefix("AMBIGUOUS_REQUIRED_CHECK_RUN_TIE:", c.check, check);
    }
  }

  lemma RenderTellsMismatches(c: Code, check: string)
    requires Render(c) == Render(InputMismatch(check))
    ensures c == InputMismatch(check)
  {
    assert Render(InputMismatch(check))[0] == 'R' && Render(InputMismatch(check))[15] == 'I';
    if c.InputMismatch? {
      CancelPrefix("REQUIRED_CHECK_INPUT_MISMATCH:", c.check, check);
    }
  }

  lemma TieOfCheck(runs: seq<CheckRun>, c: string, current: Identity, check: string)
    ensures RunTie(check) in CheckObligations(runs, c, current).blockers <==> c == check && Tied(RunsOf(runs, check))
  {
    OrderedNames(runs, c);
  }

  lemma {:induction false} TieListed(runs: seq<CheckRun>, checks: seq<string>, current: Identity, check: string)
    ensures RunTie(check) in RunObligations(runs, checks, current).blockers
      <==> check in checks && Tied(RunsOf(runs, check))
  {
    if checks != [] {
      TieListed(runs, checks[..|checks| - 1], current, check);
      TieOfCheck(runs, checks[|checks| - 1], current, check);
    }
  }

  lemma OrderedNames(runs: seq<CheckRun>, check: string)
    ensures !Tied(RunsOf(runs, check)) ==> forall r | r in Ordered(RunsOf(runs, check)) :: r.check == check
  {
    RunsOfElements(runs, check);
    if !Tied(RunsOf(runs, check)) { OrderedRuns(RunsOf(runs, check)); }
  }

  /** The check's newest run, if it is observed and untied, is off the current inputs. */
  ghost predicate Mismatched(runs: seq<CheckRun>, check: string, current: Identity) {
    && !Tied(RunsOf(runs, check))
    && exists newest :: IsNewest(runs, check, newest) && !SameInputs(newest, current)
  }

  lemma MismatchOfCheck(runs: seq<CheckRun>, c: string, current: Identity, check: string)
    ensures InputMismatch(check) in CheckObligations(runs, c, current).blockers
      <==> c == check && Mismatched(runs, check, current)
  {
    OrderedNames(runs, c);
    if !Tied(RunsOf(runs, c)) {
      LastIsNewest(runs, c);
      var o := Ordered(RunsOf(runs, c));
      if o != [] { assert o[|o| - 1] in o; }
    }
  }

  lemma {:induction false} MismatchListed(runs: seq<CheckRun>, checks: seq<string>, current: Identity, check: string)
    ensures InputMismatch(check) in RunObligations(runs, checks, current).blockers
      <==> check in checks && Mismatched(runs, check, current)
  {
    if checks != [] {
      MismatchListed(runs, checks[..|checks| - 1], current, check);
      MismatchOfCheck(runs, checks[|checks| - 1], current, check);
    }
  }

  /** A code is among the rendered blockers exactly when its text is. */
  lemma Rendered1(codes: seq<Code>, c: Code)
    ensures c in codes ==> Render(c) in SortedSet(RenderAll(codes))
    ensures Render(c) in SortedSet(RenderAll(codes)) ==> exists d :: d in codes && Render(d) == Render(c)
  {
    var texts := RenderAll(codes);
    SortedSetElements(texts);
    if c in codes {
      var k :| 0 <= k < |codes| && codes[k] == c;
      assert texts[k] == Render(c);
    }
    if Render(c) in texts {
      var k :| 0 <= k < |texts| && texts[k] == Render(c);
      assert codes[k] in codes;
    }
  }

  ghost function BlockerCodes(book: Rulebook, i: Input): seq<Code> {
    ScopeBlockers(book, i) + RunObligations(i.runs, book.requiredChecks, i.state).blockers
  }

  lemma BlockersOf(book: Rulebook, i: Input)
    ensures Evaluation(book, i).blockers == SortedSet(RenderAll(BlockerCodes(book, i)))
  {
  }

  /** Equal rendered blocker lists render the same texts. */
  lemma SameTexts(a: seq<Code>, b: seq<Code>, c: Code) returns (d: Code)
    requires SortedSet(RenderAll(a)) == SortedSet(RenderAll(b)) && c in a
    ensures d in b && Render(d) == Render(c)
  {
    Rendered1(a, c);
    Rendered1(b, c);
    d :| d in b && Render(d) == Render(c);
  }

  lemma TieInCodes(book: Rulebook, i: Input, check: string)
    ensures RunTie(check) in BlockerCodes(book, i) <==> check in book.requiredChecks && Tied(RunsOf(i.runs, check))
  {
    TieListed(i.runs, book.requiredChecks, i.state, check);
    NoRunCodesInScope(book, i, check);
  }

  lemma MismatchInCodes(book: Rulebook, i: Input, check: string)
    ensures InputMismatch(check) in BlockerCodes(book, i)
      <==> check in book.requiredChecks && Mismatched(i.runs, check, i.state)
  {
    MismatchListed(i.runs, book.requiredChecks, i.state, check);
    NoRunCodesInScope(book, i, check);
  }

  lemma NoRunCodesInScope(book: Rulebook, i: Input, check: string)
    ensures RunTie(check) !in ScopeBlockers(book, i) && InputMismatch(check) !in ScopeBlockers(book, i)
  {
    forall c | c in ScopeBlockers(book, i) ensures IsScopeCode(c) {
    }
  }

  predicate IsScopeCode(c: Code) {
    || c == InvalidPath || c == NondeterministicInventory || c == InventoryHashMismatch
    || c == IncompleteInventory || c == UnknownClass || c == UncertainDependency
  }

  lemma KeptTies(book: Rulebook, i: Input, j: Input, check: string)
    requires SortedSet(RenderAll(BlockerCodes(book, i))) == SortedSet(RenderAll(BlockerCodes(book, j)))
    requires check in book.requiredChecks && Tied(RunsOf(i.runs, check))
    ensures Tied(RunsOf(j.runs, check))
  {
    TieInCodes(book, i, check);
    TieInCodes(book, j, check);
    var d := SameTexts(BlockerCodes(book, i), BlockerCodes(book, j), RunTie(check));
    RenderTellsTies(d, check);
  }

  lemma KeptMismatches(book: Rulebook, i: Input, j: Input, check: string)
    requires SortedSet(RenderAll(BlockerCodes(book, i))) == SortedSet(RenderAll(BlockerCodes(book, j)))
    requires check in book.requiredChecks && Mismatched(i.runs, check, i.state)
    ensures Mismatched(j.runs, check, j.state)
  {
    MismatchInCodes(book, i, check);
    MismatchInCodes(book, j, check);
    var d := SameTexts(BlockerCodes(book, i), BlockerCodes(book, j), InputMismatch(check));
    RenderTellsMismatches(d, check);
  }

  lemma KeptCheckSafe(book: Rulebook, i: Input, digest: string, check: string)
    requires Evaluation(book, i).blockers == Evaluation(book, Bound(i, digest)).blockers
    requires check in book.requiredChecks
    ensures CheckBindSafe(i.runs, check, i.state)
  {
    var observed, j := RunsOf(i.runs, check), Bound(i, digest);
    BlockersOf(book, i);
    BlockersOf(book, j);
    BoundScope(book, i, digest);
    BoundRunsOf(i.runs, check, digest);
    BoundTies(observed, digest);
    if Tied(observed) {
      KeptTies(book, i, j, check);
    } else {
      forall newest | IsNewest(i.runs, check, newest)
        ensures newest.bodyHash == i.state.bodyHash || !OtherInputsMatch(newest, i.state)
      {
        if !SameInputs(newest, i.state) {
          KeptMismatches(book, i, j, check);
          BoundNewest(i.runs, check, newest, digest);
          var later :| IsNewest(j.runs, check, later) && !SameInputs(later, j.state);
          NewestUnique(j.runs, check, later, BoundRun(newest, digest));
        }
      }
    }
  }

  lemma BoundNewest(runs: seq<CheckRun>, check: string, newest: CheckRun, digest: string)
    requires IsNewest(runs, check, newest)
    ensures IsNewest(BoundRuns(runs, digest), check, BoundRun(newest, digest))
  {
    BoundElements(runs, digest);
  }

  lemma NewestUnique(runs: seq<CheckRun>, check: string, a: CheckRun, b: CheckRun)
    requires !Tied(RunsOf(runs, check)) && IsNewest(runs, check, a) && IsNewest(runs, check, b)
    ensures a == b
  {
    LastIsNewest(runs, check);
  }

  /** No two different evidence items have the same identifier and references. */
  ghost predicate DistinctReferences(evidence: seq<Evidence>) {
    forall a, b | a in evidence && b in evidence && ReferenceTo(a) == ReferenceTo(b) :: a == b
  }

  lemma KeptFate(evidence: seq<Evidence>, fates: Fates, other: Fates, s: Sifted, e: Evidence)
    requires DistinctReferences(evidence) && e in evidence
    requires Placed(evidence, fates, s) && Justified(evidence, other, s)
    ensures fates(e) == other(e)
  {
    assert PlacedOne(e, fates, s);
    assert HasFate(evidence, other, ReferenceTo(e), fates(e));
    var x :| x in evidence && ReferenceTo(x) == ReferenceTo(e) && other(x) == fates(e);
    assert x == e;
  }

  lemma KeptEvidenceSafe(book: Rulebook, i: Input, digest: string, e: Evidence)
    requires SiftedOf(Evaluation(book, i)) == SiftedOf(Evaluation(book, Bound(i, digest)))
    requires DistinctReferences(i.evidence) && e in i.evidence
    ensures EvidenceBindSafe(e, i.state, digest)
  {
    var permitted := ScopeReady(book, i);
    var fates, bound := FatesOf(i.state, permitted), FatesOf(BoundState(i.state, digest), permitted);
    EvidenceConserved(book, i);
    EvidenceConserved(book, Bound(i, digest));
    KeptFate(i.evidence, fates, bound, SiftedOf(Evaluation(book, i)), e);
    FateKept(e, i.state, digest, permitted);
  }

  lemma KeptRunsSafe(book: Rulebook, i: Input, digest: string)
    requires SameButHash(Evaluation(book, i), Evaluation(book, Bound(i, digest)))
    ensures RunsBindSafe(book, i)
  {
    forall check | check in book.requiredChecks ensures CheckBindSafe(i.runs, check, i.state) {
      KeptCheckSafe(book, i, digest, check);
    }
  }

  lemma KeptListsSafe(book: Rulebook, i: Input, digest: string)
    requires SameButHash(Evaluation(book, i), Evaluation(book, Bound(i, digest)))
    ensures EvidenceListsKept(book, i, digest)
  {
    EvaluationSifts(book, i);
    EvaluationSifts(book, Bound(i, digest));
    PermittedScope(book, i);
    PermittedScope(book, Bound(i, digest));
    BoundScope(book, i, digest);
  }

  /** Binding changes nothing but the hash exactly when it is safe for every required check and
      leaves the three evidence lists alone; when the references tell the evidence items apart, the
      lists are left alone exactly when every single item is safe. */
  lemma KeptExactly(book: Rulebook, i: Input, digest: string)
    ensures SameButHash(Evaluation(book, i), Evaluation(book, Bound(i, digest)))
      <==> RunsBindSafe(book, i) && EvidenceListsKept(book, i, digest)
    ensures DistinctReferences(i.evidence) ==>
      (SameButHash(Evaluation(book, i), Evaluation(book, Bound(i, digest))) <==> BindSafe(book, i, digest))
  {
    if SameButHash(Evaluation(book, i), Evaluation(book, Bound(i, digest))) {
      KeptRunsSafe(book, i, digest);
      KeptListsSafe(book, i, digest);
      if DistinctReferences(i.evidence) {
        forall e | e in i.evidence ensures EvidenceBindSafe(e, i.state, digest) {
          KeptEvidenceSafe(book, i, digest, e);
        }
      }
    }
    if RunsBindSafe(book, i) && EvidenceListsKept(book, i, digest) { ListsKept(book, i, digest); }
    if BindSafe(book, i, digest) { SafeKept(book, i, digest); }
  }

  /** Rendering compact evidence stabilizes exactly when binding the preliminary digest is safe for
      every required check and leaves the evidence lists alone. */
  lemma StabilizesExactly(codec: Codec, book: Rulebook, i: Input, remarks: Remarks, prefix: string, suffix: string)
    requires Injective(book.sha) && InjectiveDumps(codec) && FaithfulResults(codec)
    ensures var digest := Digest(codec, book, i, remarks, prefix, suffix);
      && (Stabilizes(codec, book, i, remarks, prefix, suffix)
          <==> RunsBindSafe(book, i) && EvidenceListsKept(book, i, digest))
      && (DistinctReferences(i.evidence) ==>
            (Stabilizes(codec, book, i, remarks, prefix, suffix) <==> BindSafe(book, i, digest)))
  {
    StabilizesIffResultKept(codec, book, i, remarks, prefix, suffix);
    KeptExactly(book, i, Digest(codec, book, i, remarks, prefix, suffix));
  }

  /** A newest run of a required check that is current in all but the body hash. */
  ghost predicate OnlyBodyStale(runs: seq<CheckRun>, check: string, r: CheckRun, current: Identity) {
    && IsNewest(runs, check, r) && !TiedBeyondHash(RunsOf(runs, check))
    && OtherInputsMatch(r, current) && r.bodyHash != current.bodyHash
  }

  /** Such a run keeps every rendering from stabilizing: before binding it blocks as off the current
      inputs, after binding it no longer does, whatever digest is bound. */
  lemma StaleBodyNeverStabilizes(
      codec: Codec, book: Rulebook, i: Input, remarks: Remarks, prefix: string, suffix: string, check: string,
      r: CheckRun)
    requires check in book.requiredChecks && OnlyBodyStale(i.runs, check, r, i.state)
    ensures forall digest :: !SameButHash(Evaluation(book, i), Evaluation(book, Bound(i, digest)))
    ensures Injective(book.sha) && InjectiveDumps(codec) && FaithfulResults(codec) ==>
      !Stabilizes(codec, book, i, remarks, prefix, suffix)
  {
    assert !CheckBindSafe(i.runs, check, i.state);
    assert !RunsBindSafe(book, i);
    forall digest ensures !SameButHash(Evaluation(book, i), Evaluation(book, Bound(i, digest))) {
      KeptExactly(book, i, digest);
    }
    if Injective(book.sha) && InjectiveDumps(codec) && FaithfulResults(codec) {
      StabilizesExactly(codec, book, i, remarks, prefix, suffix);
    }
  }

  const COMMIT := "0123456789abcdef0123456789abcdef01234567"
  const DIGEST := "0123456789abcdef0123456789abcdef0123456789abcdef0123456789abcdef"

  /** A schema-valid state whose body is not hashed yet. */
  const UNHASHED := Identity(
    "owner/name", 1, "main", COMMIT, "topic", COMMIT, COMMIT, DIGEST, "1.0.3",
    "recordstracker.evidence-reuse-validation-impact.v1", "1", [], Some(DIGEST), None)

  const VALIDATE_RUN := CheckRun(
    "validate", 1, 1, Success, Some("success"), COMMIT, COMMIT, DIGEST, Some(DIGEST))

  /** One successful run, recorded for an earlier body of the same commit. */
  const STALE_INPUT := Input(UNHASHED, true, ["docs/notes.md"], true, Some(DIGEST), [], [VALIDATE_RUN])

  /** One schema-valid input that no rulebook requiring the check renders. */
  lemma StaleInputNeverStabilizes(codec: Codec, book: Rulebook, remarks: Remarks, prefix: string, suffix: string)
    requires "validate" in book.requiredChecks
    requires Injective(book.sha) && InjectiveDumps(codec) && FaithfulResults(codec)
    ensures !Stabilizes(codec, book, STALE_INPUT, remarks, prefix, suffix)
  {
    RunsOfElements(STALE_INPUT.runs, "validate");
    assert VALIDATE_RUN in STALE_INPUT.runs;
    assert OnlyBodyStale(STALE_INPUT.runs, "validate", VALIDATE_RUN, UNHASHED);
    StaleBodyNeverStabilizes(codec, book, STALE_INPUT, remarks, prefix, suffix, "validate", VALIDATE_RUN);
  }

  /** The everyday case, with no assumption on hash, encoding or identifiers: all runs carry the
      current body hash and body-dependent evidence compares as it did before. */
  lemma UniformInputStabilizes(codec: Codec, book: Rulebook, i: Input, remarks: Remarks, prefix: string, suffix: string)
    requires forall r | r in i.runs :: r.bodyHash == i.state.bodyHash
    requires forall e | e in i.evidence :: EvidenceBindSafe(e, i.state, Digest(codec, book, i, remarks, prefix, suffix))
    ensures Stabilizes(codec, book, i, remarks, prefix, suffix)
    ensures SameButHash(Evaluation(book, i),
                        Evaluation(book, Bound(i, Digest(codec, book, i, remarks, prefix, suffix))))
  {
    var digest := Digest(codec, book, i, remarks, prefix, suffix);
    forall check | check in book.requiredChecks ensures CheckBindSafe(i.runs, check, i.state) {
      UniformCheckSafe(i.runs, check, i.state);
    }
    SafeKept(book, i, digest);
    StabilizesIffResultKept(codec, book, i, remarks, prefix, suffix);
  }

  lemma UniformCheckSafe(runs: seq<CheckRun>, check: string, current: Identity)
    requires forall r | r in runs :: r.bodyHash == current.bodyHash
    ensures CheckBindSafe(runs, check, current)
  {
    var observed := RunsOf(runs, check);
    RunsOfElements(runs, check);
    if Tied(observed) {
      var r, s :| r in observed && s in observed && Id(r) == Id(s) && r != s;
      assert r.(bodyHash := None) != s.(bodyHash := None);
    }
  }
}
