/** The inspection as a whole: what it refuses before reading anything, what the evidence schema
    refuses once everything is read, and that the order in which sources list things is immaterial. */
module ClosureEvidence {
  import opened ClosingReferences
  import opened Closure
  import opened Options
  import opened Ordering

  /** The pull request as read; a field is `None` when it is missing. */
  datatype PullView = PullView(
    number: Option<int>, base: Option<string>, baseSha: Option<string>, head: Option<string>, headSha: Option<string>)

  /** An emitted timeline entry: what was observed, and what no decision looks at. */
  datatype Event = Event(
    seen: Observation, occurredAt: Option<string>, actor: Option<string>, commitSha: Option<string>)

  /** An emitted issue state. */
  datatype StateRecord = StateRecord(state: string, reason: Field, closedAt: Field, reopenedAt: Field)

  /** The emitted evidence; left out are its constant parts and what is copied from the parts here. */
  datatype Record = Record(
    pull: PullView, inspectedAt: string, contract: seq<Declaration>, bodyNumbers: seq<int>,
    graphqlNumbers: seq<int>, developmentLinks: seq<int>, timeline: seq<Event>, states: map<int, StateRecord>,
    findings: seq<Finding>, readiness: Readiness)

  datatype Inspection = Refused | Evidenced(evidence: Record)

  /** The two patterns and the date format of the schema. */
  datatype Schema = Schema(repositoryText: string -> bool, shaText: string -> bool, dateText: string -> bool)

  predicate AtMost(text: Option<string>, limit: nat) { text.Some? ==> |text.value| <= limit }

  predicate DeclarationFits(d: Declaration) {
    Filled(d.authority) && AtMost(d.authority, 200) && Filled(d.rationale) && AtMost(d.rationale, 400)
    && AtMost(d.postReason, 120) && d.plain
  }

  predicate ContractFits(contract: seq<Declaration>) {
    contract != [] && forall d | d in contract :: DeclarationFits(d)
  }

  predicate IssueNumbers(numbers: seq<int>) {
    (forall i, j | 0 <= i < j < |numbers| :: numbers[i] != numbers[j]) && forall n | n in numbers :: n > 0
  }

  predicate EventFits(e: Event, schema: Schema) {
    && 1 <= |e.seen.event| <= 80 && AtMost(e.occurredAt, 40)
    && (e.actor.Some? ==> 1 <= |e.actor.value| <= 120)
    && (e.commitSha.Some? ==> schema.shaText(e.commitSha.value))
  }

  predicate DateFits(date: Field, schema: Schema) { date.Empty? || (date.Text? && schema.dateText(date.text)) }

  predicate StateFits(s: StateRecord, schema: Schema) {
    && s.state in {"open", "closed", "unknown"}
    && (s.reason.Empty? || (s.reason.Text? && |s.reason.text| <= 120))
    && DateFits(s.closedAt, schema) && DateFits(s.reopenedAt, schema)
  }

  predicate Sha(text: Option<string>, schema: Schema) { text.Some? && schema.shaText(text.value) }

  predicate PullFits(pull: PullView, schema: Schema) {
    Filled(pull.base) && Sha(pull.baseSha, schema) && Filled(pull.head) && Sha(pull.headSha, schema)
  }

  /** `validate_evidence` */
  predicate FitsSchema(e: Record, repository: string, schema: Schema) {
    && schema.repositoryText(repository) && schema.dateText(e.inspectedAt)
    && PullFits(e.pull, schema) && ContractFits(e.contract)
    && IssueNumbers(e.bodyNumbers) && IssueNumbers(e.graphqlNumbers) && IssueNumbers(e.developmentLinks)
    && (forall x | x in e.timeline :: EventFits(x, schema))
    && (forall n | n in e.states :: StateFits(e.states[n], schema))
  }

  // ---- The emitted evidence ----

  /** The plain development links; a repeated link is listed repeatedly. */
  function DevelopmentLinks(os: seq<Observation>): seq<int> {
    if os == [] then []
    else
      var last := os[|os| - 1];
      DevelopmentLinks(os[..|os| - 1])
      + if last.classification.DevelopmentLink? && last.issue.Some? then [last.issue.value] else []
  }

  /** `_numbers` on issue numbers: sorted, repetitions kept. */
  function SortedNumbers(numbers: seq<int>): seq<int> { Sort(numbers, IntLe) }

  /** `_timeline_observation`, all of it. */
  function Emit(item: TimelineItem, isSha: string -> bool): Event {
    var o := Observe(item, isSha);
    var commit := o.classification.CommitEvent?;
    Event(o, if commit && item.createdAt.None? then item.authorDate else item.createdAt, item.actor,
          if commit then item.sha else None)
  }

  function EmitAll(items: seq<TimelineItem>, isSha: string -> bool): (events: seq<Event>)
    ensures |events| == |items|
    ensures forall i | 0 <= i < |items| :: events[i] == Emit(items[i], isSha)
  {
    seq(|items|, i requires 0 <= i < |items| => Emit(items[i], isSha))
  }

  /** `_sorted_timeline_observations` looks neither at actors nor at commits. */
  predicate EventLe(a: Event, b: Event) { ObservationLe(a.seen, b.seen) }

  function Emitted(items: seq<TimelineItem>, isSha: string -> bool): seq<Event> {
    Sort(EmitAll(items, isSha), EventLe)
  }

  function EmittedTimeline(w: Evidence): seq<Event> {
    if w.timeline.Collected? then Emitted(w.timeline.value, w.isSha) else []
  }

  /** `_observed_state`, and what stands for it when the issue could not be read. */
  function StateRecordOf(w: Evidence, n: int): StateRecord {
    match w.issue(n)
    case Unavailable => StateRecord("unknown", Empty, Empty, Empty)
    case Read(_, reason, closedAt, reopenedAt) => StateRecord(w.State(n), reason, closedAt, reopenedAt)
  }

  /** The states of the declared issues. */
  function ObservedStates(w: Evidence, entries: seq<Entry>): map<int, StateRecord> {
    map n | n in Numbers(entries) :: StateRecordOf(w, n)
  }

  /** The record made of what was read. */
  function RecordOf(
      pull: PullView, inspectedAt: string, contract: seq<Declaration>, w: Evidence, entries: seq<Entry>): Record
  {
    Record(
      pull, inspectedAt, contract, SortedInts(w.bodyLinks), SortedNumbers(w.GraphqlLinks()),
      SortedNumbers(DevelopmentLinks(w.Timeline())), EmittedTimeline(w), ObservedStates(w, entries),
      SortFindings(Findings(w, entries)), Classify(Findings(w, entries)))
  }

  // ---- What is refused, read off the raw answers ----

  function Slashes(text: string): nat {
    if text == [] then 0 else Slashes(text[..|text| - 1]) + if text[|text| - 1] == '/' then 1 else 0
  }

  /** What is settled before any source is read. */
  ghost predicate Admitted(
      repository: string, number: int, contract: seq<Declaration>, identity: Option<string>, pull: PullView)
  {
    && Valid(contract, repository) && Slashes(repository) == 1 && number > 0
    && identity == Some(repository) && pull.number == Some(number)
  }

  /** An event with a name, an actor and a date of acceptable length; a commit without a date of its
      own is dated by its author, and its SHA is one for the schema too. */
  predicate ItemFits(item: TimelineItem, isSha: string -> bool, schema: Schema) {
    var commit := item.event == Some("committed") && PlainCommit(item, isSha);
    && (item.event.Some? ==> 1 <= |item.event.value| <= 80)
    && (item.actor.Some? ==> 1 <= |item.actor.value| <= 120)
    && (if item.createdAt.Some? then |item.createdAt.value| <= 40 else commit ==> |item.authorDate.value| <= 40)
    && (commit ==> schema.shaText(item.sha.value))
  }

  predicate PlainLink(item: TimelineItem) {
    item.event == Some("connected") && item.closesIssue != Some(true) && SourceIssue(item).Some?
  }

  predicate SameLink(a: TimelineItem, b: TimelineItem) {
    PlainLink(a) && PlainLink(b) && SourceIssue(a) == SourceIssue(b)
  }

  /** No two plain development links name the same issue. */
  predicate LinksOnce(items: seq<TimelineItem>) {
    forall i, j | 0 <= i < j < |items| :: !SameLink(items[i], items[j])
  }

  /** A state that is open, closed or not told, with a reason and dates the schema knows. */
  predicate ReplyFits(reply: IssueReply, schema: Schema) {
    reply.Read? ==>
      && (Filled(reply.state) ==> reply.state.value in {"open", "closed", "unknown"})
      && (reply.reason.Empty? || (reply.reason.Text? && |reply.reason.text| <= 120))
      && DateFits(reply.closedAt, schema) && DateFits(reply.reopenedAt, schema)
  }

  ghost predicate TimelineAccepted(w: Evidence, schema: Schema) {
    w.timeline.Collected? ==>
      LinksOnce(w.timeline.value) && forall item | item in w.timeline.value :: ItemFits(item, w.isSha, schema)
  }

  ghost predicate StatesAccepted(w: Evidence, contract: seq<Declaration>, schema: Schema) {
    forall d | d in contract && d.number.Some? :: ReplyFits(w.issue(d.number.value), schema)
  }

  /** What the schema asks of the declarations, the pull request and the sources' answers. */
  ghost predicate Accepted(
      repository: string, contract: seq<Declaration>, pull: PullView, inspectedAt: string, w: Evidence, schema: Schema)
  {
    && schema.repositoryText(repository) && schema.dateText(inspectedAt)
    && PullFits(pull, schema) && ContractFits(contract)
    && (forall n | n in w.bodyLinks :: n > 0) && IssueNumbers(w.GraphqlLinks())
    && TimelineAccepted(w, schema) && StatesAccepted(w, contract, schema)
  }

  // ---- The inspection ----

  /** `inspect_pre_merge`.  Evidence comes out exactly for admitted identities and accepted answers, it
      is the record of what was read, its readiness is exact, and its findings are sorted. */
  method Inspect(
      repository: string, number: int, contract: seq<Declaration>, identity: Option<string>, pull: PullView,
      inspectedAt: string, w: Evidence, schema: Schema)
    returns (r: Inspection)
    ensures r.Evidenced? <==>
      && Admitted(repository, number, contract, identity, pull)
      && Accepted(repository, contract, pull, inspectedAt, w, schema)
    ensures r.Evidenced? ==>
      && Valid(contract, repository)
      && r.evidence == RecordOf(pull, inspectedAt, contract, w, ReadEntries(contract, repository))
      && Faithful(r.evidence, w, ReadEntries(contract, repository))
  {
    var errors := ValidateContract(contract, repository);
    if errors != {} || Slashes(repository) != 1 || number <= 0 {
      return Refused;
    }
    if identity != Some(repository) || pull.number != Some(number) {
      return Refused;
    }
    var entries := ReadEntries(contract, repository);
    var findings, readiness := InspectPreMerge(w, entries);
    var evidence := Record(
      pull, inspectedAt, contract, SortedInts(w.bodyLinks), SortedNumbers(w.GraphqlLinks()),
      SortedNumbers(DevelopmentLinks(w.Timeline())), EmittedTimeline(w), ObservedStates(w, entries),
      findings, readiness);
    EntriesDistinct(contract, repository);
    FindingsFaithful(evidence, w, entries);
    SchemaAccepts(evidence, repository, w, entries, schema);
    if !FitsSchema(evidence, repository, schema) {
      return Refused;
    }
    return Evidenced(evidence);
  }

  /** The findings are those of the sources and the issues in sorted order, and the readiness says
      exactly whether the evidence is complete and every issue conforms. */
  ghost predicate Faithful(e: Record, w: Evidence, entries: seq<Entry>) {
    && multiset(e.findings) == multiset(Findings(w, entries)) && SortedBy(e.findings, FindingLe)
    && (e.readiness == Ready <==> EvidenceComplete(w, entries) && Conforms(w, entries))
    && (e.readiness == EvidenceIncomplete <==> !EvidenceComplete(w, entries))
  }

  lemma EntriesDistinct(contract: seq<Declaration>, repository: string)
    requires Valid(contract, repository)
    ensures Distinctly(ReadEntries(contract, repository))
  {
    var numbers := Numbers(ReadEntries(contract, repository));
    forall i, j | 0 <= i < j < |numbers| ensures numbers[i] != numbers[j] {
      assert contract[i].number == Some(numbers[i]) && contract[j].number == Some(numbers[j]);
    }
  }

  lemma FindingsFaithful(e: Record, w: Evidence, entries: seq<Entry>)
    requires Distinctly(entries)
    requires e.findings == SortFindings(Findings(w, entries)) && e.readiness == Classify(Findings(w, entries))
    ensures Faithful(e, w, entries)
  {
    SortedElements(Findings(w, entries));
    ReadinessExact(w, entries);
  }

  /** The schema accepts a record exactly when what it was made from is acceptable. */
  lemma SchemaAccepts(e: Record, repository: string, w: Evidence, entries: seq<Entry>, schema: Schema)
    requires |entries| == |e.contract|
    requires forall i | 0 <= i < |entries| :: e.contract[i].number == Some(entries[i].number)
    requires e.bodyNumbers == SortedInts(w.bodyLinks) && e.graphqlNumbers == SortedNumbers(w.GraphqlLinks())
    requires e.timeline == EmittedTimeline(w) && e.states == ObservedStates(w, entries)
    requires e.developmentLinks == SortedNumbers(DevelopmentLinks(w.Timeline()))
    ensures FitsSchema(e, repository, schema)
      <==> Accepted(repository, e.contract, e.pull, e.inspectedAt, w, schema)
  {
    BodyFits(w.bodyLinks);
    NumbersFit(w.GraphqlLinks());
    NumbersFit(DevelopmentLinks(w.Timeline()));
    StatesFit(w, e.contract, entries, e.states, schema);
    LinksFit(w);
    if w.timeline.Collected? { TimelineFits(w, schema); }
  }

  lemma BodyFits(numbers: seq<int>)
    ensures IssueNumbers(SortedInts(numbers)) <==> forall n | n in numbers :: n > 0
  {
    SortedIntsElements(numbers);
  }

  lemma NumbersFit(numbers: seq<int>)
    ensures IssueNumbers(SortedNumbers(numbers)) <==> IssueNumbers(numbers)
  {
    SortCorrect(numbers, IntLe);
    SameRepeats(SortedNumbers(numbers), numbers);
  }

  lemma StatesFit(
      w: Evidence, contract: seq<Declaration>, entries: seq<Entry>, states: map<int, StateRecord>, schema: Schema)
    requires |entries| == |contract|
    requires forall i | 0 <= i < |contract| :: contract[i].number == Some(entries[i].number)
    requires states == ObservedStates(w, entries)
    ensures (forall n | n in states :: StateFits(states[n], schema)) <==> StatesAccepted(w, contract, schema)
  {
    forall n ensures StateFits(StateRecordOf(w, n), schema) <==> ReplyFits(w.issue(n), schema) {
    }
    if StatesAccepted(w, contract, schema) {
      forall n | n in states ensures StateFits(states[n], schema) {
        var i :| 0 <= i < |entries| && Numbers(entries)[i] == n;
        assert contract[i] in contract;
      }
    } else {
      var d :| d in contract && d.number.Some? && !ReplyFits(w.issue(d.number.value), schema);
      var i :| 0 <= i < |contract| && contract[i] == d;
      assert Numbers(entries)[i] in states;
    }
  }

  lemma EmittedFits(item: TimelineItem, isSha: string -> bool, schema: Schema)
    ensures EventFits(Emit(item, isSha), schema) <==> ItemFits(item, isSha, schema)
  {
  }

  /** The schema's demands on the timeline, read off the raw events. */
  lemma TimelineFits(w: Evidence, schema: Schema)
    requires w.timeline.Collected?
    ensures (forall x | x in EmittedTimeline(w) :: EventFits(x, schema))
      <==> forall item | item in w.timeline.value :: ItemFits(item, w.isSha, schema)
  {
    var items, events := w.timeline.value, EmitAll(w.timeline.value, w.isSha);
    EventOrder();
    SortCorrect(events, EventLe);
    forall i | 0 <= i < |items| ensures EventFits(events[i], schema) <==> ItemFits(items[i], w.isSha, schema) {
      EmittedFits(items[i], w.isSha, schema);
    }
    if item :| item in items && !ItemFits(item, w.isSha, schema) {
      var i :| 0 <= i < |items| && items[i] == item;
      assert events[i] in events;
    }
    if x :| x in events && !EventFits(x, schema) {
      var i :| 0 <= i < |events| && events[i] == x;
      assert items[i] in items;
    }
  }

  lemma EventOrder()
    ensures TotalOrder(EventLe)
  {
    ObservationOrder();
  }

  /** The schema's demand on the development links, read off the raw events. */
  lemma LinksFit(w: Evidence)
    ensures IssueNumbers(DevelopmentLinks(w.Timeline()))
      <==> (w.timeline.Collected? ==> LinksOnce(w.timeline.value))
  {
    if w.timeline.Collected? {
      TimelineElements(w);
      var items, os := w.timeline.value, ObserveAll(w.timeline.value, w.isSha);
      LinksPermute(w.Timeline(), os);
      LinksRepeat(items, w.isSha);
      LinksPositive(items, w.isSha);
      SameRepeats(DevelopmentLinks(w.Timeline()), DevelopmentLinks(os));
    }
  }

  lemma {:induction false} LinksConcat(a: seq<Observation>, b: seq<Observation>)
    ensures DevelopmentLinks(a + b) == DevelopmentLinks(a) + DevelopmentLinks(b)
  {
    if b == [] {
      assert a + b == a;
    } else {
      LinksConcat(a, b[..|b| - 1]);
      assert (a + b)[..|a + b| - 1] == a + b[..|b| - 1];
    }
  }

  lemma {:induction false} LinksPermute(a: seq<Observation>, b: seq<Observation>)
    requires multiset(a) == multiset(b)
    ensures multiset(DevelopmentLinks(a)) == multiset(DevelopmentLinks(b))
  {
    if a == [] {
      EmptyContents(b);
    } else {
      var o, front := a[|a| - 1], a[..|a| - 1];
      assert a == front + [o];
      assert o in multiset(a);
      var l, r := RemoveOne(b, o);
      LinksPermute(front, l + r);
      LinksConcat(front, [o]);
      LinksConcat(l + [o], r);
      LinksConcat(l, [o]);
      LinksConcat(l, r);
    }
  }

  lemma SameRepeats(a: seq<int>, b: seq<int>)
    requires multiset(a) == multiset(b)
    ensures IssueNumbers(a) <==> IssueNumbers(b)
  {
    if IssueNumbers(a) { RepeatsTransfer(a, b); }
    if IssueNumbers(b) { RepeatsTransfer(b, a); }
  }

  lemma RepeatsTransfer(a: seq<int>, b: seq<int>)
    requires multiset(a) == multiset(b) && IssueNumbers(a)
    ensures IssueNumbers(b)
  {
    NoRepeatsCounts(a);
    forall i, j | 0 <= i < j < |b| ensures b[i] != b[j] {
      if b[i] == b[j] { PairCounts(b, i, j); }
    }
    forall n | n in b ensures n > 0 {
      assert n in multiset(a);
    }
  }

  lemma {:induction false} LinksPositive(items: seq<TimelineItem>, isSha: string -> bool)
    ensures forall n | n in DevelopmentLinks(ObserveAll(items, isSha)) :: n > 0
  {
    if items != [] {
      var front := items[..|items| - 1];
      LinksPositive(front, isSha);
      assert ObserveAll(items, isSha)[..|items| - 1] == ObserveAll(front, isSha);
    }
  }

  lemma LinkSeen(item: TimelineItem, isSha: string -> bool)
    ensures Observe(item, isSha).classification.DevelopmentLink? <==> PlainLink(item)
    ensures Observe(item, isSha).issue == SourceIssue(item)
  {
  }

  ghost predicate SomeLinks(items: seq<TimelineItem>, n: int) {
    exists item :: item in items && PlainLink(item) && SourceIssue(item) == Some(n)
  }

  lemma SomeLinksStep(front: seq<TimelineItem>, last: TimelineItem, n: int)
    ensures SomeLinks(front + [last], n) <==> SomeLinks(front, n) || (PlainLink(last) && SourceIssue(last) == Some(n))
  {
    assert forall item :: item in front + [last] <==> item in front || item == last;
  }

  /** Which issues are listed as plain development links, read off the events. */
  lemma {:induction false} LinksListed(items: seq<TimelineItem>, isSha: string -> bool, n: int)
    ensures n in DevelopmentLinks(ObserveAll(items, isSha)) <==> SomeLinks(items, n)
  {
    if items != [] {
      var front, last := items[..|items| - 1], items[|items| - 1];
      assert items == front + [last];
      LinksListed(front, isSha, n);
      LinksStep(front, last, isSha);
      SomeLinksStep(front, last, n);
      OwnLinkNames(last, n);
      assert n in DevelopmentLinks(ObserveAll(items, isSha))
        <==> n in DevelopmentLinks(ObserveAll(front, isSha)) || n in OwnLink(last);
    }
  }

  function OwnLink(item: TimelineItem): seq<int> { if PlainLink(item) then [SourceIssue(item).value] else [] }

  lemma OwnLinkNames(item: TimelineItem, n: int)
    ensures n in OwnLink(item) <==> PlainLink(item) && SourceIssue(item) == Some(n)
  {
  }

  lemma LinksStep(front: seq<TimelineItem>, last: TimelineItem, isSha: string -> bool)
    ensures DevelopmentLinks(ObserveAll(front + [last], isSha))
         == DevelopmentLinks(ObserveAll(front, isSha)) + OwnLink(last)
  {
    LinkSeen(last, isSha);
    var all := ObserveAll(front + [last], isSha);
    assert all[..|all| - 1] == ObserveAll(front, isSha);
  }

  lemma AppendUnique(front: seq<int>, own: seq<int>)
    requires |own| <= 1
    ensures NoRepeats(front + own) <==> NoRepeats(front) && (own != [] ==> own[0] !in front)
  {
    if own == [] {
      assert front + own == front;
    } else {
      AppendOne(front, own[0]);
      assert own == [own[0]];
    }
  }

  lemma AppendOne(front: seq<int>, n: int)
    ensures NoRepeats(front + [n]) <==> NoRepeats(front) && n !in front
  {
    var all := front + [n];
    if NoRepeats(all) {
      assert NoRepeats(all[..|front|]);
      assert all[..|front|] == front;
      assert forall i | 0 <= i < |front| :: all[i] != all[|front|];
    }
  }

  /** The list repeats an issue exactly when two plain links name it. */
  lemma {:induction false} LinksRepeat(items: seq<TimelineItem>, isSha: string -> bool)
    ensures NoRepeats(DevelopmentLinks(ObserveAll(items, isSha))) <==> LinksOnce(items)
  {
    if items != [] {
      var front, last := items[..|items| - 1], items[|items| - 1];
      assert items == front + [last];
      LinksRepeat(front, isSha);
      LinksStep(front, last, isSha);
      AppendUnique(DevelopmentLinks(ObserveAll(front, isSha)), OwnLink(last));
      LinksOnceStep(front, last);
      if PlainLink(last) { LinksListed(front, isSha, SourceIssue(last).value); }
      LinkedBefore(front, last);
    }
  }

  lemma LinkedBefore(front: seq<TimelineItem>, last: TimelineItem)
    ensures (forall i | 0 <= i < |front| :: !SameLink(front[i], last))
      <==> !(PlainLink(last) && SomeLinks(front, SourceIssue(last).value))
  {
    if PlainLink(last) && SomeLinks(front, SourceIssue(last).value) {
      var item :| item in front && PlainLink(item) && SourceIssue(item) == SourceIssue(last);
      var i :| 0 <= i < |front| && front[i] == item;
      assert SameLink(front[i], last);
    }
  }

  lemma LinksOnceStep(front: seq<TimelineItem>, last: TimelineItem)
    ensures LinksOnce(front + [last]) <==>
      LinksOnce(front) && forall i | 0 <= i < |front| :: !SameLink(front[i], last)
  {
    var all := front + [last];
    if LinksOnce(all) {
      forall i | 0 <= i < |front| ensures !SameLink(front[i], last) {
        assert !SameLink(all[i], all[|front|]);
      }
      forall i, j | 0 <= i < j < |front| ensures !SameLink(front[i], front[j]) {
        assert !SameLink(all[i], all[j]);
      }
    }
  }

  /** What the closing-reference collection returns always fits the schema. */
  lemma CollectedNumbersFit(pages: Pages, k: nat)
    requires LastPage(pages, k)
    ensures IssueNumbers(Values(Nodes(pages, k + 1)))
  {
    var nodes := Nodes(pages, k + 1);
    assert Clean(pages, k + 1);
    forall i, j | 0 <= i < j < |nodes| ensures Value(nodes[i]) != Value(nodes[j]) {
      assert nodes[i] in nodes && nodes[j] in nodes && nodes[i] != nodes[j];
    }
    forall n | n in Values(nodes) ensures n > 0 {
      var i :| 0 <= i < |nodes| && Values(nodes)[i] == n;
      assert nodes[i] in nodes;
    }
  }

  // ---- A refused inspection ----

  const COMMIT := "0123456789abcdef0123456789abcdef01234567"
  const TODAY := "2026-01-01T00:00:00Z"

  const PULL := PullView(Some(1), Some("main"), Some(COMMIT), Some("topic"), Some(COMMIT))

  /** Issue 7 stays open. */
  const KEPT_OPEN := Declaration(
    Some("owner/name"), Some(7), Some("related"), Some("open"), Some("open"), Some(false), Some(false),
    Some("maintainer"), Some("context only"), Some(true), None, false, true)

  /** A development link to issue 7 that does not close it. */
  const LINK := TimelineItem(
    Some("connected"), Some(Some(7)), None, None, None, Some(TODAY), Some("maintainer"))

  function WithTimeline(items: seq<TimelineItem>): Evidence {
    Evidence([], Collected([]), Collected(items), _ => false, _ => Read(Some("open"), Empty, Empty, Empty))
  }

  const KEPT_OPEN_ENTRY := Entry(7, "open", "open", false, false, true, None, false)

  /** With one plain development link the inspection yields ready evidence; with the link listed
      twice, and nothing else changed, it is refused, although the issues are as ready. */
  lemma RepeatedLinkRefused(schema: Schema)
    requires schema.repositoryText("owner/name") && schema.shaText(COMMIT) && schema.dateText(TODAY)
    ensures Admitted("owner/name", 1, [KEPT_OPEN], Some("owner/name"), PULL)
    ensures Accepted("owner/name", [KEPT_OPEN], PULL, TODAY, WithTimeline([LINK]), schema)
    ensures !Accepted("owner/name", [KEPT_OPEN], PULL, TODAY, WithTimeline([LINK, LINK]), schema)
    ensures Valid([KEPT_OPEN], "owner/name") && ReadEntries([KEPT_OPEN], "owner/name") == [KEPT_OPEN_ENTRY]
    ensures Classify(Findings(WithTimeline([LINK]), [KEPT_OPEN_ENTRY])) == Ready
    ensures Classify(Findings(WithTimeline([LINK, LINK]), [KEPT_OPEN_ENTRY])) == Ready
  {
    KeptOpenAdmitted();
    AcceptedIffOnce([LINK], schema);
    AcceptedIffOnce([LINK, LINK], schema);
    assert SameLink([LINK, LINK][0], [LINK, LINK][1]);
    LinkedReady([LINK]);
    LinkedReady([LINK, LINK]);
  }

  lemma KeptOpenAdmitted()
    ensures Admitted("owner/name", 1, [KEPT_OPEN], Some("owner/name"), PULL)
    ensures Valid([KEPT_OPEN], "owner/name") && ReadEntries([KEPT_OPEN], "owner/name") == [KEPT_OPEN_ENTRY]
  {
    OneSlash();
  }

  lemma AcceptedIffOnce(items: seq<TimelineItem>, schema: Schema)
    requires schema.repositoryText("owner/name") && schema.shaText(COMMIT) && schema.dateText(TODAY)
    requires forall item | item in items :: item == LINK
    ensures Accepted("owner/name", [KEPT_OPEN], PULL, TODAY, WithTimeline(items), schema) <==> LinksOnce(items)
  {
  }

  lemma OneSlash()
    ensures Slashes("owner/name") == 1
  {
    SlashesConcat("owner", "/name");
    SlashesConcat("/", "name");
    NoSlashes("owner");
    NoSlashes("name");
    assert "owner" + "/name" == "owner/name" && "/" + "name" == "/name" && "/"[..0] == "";
  }

  lemma {:induction false} NoSlashes(text: string)
    requires '/' !in text
    ensures Slashes(text) == 0
  {
    if text != [] { NoSlashes(text[..|text| - 1]); }
  }

  lemma {:induction false} SlashesConcat(a: string, b: string)
    ensures Slashes(a + b) == Slashes(a) + Slashes(b)
  {
    if b == [] {
      assert a + b == a;
    } else {
      SlashesConcat(a, b[..|b| - 1]);
      assert (a + b)[..|a + b| - 1] == a + b[..|b| - 1];
    }
  }

  lemma LinkedDiscovered(items: seq<TimelineItem>)
    requires LINK in items && forall item | item in items :: item == LINK
    ensures forall n :: n in WithTimeline(items).Discoverable() <==> n == 7
    ensures !LinkedForClosure(WithTimeline(items), 7)
  {
    var w := WithTimeline(items);
    forall n ensures n in w.Discoverable() <==> n == 7 {
      SourcesRead(w, n);
    }
    SourcesRead(w, 7);
  }

  lemma LinkedReady(items: seq<TimelineItem>)
    requires LINK in items && forall item | item in items :: item == LINK
    ensures Classify(Findings(WithTimeline(items), [KEPT_OPEN_ENTRY])) == Ready
  {
    var w, entries := WithTimeline(items), [KEPT_OPEN_ENTRY];
    LinkedComplete(items);
    LinkedDiscovered(items);
    assert forall e | e in entries :: EntryConforms(w, e);
    ReadinessExact(w, entries);
  }

  lemma LinkedComplete(items: seq<TimelineItem>)
    requires LINK in items && forall item | item in items :: item == LINK
    ensures EvidenceComplete(WithTimeline(items), [KEPT_OPEN_ENTRY])
  {
    LinkedDiscovered(items);
    assert Numbers([KEPT_OPEN_ENTRY])[0] == 7;
  }
}
