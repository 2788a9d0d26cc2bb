/** The audit loop over GitHub content: read again, replace, re-scan, write, read back. */
module PathAudit {
  import opened Options
  import opened Ordering
  import opened PortablePaths
  import opened Splice

  datatype Item = Item(kind: string, number: int, comment: Option<int>, endpoint: string, body: string, author: string)

  /** One GET: failed, or the body (`None` when it is not a string) and a timestamp. */
  datatype GetReply = GetFailed | Got(body: Option<string>, updatedAt: Option<string>)

  /** What GitHub answers to the n-th read, given its endpoint, and whether it accepts the n-th write. */
  datatype GitHub = GitHub(get: (nat, string) -> GetReply, accepts: nat -> bool)

  datatype Settings = Settings(
    scanner: Scanner, replacer: Replacer, sha: string -> string, fold: string -> string,
    viewer: string, apply: bool)

  datatype Verification = RetainedException | ProhibitedPresent | NotMutated | VerifiedAbsent | PersistenceMismatch

  datatype Editability = ThirdParty | Editable | ConcurrentDrift | PreflightRejected

  datatype Record = Record(
    item: Item, violation: Violation, editability: Editability, corrected: bool,
    replacement: Option<string>, verification: Verification, verifiedAt: Option<string>)

  /** A write: the endpoint, the body sent, and how many reads came before it. */
  datatype Sent = Sent(endpoint: string, body: string, readsBefore: nat)

  /** Records and counts so far, the endpoints read, and the writes made. */
  datatype Progress = Progress(records: seq<Record>, remaining: nat, fetched: seq<string>, sent: seq<Sent>)

  const NO_PROGRESS := Progress([], 0, [], [])

  /** An item goes by, or a GitHub call fails and the audit raises. */
  datatype Step = Next(p: Progress) | Raises(p: Progress)

  ghost predicate Scannable(settings: Settings) {
    forall text :: Matching(settings.scanner, text)
  }

  predicate Authored(settings: Settings, item: Item) {
    settings.fold(item.author) == settings.fold(settings.viewer)
  }

  function PlainRecords(item: Item, vs: seq<Violation>, e: Editability, v: Verification): seq<Record> {
    seq(|vs|, i requires 0 <= i < |vs| => Record(item, vs[i], e, false, None, v, None))
  }

  function CorrectionRecords(item: Item, vs: seq<Violation>, types: seq<string>, v: Verification,
                             at: Option<string>): seq<Record>
    requires |types| == |vs|
  {
    seq(|vs|, i requires 0 <= i < |vs| => Record(item, vs[i], Editable, true, Some(types[i]), v, at))
  }

  function Candidate(settings: Settings, item: Item, vs: seq<Violation>): string {
    ReplaceEach(item.body, Sort(vs, StartGe), settings.replacer)
  }

  function Types(vs: seq<Violation>): (types: seq<string>)
    ensures |types| == |vs|
  {
    StartOrders();
    SortCorrect(vs, StartGe);
    ReverseMultiset(Sort(vs, StartGe));
    Recommendations(Reverse(Sort(vs, StartGe)))
  }

  /** The item's body is still what was collected. */
  predicate Unchanged(settings: Settings, item: Item, reply: GetReply) {
    reply.Got? && reply.body.Some? && settings.sha(reply.body.value) == settings.sha(item.body)
  }

  /** The read-back shows the candidate, and the candidate is clean. */
  ghost predicate ReadBack(settings: Settings, candidate: string, reply: GetReply)
    requires Scannable(settings)
  {
    reply.Got? && reply.body == Some(candidate) && FindViolations(settings.scanner, candidate) == []
  }

  /** Writing a candidate, and reading it back. */
  ghost function Write(settings: Settings, github: GitHub, item: Item, vs: seq<Violation>, candidate: string,
                       p: Progress): Step
    requires Scannable(settings)
  {
    var w := p.(sent := p.sent + [Sent(item.endpoint, candidate, |p.fetched|)]);
    if !github.accepts(|p.sent|) then Raises(w)
    else
      var back := github.get(|w.fetched|, item.endpoint);
      var r := w.(fetched := w.fetched + [item.endpoint]);
      if back.GetFailed? then Raises(r)
      else if ReadBack(settings, candidate, back) then
        Next(r.(records := r.records + CorrectionRecords(item, vs, Types(vs), VerifiedAbsent, back.updatedAt)))
      else
        Next(r.(records := r.records + CorrectionRecords(item, vs, Types(vs), PersistenceMismatch, back.updatedAt),
                remaining := r.remaining + |vs|))
  }

  /** One editable item under `apply`. */
  ghost function Correct(settings: Settings, github: GitHub, item: Item, vs: seq<Violation>, p: Progress): Step
    requires Scannable(settings)
  {
    var reply := github.get(|p.fetched|, item.endpoint);
    var q := p.(fetched := p.fetched + [item.endpoint]);
    if reply.GetFailed? then Raises(q)
    else if !Unchanged(settings, item, reply) then
      Next(q.(records := q.records + PlainRecords(item, vs, ConcurrentDrift, NotMutated),
              remaining := q.remaining + |vs|))
    else
      var candidate := Candidate(settings, item, vs);
      if FindViolations(settings.scanner, candidate) != [] then
        Next(q.(records := q.records + PlainRecords(item, vs, PreflightRejected, NotMutated),
                remaining := q.remaining + |vs|))
      else Write(settings, github, item, vs, candidate, q)
  }

  ghost function AuditItem(settings: Settings, github: GitHub, item: Item, p: Progress): Step
    requires Scannable(settings)
  {
    var vs := FindViolations(settings.scanner, item.body);
    if vs == [] then Next(p)
    else if !Authored(settings, item) then
      Next(p.(records := p.records + PlainRecords(item, vs, ThirdParty, RetainedException)))
    else if !settings.apply then
      Next(p.(records := p.records + PlainRecords(item, vs, Editable, ProhibitedPresent),
              remaining := p.remaining + |vs|))
    else Correct(settings, github, item, vs, p)
  }

  ghost function AuditItems(settings: Settings, github: GitHub, items: seq<Item>): Step
    requires Scannable(settings)
  {
    if items == [] then Next(NO_PROGRESS)
    else match AuditItems(settings, github, items[..|items| - 1])
      case Raises(p) => Raises(p)
      case Next(p) => AuditItem(settings, github, items[|items| - 1], p)
  }

  /** GitHub with a trace of reads and writes. */
  class Transport {
    const github: GitHub
    var fetched: seq<string>
    var sent: seq<Sent>

    constructor (github: GitHub)
      ensures this.github == github && fetched == [] && sent == []
    {
      this.github := github;
      fetched, sent := [], [];
    }

    method Get(endpoint: string) returns (r: GetReply)
      modifies this`fetched
      ensures r == github.get(|old(fetched)|, endpoint) && fetched == old(fetched) + [endpoint]
    {
      r := github.get(|fetched|, endpoint);
      fetched := fetched + [endpoint];
    }

    method Update(endpoint: string, body: string) returns (accepted: bool)
      modifies this`sent
      ensures accepted == github.accepts(|old(sent)|) && sent == old(sent) + [Sent(endpoint, body, |fetched|)]
    {
      accepted := github.accepts(|sent|);
      sent := sent + [Sent(endpoint, body, |fetched|)];
    }
  }

  method WriteItem(settings: Settings, t: Transport, item: Item, vs: seq<Violation>, candidate: string,
                   types: seq<string>, records: seq<Record>, remaining: nat)
    returns (raised: bool, records': seq<Record>, remaining': nat)
    requires Scannable(settings) && types == Types(vs)
    modifies t
    ensures var step := Write(settings, t.github, item, vs, candidate,
                              Progress(records, remaining, old(t.fetched), old(t.sent)));
      raised == step.Raises? && Progress(records', remaining', t.fetched, t.sent) == step.p
  {
    raised, records', remaining' := false, records, remaining;
    var accepted := t.Update(item.endpoint, candidate);
    if !accepted {
      raised := true;
      return;
    }
    var back := t.Get(item.endpoint);
    if back.GetFailed? {
      raised := true;
      return;
    }
    var verified := back.body == Some(candidate);
    if verified {
      var left := ScanViolations(settings.scanner, candidate);
      verified := left == [];
    }
    if !verified {
      remaining' := remaining + |vs|;
    }
    records' := records + CorrectionRecords(
      item, vs, types, if verified then VerifiedAbsent else PersistenceMismatch, back.updatedAt);
  }

  method CorrectItem(settings: Settings, t: Transport, item: Item, vs: seq<Violation>,
                     records: seq<Record>, remaining: nat)
    returns (raised: bool, records': seq<Record>, remaining': nat)
    requires Scannable(settings)
    modifies t
    ensures var before := Progress(records, remaining, old(t.fetched), old(t.sent));
      var step := Correct(settings, t.github, item, vs, before);
      && raised == step.Raises?
      && Progress(records', remaining', t.fetched, t.sent) == step.p
  {
    raised, records', remaining' := false, records, remaining;
    var reply := t.Get(item.endpoint);
    if reply.GetFailed? {
      raised := true;
      return;
    }
    if !Unchanged(settings, item, reply) {
      records' := records + PlainRecords(item, vs, ConcurrentDrift, NotMutated);
      remaining' := remaining + |vs|;
      return;
    }
    var candidate, types := PortableReplacement(item.body, vs, settings.replacer);
    var left := ScanViolations(settings.scanner, candidate);
    if left != [] {
      records' := records + PlainRecords(item, vs, PreflightRejected, NotMutated);
      remaining' := remaining + |vs|;
      return;
    }
    raised, records', remaining' := WriteItem(settings, t, item, vs, candidate, types, records, remaining);
  }

  /** `audit_github_content` on the collected items. */
  method Audit(settings: Settings, t: Transport, items: seq<Item>)
    returns (raised: bool, records: seq<Record>, remaining: nat)
    requires Scannable(settings) && t.fetched == [] && t.sent == []
    modifies t
    ensures var step := AuditItems(settings, t.github, items);
      raised == step.Raises? && Progress(records, remaining, t.fetched, t.sent) == step.p
  {
    raised, records, remaining := false, [], 0;
    for i := 0 to |items|
      invariant !raised
      invariant AuditItems(settings, t.github, items[..i]) == Next(Progress(records, remaining, t.fetched, t.sent))
    {
      assert items[..i + 1][..i] == items[..i];
      var item := items[i];
      var violations := ScanViolations(settings.scanner, item.body);
      if violations != [] {
        if !Authored(settings, item) {
          records := records + PlainRecords(item, violations, ThirdParty, RetainedException);
        } else if !settings.apply {
          remaining := remaining + |violations|;
          records := records + PlainRecords(item, violations, Editable, ProhibitedPresent);
        } else {
          raised, records, remaining := CorrectItem(settings, t, item, violations, records, remaining);
          if raised {
            RaisingStays(settings, t.github, items, i + 1);
            return;
          }
        }
      }
    }
    assert items[..|items|] == items;
  }

  lemma {:induction false} RaisingStays(settings: Settings, github: GitHub, items: seq<Item>, n: nat)
    requires Scannable(settings) && n <= |items|
    requires AuditItems(settings, github, items[..n]).Raises?
    ensures AuditItems(settings, github, items) == AuditItems(settings, github, items[..n])
    decreases |items|
  {
    if n == |items| {
      assert items[..n] == items;
    } else {
      var front := items[..|items| - 1];
      assert front[..n] == items[..n];
      RaisingStays(settings, github, front, n);
    }
  }

  // ---- Accounting ----

  function Count(records: seq<Record>, v: Verification): nat {
    if records == [] then 0
    else Count(records[..|records| - 1], v) + if records[|records| - 1].verification == v then 1 else 0
  }

  lemma {:induction false} CountConcat(a: seq<Record>, b: seq<Record>, v: Verification)
    ensures Count(a + b, v) == Count(a, v) + Count(b, v)
  {
    if b == [] {
      assert a + b == a;
    } else {
      CountConcat(a, b[..|b| - 1], v);
      assert (a + b)[..|a + b| - 1] == a + b[..|b| - 1];
    }
  }

  lemma {:induction false} CountUniform(records: seq<Record>, v: Verification, w: Verification)
    requires forall i | 0 <= i < |records| :: records[i].verification == w
    ensures Count(records, v) == if v == w then |records| else 0
  {
    if records != [] { CountUniform(records[..|records| - 1], v, w); }
  }

  /** Records are the retained, the verified absent and the remaining ones. */
  ghost predicate Accounted(p: Progress) {
    |p.records| == Count(p.records, RetainedException) + Count(p.records, VerifiedAbsent) + p.remaining
  }

  lemma AccountFor(p: Progress, more: seq<Record>, v: Verification, q: Progress)
    requires Accounted(p) && forall i | 0 <= i < |more| :: more[i].verification == v
    requires q.records == p.records + more
    requires q.remaining == p.remaining + if v == RetainedException || v == VerifiedAbsent then 0 else |more|
    ensures Accounted(q)
  {
    CountConcat(p.records, more, RetainedException);
    CountConcat(p.records, more, VerifiedAbsent);
    CountUniform(more, RetainedException, v);
    CountUniform(more, VerifiedAbsent, v);
  }

  ghost predicate AccountsAs(p: Progress, step: Step, vs: seq<Violation>) {
    && Accounted(step.p)
    && (step.Next? ==> |step.p.records| == |p.records| + |vs|)
  }

  lemma WriteAccounts(
      settings: Settings, github: GitHub, item: Item, vs: seq<Violation>, candidate: string, p: Progress)
    requires Scannable(settings) && Accounted(p) && vs != []
    ensures AccountsAs(p, Write(settings, github, item, vs, candidate, p), vs)
  {
    var step := Write(settings, github, item, vs, candidate, p);
    if step.Next? {
      var more := step.p.records[|p.records|..];
      AccountFor(p, more, more[0].verification, step.p);
    }
  }

  lemma CorrectAccounts(settings: Settings, github: GitHub, item: Item, vs: seq<Violation>, p: Progress)
    requires Scannable(settings) && Accounted(p) && vs != []
    ensures AccountsAs(p, Correct(settings, github, item, vs, p), vs)
  {
    var q := p.(fetched := p.fetched + [item.endpoint]);
    var candidate := Candidate(settings, item, vs);
    if Unchanged(settings, item, github.get(|p.fetched|, item.endpoint))
       && FindViolations(settings.scanner, candidate) == [] {
      WriteAccounts(settings, github, item, vs, candidate, q);
    } else {
      var step := Correct(settings, github, item, vs, p);
      if step.Next? {
        var more := step.p.records[|p.records|..];
        AccountFor(p, more, NotMutated, step.p);
      }
    }
  }

  lemma ItemAccounts(settings: Settings, github: GitHub, item: Item, p: Progress)
    requires Scannable(settings) && Accounted(p)
    ensures AccountsAs(p, AuditItem(settings, github, item, p), FindViolations(settings.scanner, item.body))
  {
    var vs := FindViolations(settings.scanner, item.body);
    var step := AuditItem(settings, github, item, p);
    if vs != [] {
      if Authored(settings, item) && settings.apply {
        CorrectAccounts(settings, github, item, vs, p);
      } else {
        var more := step.p.records[|p.records|..];
        AccountFor(p, more, more[0].verification, step.p);
      }
    }
  }

  ghost function TotalViolations(settings: Settings, items: seq<Item>): nat
    requires Scannable(settings)
  {
    if items == [] then 0
    else TotalViolations(settings, items[..|items| - 1])
         + |FindViolations(settings.scanner, items[|items| - 1].body)|
  }

  /** For every behaviour of GitHub: each violation has one record, and every record is a
      retained exception, a verified correction, or counted as remaining. */
  lemma {:induction false} AuditAccounts(settings: Settings, github: GitHub, items: seq<Item>)
    requires Scannable(settings)
    ensures var step := AuditItems(settings, github, items);
      && Accounted(step.p)
      && (step.Next? ==> |step.p.records| == TotalViolations(settings, items))
  {
    if items != [] {
      AuditAccounts(settings, github, items[..|items| - 1]);
      match AuditItems(settings, github, items[..|items| - 1])
      case Raises(_) =>
      case Next(p) => ItemAccounts(settings, github, items[|items| - 1], p);
    }
  }

  // ---- Every violation has its record ----

  /** What the records are about. */
  function Subjects(records: seq<Record>): (subjects: seq<(Item, Violation)>)
    ensures |subjects| == |records|
  {
    seq(|records|, i requires 0 <= i < |records| => (records[i].item, records[i].violation))
  }

  function Pairs(item: Item, vs: seq<Violation>): (pairs: seq<(Item, Violation)>)
    ensures |pairs| == |vs|
  {
    seq(|vs|, i requires 0 <= i < |vs| => (item, vs[i]))
  }

  /** The items' violations, item by item and from left to right. */
  ghost function AllPairs(settings: Settings, items: seq<Item>): seq<(Item, Violation)>
    requires Scannable(settings)
  {
    if items == [] then []
    else
      var last := items[|items| - 1];
      AllPairs(settings, items[..|items| - 1]) + Pairs(last, FindViolations(settings.scanner, last.body))
  }

  /** `q` holds the records of `p` and then one record for each of `vs`, in order. */
  ghost predicate Adds(p: Progress, q: Progress, item: Item, vs: seq<Violation>) {
    Subjects(q.records) == Subjects(p.records) + Pairs(item, vs)
  }

  lemma WriteAdds(settings: Settings, github: GitHub, item: Item, vs: seq<Violation>, candidate: string, p: Progress)
    requires Scannable(settings)
    ensures var step := Write(settings, github, item, vs, candidate, p);
      step.Next? ==> Adds(p, step.p, item, vs)
  {
  }

  lemma CorrectAdds(settings: Settings, github: GitHub, item: Item, vs: seq<Violation>, p: Progress)
    requires Scannable(settings)
    ensures var step := Correct(settings, github, item, vs, p);
      step.Next? ==> Adds(p, step.p, item, vs)
  {
    WriteAdds(settings, github, item, vs, Candidate(settings, item, vs), p.(fetched := p.fetched + [item.endpoint]));
  }

  lemma ItemAdds(settings: Settings, github: GitHub, item: Item, p: Progress)
    requires Scannable(settings)
    ensures var step := AuditItem(settings, github, item, p);
      step.Next? ==> Adds(p, step.p, item, FindViolations(settings.scanner, item.body))
  {
    var vs := FindViolations(settings.scanner, item.body);
    CorrectAdds(settings, github, item, vs, p);
    if vs == [] {
      assert Subjects(p.records) + Pairs(item, vs) == Subjects(p.records);
    }
  }

  /** The records of a finished audit are about the violations of the items, one each, in order. */
  lemma {:induction false} RecordsFollowViolations(settings: Settings, github: GitHub, items: seq<Item>)
    requires Scannable(settings)
    ensures var step := AuditItems(settings, github, items);
      step.Next? ==> Subjects(step.p.records) == AllPairs(settings, items)
  {
    if items != [] {
      RecordsFollowViolations(settings, github, items[..|items| - 1]);
      match AuditItems(settings, github, items[..|items| - 1])
      case Raises(_) =>
      case Next(p) => ItemAdds(settings, github, items[|items| - 1], p);
    }
  }

  // ---- Safety of the writes ----

  /** The write was due for `item`: the viewer's own, read at its endpoint just before and still as
      collected, with a clean candidate computed from the collected body. */
  ghost predicate DueFor(settings: Settings, github: GitHub, item: Item, fetched: seq<string>, s: Sent)
    requires Scannable(settings)
  {
    && settings.apply && Authored(settings, item)
    && var vs := FindViolations(settings.scanner, item.body);
    && vs != [] && s.endpoint == item.endpoint && s.body == Candidate(settings, item, vs)
    && FindViolations(settings.scanner, s.body) == []
    && 0 < s.readsBefore <= |fetched| && fetched[s.readsBefore - 1] == item.endpoint
    && Unchanged(settings, item, github.get(s.readsBefore - 1, item.endpoint))
  }

  ghost predicate Due(settings: Settings, github: GitHub, items: seq<Item>, fetched: seq<string>, s: Sent)
    requires Scannable(settings)
  {
    exists item :: item in items && DueFor(settings, github, item, fetched, s)
  }

  ghost predicate AllDue(settings: Settings, github: GitHub, items: seq<Item>, p: Progress)
    requires Scannable(settings)
  {
    forall s | s in p.sent :: Due(settings, github, items, p.fetched, s)
  }

  /** Reads and writes only accumulate. */
  predicate Grows(p: Progress, q: Progress) { p.fetched <= q.fetched && p.sent <= q.sent }

  /** A write, if any, that a step adds. */
  ghost predicate SendsOnly(p: Progress, q: Progress, s: Sent) { q.sent == p.sent || q.sent == p.sent + [s] }

  lemma CorrectSends(settings: Settings, github: GitHub, item: Item, vs: seq<Violation>, p: Progress)
    requires Scannable(settings)
    ensures var step := Correct(settings, github, item, vs, p);
      && Grows(p, step.p)
      && SendsOnly(p, step.p, Sent(item.endpoint, Candidate(settings, item, vs), |p.fetched| + 1))
      && (step.p.sent != p.sent ==>
            && |step.p.fetched| > |p.fetched| && step.p.fetched[|p.fetched|] == item.endpoint
            && FindViolations(settings.scanner, Candidate(settings, item, vs)) == []
            && Unchanged(settings, item, github.get(|p.fetched|, item.endpoint)))
  {
  }

  /** The write `Correct` makes, if any. */
  function OwnSent(settings: Settings, item: Item, p: Progress): Sent
    requires Matching(settings.scanner, item.body)
  {
    Sent(item.endpoint, Candidate(settings, item, FindViolations(settings.scanner, item.body)), |p.fetched| + 1)
  }

  lemma CorrectDue(settings: Settings, github: GitHub, item: Item, vs: seq<Violation>, p: Progress, step: Step)
    requires Scannable(settings) && vs == FindViolations(settings.scanner, item.body)
    requires Authored(settings, item) && settings.apply && vs != []
    requires step == Correct(settings, github, item, vs, p) && step.p.sent != p.sent
    ensures DueFor(settings, github, item, step.p.fetched, OwnSent(settings, item, p))
  {
    CorrectSends(settings, github, item, vs, p);
  }

  lemma ItemDue(settings: Settings, github: GitHub, item: Item, p: Progress, step: Step)
    requires Scannable(settings) && step == AuditItem(settings, github, item, p)
    ensures Grows(p, step.p)
    ensures step.p.sent == p.sent || exists s ::
      step.p.sent == p.sent + [s] && DueFor(settings, github, item, step.p.fetched, s)
  {
    var vs := FindViolations(settings.scanner, item.body);
    if vs != [] && Authored(settings, item) && settings.apply {
      CorrectSends(settings, github, item, vs, p);
      if step.p.sent != p.sent {
        CorrectDue(settings, github, item, vs, p, step);
        assert step.p.sent == p.sent + [OwnSent(settings, item, p)];
      }
    }
  }

  lemma DueStep(settings: Settings, github: GitHub, front: seq<Item>, item: Item, p: Progress, q: Progress)
    requires Scannable(settings) && AllDue(settings, github, front, p) && Grows(p, q)
    requires q.sent == p.sent || exists s :: q.sent == p.sent + [s] && DueFor(settings, github, item, q.fetched, s)
    ensures AllDue(settings, github, front + [item], q)
  {
    forall s | s in q.sent ensures Due(settings, github, front + [item], q.fetched, s) {
      if s in p.sent {
        var i :| i in front && DueFor(settings, github, i, p.fetched, s);
        assert i in front + [item] && DueFor(settings, github, i, q.fetched, s);
      } else {
        assert item in front + [item] && DueFor(settings, github, item, q.fetched, s);
      }
    }
  }

  /** Whatever GitHub does, even if the audit raises: nothing is written that was not due. */
  lemma {:induction false} WritesAreDue(settings: Settings, github: GitHub, items: seq<Item>)
    requires Scannable(settings)
    ensures AllDue(settings, github, items, AuditItems(settings, github, items).p)
  {
    if items != [] {
      var front, item := items[..|items| - 1], items[|items| - 1];
      WritesAreDue(settings, github, front);
      assert items == front + [item];
      match AuditItems(settings, github, front)
      case Raises(p) => DueStep(settings, github, front, item, p, p);
      case Next(p) =>
        var step := AuditItem(settings, github, item, p);
        ItemDue(settings, github, item, p, step);
        DueStep(settings, github, front, item, p, step.p);
    }
  }

  // ---- What `remaining == 0` means ----

  /** Write `s` sent the item's candidate, and the read right after it, at the item's endpoint, showed
      exactly that candidate, which is clean. */
  ghost predicate CleanedBy(settings: Settings, github: GitHub, item: Item, p: Progress, s: Sent)
    requires Scannable(settings)
  {
    var candidate := Candidate(settings, item, FindViolations(settings.scanner, item.body));
    && s in p.sent && s.endpoint == item.endpoint && s.body == candidate
    && s.readsBefore < |p.fetched| && p.fetched[s.readsBefore] == item.endpoint
    && ReadBack(settings, candidate, github.get(s.readsBefore, item.endpoint))
  }

  ghost predicate Cleaned(settings: Settings, github: GitHub, item: Item, p: Progress)
    requires Scannable(settings)
  {
    exists s :: CleanedBy(settings, github, item, p, s)
  }

  lemma WriteCleaned(settings: Settings, github: GitHub, item: Item, vs: seq<Violation>, p: Progress, step: Step)
    requires Scannable(settings) && vs == FindViolations(settings.scanner, item.body) && vs != []
    requires step == Write(settings, github, item, vs, Candidate(settings, item, vs), p)
    ensures step.p.remaining >= p.remaining && Grows(p, step.p)
    ensures step.Next? && step.p.remaining == p.remaining ==> Cleaned(settings, github, item, step.p)
  {
    if step.Next? && step.p.remaining == p.remaining {
      assert CleanedBy(settings, github, item, step.p, Sent(item.endpoint, Candidate(settings, item, vs), |p.fetched|));
    }
  }

  lemma CorrectCleaned(settings: Settings, github: GitHub, item: Item, vs: seq<Violation>, p: Progress, step: Step)
    requires Scannable(settings) && vs == FindViolations(settings.scanner, item.body) && vs != []
    requires step == Correct(settings, github, item, vs, p)
    ensures step.p.remaining >= p.remaining && Grows(p, step.p)
    ensures step.Next? && step.p.remaining == p.remaining ==> Cleaned(settings, github, item, step.p)
  {
    var candidate, q := Candidate(settings, item, vs), p.(fetched := p.fetched + [item.endpoint]);
    if Unchanged(settings, item, github.get(|p.fetched|, item.endpoint))
       && FindViolations(settings.scanner, candidate) == [] {
      WriteCleaned(settings, github, item, vs, q, Write(settings, github, item, vs, candidate, q));
    }
  }

  /** The item is the viewer's and holds violations. */
  ghost predicate Offending(settings: Settings, item: Item)
    requires Scannable(settings)
  {
    Authored(settings, item) && FindViolations(settings.scanner, item.body) != []
  }

  lemma ItemCleaned(settings: Settings, github: GitHub, item: Item, p: Progress, step: Step)
    requires Scannable(settings) && settings.apply && step == AuditItem(settings, github, item, p)
    ensures step.p.remaining >= p.remaining && Grows(p, step.p)
    ensures step.Next? && step.p.remaining == p.remaining && Offending(settings, item)
      ==> Cleaned(settings, github, item, step.p)
  {
    var vs := FindViolations(settings.scanner, item.body);
    if vs != [] && Authored(settings, item) {
      CorrectCleaned(settings, github, item, vs, p, step);
    }
  }

  /** Every offending item was written and then read back as its clean candidate. */
  ghost predicate AllCleaned(settings: Settings, github: GitHub, items: seq<Item>, p: Progress)
    requires Scannable(settings)
  {
    forall item | item in items && Offending(settings, item) :: Cleaned(settings, github, item, p)
  }

  lemma CleanedLater(settings: Settings, github: GitHub, item: Item, p: Progress, q: Progress)
    requires Scannable(settings) && Cleaned(settings, github, item, p) && Grows(p, q)
    ensures Cleaned(settings, github, item, q)
  {
    var s :| CleanedBy(settings, github, item, p, s);
    assert CleanedBy(settings, github, item, q, s);
  }

  lemma AllCleanedStep(settings: Settings, github: GitHub, front: seq<Item>, last: Item, p: Progress, q: Progress)
    requires Scannable(settings) && AllCleaned(settings, github, front, p) && Grows(p, q)
    requires Offending(settings, last) ==> Cleaned(settings, github, last, q)
    ensures AllCleaned(settings, github, front + [last], q)
  {
    forall item | item in front + [last] && Offending(settings, item)
      ensures Cleaned(settings, github, item, q)
    {
      if item in front {
        CleanedLater(settings, github, item, p, q);
      } else {
        assert item == last;
      }
    }
  }

  ghost predicate CleanedIfDone(settings: Settings, github: GitHub, items: seq<Item>, step: Step)
    requires Scannable(settings)
  {
    step.Next? && step.p.remaining == 0 ==> AllCleaned(settings, github, items, step.p)
  }

  lemma CleanedStep(settings: Settings, github: GitHub, front: seq<Item>, last: Item, p: Progress, step: Step)
    requires Scannable(settings) && settings.apply && CleanedIfDone(settings, github, front, Next(p))
    requires step == AuditItem(settings, github, last, p)
    ensures CleanedIfDone(settings, github, front + [last], step)
  {
    ItemCleaned(settings, github, last, p, step);
    if step.Next? && step.p.remaining == 0 {
      AllCleanedStep(settings, github, front, last, p, step.p);
    }
  }

  /** An apply run that ends with nothing remaining has written every offending item of the viewer at
      its endpoint and, in the read right after, read it back there as its clean candidate. */
  lemma {:induction false} NothingRemaining(settings: Settings, github: GitHub, items: seq<Item>)
    requires Scannable(settings) && settings.apply
    ensures CleanedIfDone(settings, github, items, AuditItems(settings, github, items))
  {
    if items != [] {
      var front, last := items[..|items| - 1], items[|items| - 1];
      assert items == front + [last];
      NothingRemaining(settings, github, front);
      match AuditItems(settings, github, front)
      case Raises(_) =>
      case Next(p) => CleanedStep(settings, github, front, last, p, AuditItem(settings, github, last, p));
    }
  }
}
