/** The inventory of an audit: its records in their final order, and the summary over them. */
module PathInventory {
  import opened Options
  import opened Ordering
  import opened PathAudit
  import opened PortablePaths

  datatype Summary = Summary(audited: nat, classified: nat, applied: nat, retained: nat, remaining: nat)

  datatype Inventory = Inventory(records: seq<Record>, summary: Summary)

  function CommentKey(r: Record): int { if r.item.comment.Some? then r.item.comment.value else 0 }

  /** The order of the records: kind of content, number, comment, line and column. */
  predicate RecordLe(a: Record, b: Record) {
    if a.item.kind != b.item.kind then StringLe(a.item.kind, b.item.kind)
    else if a.item.number != b.item.number then a.item.number < b.item.number
    else if CommentKey(a) != CommentKey(b) then CommentKey(a) < CommentKey(b)
    else if a.violation.line != b.violation.line then a.violation.line < b.violation.line
    else a.violation.column <= b.violation.column
  }

  lemma RecordOrder()
    ensures TotalOrder(RecordLe)
  {
    forall a, b ensures RecordLe(a, b) || RecordLe(b, a) {
      StringLeTotal(a.item.kind, b.item.kind);
    }
    forall a, b, c | RecordLe(a, b) && RecordLe(b, c) ensures RecordLe(a, c) {
      StringLeTotal(a.item.kind, b.item.kind);
      StringLeTotal(b.item.kind, c.item.kind);
      if StringLe(a.item.kind, b.item.kind) && StringLe(b.item.kind, c.item.kind) {
        StringLeTransitive(a.item.kind, b.item.kind, c.item.kind);
      }
    }
  }

  // ---- Which records are corrections ----

  predicate Marked(r: Record) {
    r.corrected <==> r.verification == VerifiedAbsent || r.verification == PersistenceMismatch
  }

  ghost predicate AllMarked(p: Progress) { forall r | r in p.records :: Marked(r) }

  lemma ItemMarked(settings: Settings, github: GitHub, item: Item, p: Progress)
    requires Scannable(settings) && AllMarked(p)
    ensures AllMarked(AuditItem(settings, github, item, p).p)
  {
    var vs := FindViolations(settings.scanner, item.body);
    CorrectMarked(settings, github, item, vs, p);
  }

  lemma CorrectMarked(settings: Settings, github: GitHub, item: Item, vs: seq<Violation>, p: Progress)
    requires Scannable(settings) && AllMarked(p)
    ensures AllMarked(Correct(settings, github, item, vs, p).p)
  {
  }

  lemma {:induction false} ItemsMarked(settings: Settings, github: GitHub, items: seq<Item>)
    requires Scannable(settings)
    ensures AllMarked(AuditItems(settings, github, items).p)
  {
    if items != [] {
      var front := items[..|items| - 1];
      ItemsMarked(settings, github, front);
      match AuditItems(settings, github, front)
      case Raises(_) =>
      case Next(p) => ItemMarked(settings, github, items[|items| - 1], p);
    }
  }

  // ---- The inventory ----

  /** The two sums of the summary, over the records. */
  method CountRecords(records: seq<Record>) returns (applied: nat, retained: nat)
    requires forall r | r in records :: Marked(r)
    ensures applied == Count(records, VerifiedAbsent) + Count(records, PersistenceMismatch)
    ensures retained == Count(records, RetainedException)
  {
    applied, retained := 0, 0;
    for i := 0 to |records|
      invariant applied == Count(records[..i], VerifiedAbsent) + Count(records[..i], PersistenceMismatch)
      invariant retained == Count(records[..i], RetainedException)
    {
      assert records[..i + 1][..i] == records[..i] && Marked(records[i]);
      if records[i].corrected { applied := applied + 1; }
      if records[i].verification == RetainedException { retained := retained + 1; }
    }
    assert records[..|records|] == records;
  }

  /** The inventory holds the audit's records in order, and its counts add up: every violation of
      the items is classified, as retained, as verified absent or as remaining, and the corrections
      applied are those verified and those that did not persist. */
  ghost predicate Faithful(settings: Settings, items: seq<Item>, p: Progress, inventory: Inventory)
    requires Scannable(settings)
  {
    var s, records := inventory.summary, inventory.records;
    && SortedBy(records, RecordLe) && multiset(records) == multiset(p.records)
    && s.audited == |items| && s.classified == TotalViolations(settings, items) && s.remaining == p.remaining
    && s.classified == s.retained + Count(records, VerifiedAbsent) + s.remaining
    && s.applied == Count(records, VerifiedAbsent) + Count(records, PersistenceMismatch)
    && s.retained == Count(records, RetainedException)
  }

  lemma {:induction false} CountPermutes(a: seq<Record>, b: seq<Record>, v: Verification)
    requires multiset(a) == multiset(b)
    ensures Count(a, v) == Count(b, v)
  {
    if a == [] {
      EmptyContents(b);
    } else {
      var r, front := a[|a| - 1], a[..|a| - 1];
      assert a == front + [r];
      assert r in multiset(a);
      var l, k := RemoveOne(b, r);
      CountPermutes(front, l + k, v);
      CountConcat(front, [r], v);
      CountConcat(l + [r], k, v);
      CountConcat(l, [r], v);
      CountConcat(l, k, v);
    }
  }

  /** `audit_github_content` on the collected items, up to the inventory; `None` when a call fails. */
  method AuditContent(settings: Settings, t: Transport, items: seq<Item>) returns (r: Option<Inventory>)
    requires Scannable(settings) && t.fetched == [] && t.sent == []
    modifies t
    ensures var step := AuditItems(settings, t.github, items);
      && (r.None? <==> step.Raises?) && t.fetched == step.p.fetched && t.sent == step.p.sent
      && (r.Some? ==> Faithful(settings, items, step.p, r.value))
  {
    var raised, records, remaining := Audit(settings, t, items);
    if raised {
      return None;
    }
    ItemsMarked(settings, t.github, items);
    AuditAccounts(settings, t.github, items);
    var applied, retained := CountRecords(records);
    var sorted := Sort(records, RecordLe);
    SortedCounts(records, sorted);
    return Some(Inventory(sorted, Summary(|items|, |records|, applied, retained, remaining)));
  }

  lemma SortedCounts(records: seq<Record>, sorted: seq<Record>)
    requires sorted == Sort(records, RecordLe)
    ensures SortedBy(sorted, RecordLe) && multiset(sorted) == multiset(records)
    ensures forall v :: Count(sorted, v) == Count(records, v)
  {
    RecordOrder();
    SortCorrect(records, RecordLe);
    forall v ensures Count(sorted, v) == Count(records, v) {
      CountPermutes(sorted, records, v);
    }
  }
}
