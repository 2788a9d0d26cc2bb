/** Comparing an export with a live query: rows are projected, fingerprinted, indexed by
    facility and compared as sorted fingerprint lists. */
module Equivalence {
  import opened Ordering

  /** A row as the values of its logical fields; field 0 is the facility number. */
  type Row = seq<string>

  /** The number of logical fields, the normalization of field `k`, the row fingerprint, and
      the fingerprint of a sorted list of (identifier, row fingerprint) pairs. */
  datatype Projector = Projector(
    fields: nat, norm: (nat, string) -> string, fingerprint: Row -> string,
    content: seq<(string, string)> -> string)

  /** The value of a column, or the empty string when the row lacks it. */
  function Get(row: Row, k: nat): string { if k < |row| then row[k] else "" }

  function Project(p: Projector, raw: Row): (row: Row)
    ensures |row| == p.fields
  {
    seq(p.fields, k requires 0 <= k => p.norm(k, Get(raw, k)))
  }

  function ProjectRows(p: Projector, raw: seq<Row>): (rows: seq<Row>)
    ensures |rows| == |raw|
    ensures forall i | 0 <= i < |raw| :: rows[i] == Project(p, raw[i])
  {
    seq(|raw|, i requires 0 <= i < |raw| => Project(p, raw[i]))
  }

  /** The key under which the index files a row: the facility number, normalized once more. */
  function Identifier(p: Projector): Row -> string { row => p.norm(0, Get(row, 0)) }

  /** The row fingerprint also normalizes once more. */
  function Fingerprint(p: Projector): Row -> string { row => p.fingerprint(Project(p, row)) }

  /** The key of the per-field comparison: the facility number as projected. */
  function Facility(): Row -> string { row => Get(row, 0) }

  function Field(p: Projector, k: nat): Row -> string { row => p.norm(k, Get(row, k)) }

  /** The values of the rows filed under `id`, in row order. */
  function Collect(rows: seq<Row>, key: Row -> string, val: Row -> string, id: string): seq<string> {
    if rows == [] then []
    else
      var last := rows[|rows| - 1];
      Collect(rows[..|rows| - 1], key, val, id) + if key(last) == id then [val(last)] else []
  }

  function Keys(rows: seq<Row>, key: Row -> string): set<string> {
    set r | r in rows :: key(r)
  }

  function Index(p: Projector, rows: seq<Row>): map<string, seq<string>> {
    map id | id in Keys(rows, Identifier(p)) :: Sort(Collect(rows, Identifier(p), Fingerprint(p), id), StringLe)
  }

  /** The index, filled row by row and then sorted list by list. */
  method BuildIndex(p: Projector, rows: seq<Row>) returns (index: map<string, seq<string>>)
    ensures index == Index(p, rows)
  {
    var key, val := Identifier(p), Fingerprint(p);
    var lists: map<string, seq<string>> := map[];
    for i := 0 to |rows|
      invariant Filed(lists, rows[..i], key, val)
    {
      var row := rows[i];
      assert rows[..i + 1] == rows[..i] + [row];
      FiledStep(lists, rows[..i], row, key, val);
      lists := lists[key(row) := (if key(row) in lists then lists[key(row)] else []) + [val(row)]];
    }
    assert rows[..|rows|] == rows;
    index := map id | id in lists :: Sort(lists[id], StringLe);
  }

  /** `lists` files the values of `rows` under their keys. */
  ghost predicate Filed(lists: map<string, seq<string>>, rows: seq<Row>, key: Row -> string, val: Row -> string) {
    lists.Keys == Keys(rows, key) && forall id | id in lists :: lists[id] == Collect(rows, key, val, id)
  }

  lemma FiledStep(
      lists: map<string, seq<string>>, front: seq<Row>, row: Row, key: Row -> string, val: Row -> string)
    requires Filed(lists, front, key, val)
    ensures Filed(lists[key(row) := (if key(row) in lists then lists[key(row)] else []) + [val(row)]],
                  front + [row], key, val)
  {
    KeysStep(front, row, key);
    NothingCollected(front, key, val, key(row));
    forall id ensures Collect(front + [row], key, val, id)
                      == Collect(front, key, val, id) + if key(row) == id then [val(row)] else [] {
      CollectStep(front, row, key, val, id);
    }
  }

  lemma KeysStep(front: seq<Row>, row: Row, key: Row -> string)
    ensures Keys(front + [row], key) == Keys(front, key) + {key(row)}
  {
    var rows := front + [row];
    assert rows[|front|] == row;
    assert forall r | r in front :: r in rows;
  }

  lemma CollectStep(front: seq<Row>, row: Row, key: Row -> string, val: Row -> string, id: string)
    ensures Collect(front + [row], key, val, id)
         == Collect(front, key, val, id) + if key(row) == id then [val(row)] else []
  {
    assert (front + [row])[..|front + [row]| - 1] == front;
  }

  lemma {:induction false} NothingCollected(rows: seq<Row>, key: Row -> string, val: Row -> string, id: string)
    ensures id !in Keys(rows, key) ==> Collect(rows, key, val, id) == []
  {
    if rows != [] {
      var front, last := rows[..|rows| - 1], rows[|rows| - 1];
      assert rows == front + [last];
      KeysStep(front, last, key);
      NothingCollected(front, key, val, id);
    }
  }

  function Pairs(rows: seq<Row>, key: Row -> string, val: Row -> string): (pairs: seq<(string, string)>)
    ensures |pairs| == |rows|
  {
    seq(|rows|, i requires 0 <= i < |rows| => (key(rows[i]), val(rows[i])))
  }

  predicate PairLe(a: (string, string), b: (string, string)) {
    if a.0 == b.0 then StringLe(a.1, b.1) else StringLe(a.0, b.0)
  }

  /** `normalized_content_fingerprint` */
  function ContentHash(p: Projector, rows: seq<Row>): string {
    p.content(Sort(Pairs(rows, Identifier(p), Fingerprint(p)), PairLe))
  }

  predicate FieldDiffers(p: Projector, query: seq<Row>, export_: seq<Row>, id: string, k: nat) {
    Sort(Collect(query, Facility(), Field(p, k), id), StringLe)
    != Sort(Collect(export_, Facility(), Field(p, k), id), StringLe)
  }

  /** What is reported about one side alone: its rows, its identifiers, its rows without one, and
      the identifiers it has several rows for. */
  datatype Side = Side(rows: nat, ids: nat, blank: nat, duplicates: set<string>)

  function SideOf(index: map<string, seq<string>>, rows: seq<Row>): Side {
    Side(|rows|, |index.Keys - {""}|, if "" in index then |index[""]| else 0,
         set id | id in index && id != "" && |index[id]| > 1)
  }

  datatype Comparison = Comparison(
    equivalent: bool, queryOnly: set<string>, exportOnly: set<string>, changed: set<string>,
    fieldDifferences: seq<nat>, queryHash: string, exportHash: string)

  function Shared(p: Projector, query: seq<Row>, export_: seq<Row>): set<string> {
    Keys(query, Identifier(p)) * Keys(export_, Identifier(p)) - {""}
  }

  /** Shared identifiers on which field `k` differs. */
  function Differing(p: Projector, query: seq<Row>, export_: seq<Row>, k: nat): set<string> {
    set id | id in Shared(p, query, export_) && FieldDiffers(p, query, export_, id, k)
  }

  ghost function DifferingSets(p: Projector, query: seq<Row>, export_: seq<Row>): (sets: seq<set<string>>)
    ensures |sets| == p.fields
  {
    seq(p.fields, k requires 0 <= k => Differing(p, query, export_, k))
  }

  /** What is reported about two projected row lists. */
  function Compare(p: Projector, query: seq<Row>, export_: seq<Row>): Comparison {
    var q, e := Index(p, query), Index(p, export_);
    Comparison(
      q == e && |query| == |export_|,
      (q.Keys - {""}) - (e.Keys - {""}), (e.Keys - {""}) - (q.Keys - {""}),
      (set id | id in q.Keys * e.Keys - {""} && q[id] != e[id]),
      seq(p.fields, k requires 0 <= k => |Differing(p, query, export_, k)|),
      ContentHash(p, query), ContentHash(p, export_))
  }

  /** The outer loop, over shared identifiers. */
  method CountFieldDifferences(p: Projector, query: seq<Row>, export_: seq<Row>) returns (counts: seq<nat>)
    ensures Tally(counts, DifferingSets(p, query, export_))
  {
    var todo, done: set<string> := Shared(p, query, export_), {};
    ghost var shared, differing := todo, DifferingSets(p, query, export_);
    counts := seq(p.fields, _ => 0);
    NoneCounted(counts, differing);
    while todo != {}
      invariant Split(shared, todo, done)
      invariant Counted(counts, differing, p.fields, done, done)
      decreases todo
    {
      var id :| id in todo;
      counts := CountOne(p, query, export_, id, counts, done);
      todo, done := todo - {id}, done + {id};
    }
    DifferingAreShared(p, query, export_);
    AllCounted(counts, differing, done);
  }

  ghost predicate Tally(counts: seq<nat>, sets: seq<set<string>>) {
    |counts| == |sets| && forall k | 0 <= k < |sets| :: counts[k] == |sets[k]|
  }

  lemma DifferingAreShared(p: Projector, query: seq<Row>, export_: seq<Row>)
    ensures forall d | d in DifferingSets(p, query, export_) :: d <= Shared(p, query, export_)
  {
  }

  ghost predicate Split(all: set<string>, a: set<string>, b: set<string>) { all == a + b && a !! b }

  lemma NoneCounted(counts: seq<nat>, sets: seq<set<string>>)
    requires |counts| == |sets| && forall k | 0 <= k < |counts| :: counts[k] == 0
    ensures Counted(counts, sets, |sets|, {}, {})
  {
    forall k | 0 <= k < |sets| ensures |sets[k] * {}| == 0 {
      assert sets[k] * {} == {};
    }
  }

  /** The inner loop, over the fields of one shared identifier. */
  method CountOne(
      p: Projector, query: seq<Row>, export_: seq<Row>, id: string, before: seq<nat>, ghost done: set<string>)
    returns (counts: seq<nat>)
    requires id in Shared(p, query, export_) && id !in done
    requires Counted(before, DifferingSets(p, query, export_), p.fields, done, done)
    ensures Counted(counts, DifferingSets(p, query, export_), p.fields, done + {id}, done + {id})
  {
    ghost var differing := DifferingSets(p, query, export_);
    counts := before;
    for k := 0 to p.fields
      invariant Counted(counts, differing, k, done + {id}, done)
    {
      var differs := FieldDiffers(p, query, export_, id, k);
      CountStep(counts, differing, k, done, id, differs);
      if differs {
        counts := counts[k := counts[k] + 1];
      }
    }
  }

  lemma AllCounted(counts: seq<nat>, sets: seq<set<string>>, all: set<string>)
    requires Counted(counts, sets, |sets|, all, all)
    requires forall d | d in sets :: d <= all
    ensures Tally(counts, sets)
  {
    forall k | 0 <= k < |sets| ensures counts[k] == |sets[k]| {
      assert sets[k] in sets;
      assert sets[k] * all == sets[k];
    }
  }

  /** The first `k` counts include the identifiers of `now`, the others only those of `before`. */
  ghost predicate Counted(counts: seq<nat>, sets: seq<set<string>>, k: nat, now: set<string>, before: set<string>) {
    && |counts| == |sets|
    && forall j | 0 <= j < |sets| :: counts[j] == |sets[j] * (if j < k then now else before)|
  }

  lemma CountStep(counts: seq<nat>, sets: seq<set<string>>, k: nat, done: set<string>, id: string, differs: bool)
    requires k < |sets| && Counted(counts, sets, k, done + {id}, done)
    requires id !in done && (differs <==> id in sets[k])
    ensures Counted(if differs then counts[k := counts[k] + 1] else counts, sets, k + 1, done + {id}, done)
  {
    if differs {
      assert sets[k] * (done + {id}) == sets[k] * done + {id};
    } else {
      assert sets[k] * (done + {id}) == sets[k] * done;
    }
  }

  /** `compare_export_query` */
  method CompareExportQuery(p: Projector, queryRows: seq<Row>, exportRows: seq<Row>)
    returns (c: Comparison, querySide: Side, exportSide: Side)
    ensures c == Compare(p, ProjectRows(p, queryRows), ProjectRows(p, exportRows))
    ensures SideReads(p, ProjectRows(p, queryRows), querySide)
    ensures SideReads(p, ProjectRows(p, exportRows), exportSide)
  {
    var query, export_ := ProjectRows(p, queryRows), ProjectRows(p, exportRows);
    var q := BuildIndex(p, query);
    var e := BuildIndex(p, export_);
    var counts := CountFieldDifferences(p, query, export_);
    assert counts == Compare(p, query, export_).fieldDifferences;
    c := Comparison(
      q == e && |query| == |export_|,
      (q.Keys - {""}) - (e.Keys - {""}), (e.Keys - {""}) - (q.Keys - {""}),
      (set id | id in q.Keys * e.Keys - {""} && q[id] != e[id]),
      counts, ContentHash(p, query), ContentHash(p, export_));
    querySide, exportSide := SideOf(q, query), SideOf(e, export_);
    SideExact(p, query, querySide);
    SideExact(p, export_, exportSide);
  }

  // ---- Collected values depend only on the row multiset ----

  lemma {:induction false} PairCount(rows: seq<Row>, key: Row -> string, val: Row -> string, id: string, v: string)
    ensures multiset(Pairs(rows, key, val))[(id, v)] == multiset(Collect(rows, key, val, id))[v]
  {
    if rows != [] {
      var front, last := rows[..|rows| - 1], rows[|rows| - 1];
      PairCount(front, key, val, id, v);
      assert Pairs(rows, key, val) == Pairs(front, key, val) + [(key(last), val(last))];
    }
  }

  lemma PairsConcat(a: seq<Row>, b: seq<Row>, key: Row -> string, val: Row -> string)
    ensures Pairs(a + b, key, val) == Pairs(a, key, val) + Pairs(b, key, val)
  {
  }

  lemma {:induction false} PairsPermute(a: seq<Row>, b: seq<Row>, key: Row -> string, val: Row -> string)
    requires multiset(a) == multiset(b)
    ensures multiset(Pairs(a, key, val)) == multiset(Pairs(b, key, val))
  {
    if a == [] {
      EmptyContents(b);
    } else {
      var x, front := a[|a| - 1], a[..|a| - 1];
      assert a == front + [x];
      assert x in multiset(b);
      var l, r := RemoveOne(b, x);
      PairsPermute(front, l + r, key, val);
      PairsConcat(front, [x], key, val);
      PairsConcat(l, [x], key, val);
      PairsConcat(l + [x], r, key, val);
      PairsConcat(l, r, key, val);
    }
  }

  lemma CollectPermute(a: seq<Row>, b: seq<Row>, key: Row -> string, val: Row -> string, id: string)
    requires multiset(a) == multiset(b)
    ensures Sort(Collect(a, key, val, id), StringLe) == Sort(Collect(b, key, val, id), StringLe)
  {
    var u, w := Collect(a, key, val, id), Collect(b, key, val, id);
    PairsPermute(a, b, key, val);
    forall v ensures multiset(u)[v] == multiset(w)[v] {
      PairCount(a, key, val, id, v);
      PairCount(b, key, val, id, v);
    }
    assert multiset(u) == multiset(w);
    StringOrder();
    SortPermutation(u, w, StringLe);
  }

  /** Where values identify rows, the copies of a row are the copies of its value. */
  lemma {:induction false} RowCount(rows: seq<Row>, key: Row -> string, val: Row -> string, r: Row)
    requires forall x | x in rows :: val(x) == val(r) ==> x == r
    ensures multiset(rows)[r] == multiset(Collect(rows, key, val, key(r)))[val(r)]
  {
    if rows != [] {
      var front, last := rows[..|rows| - 1], rows[|rows| - 1];
      assert rows == front + [last];
      assert last in rows;
      RowCount(front, key, val, r);
    }
  }

  lemma ListedValues(p: Projector, rows: seq<Row>, id: string)
    ensures multiset(Collect(rows, Identifier(p), Fingerprint(p), id))
         == if id in Index(p, rows) then multiset(Index(p, rows)[id]) else multiset{}
  {
    StringOrder();
    NothingCollected(rows, Identifier(p), Fingerprint(p), id);
    SortCorrect(Collect(rows, Identifier(p), Fingerprint(p), id), StringLe);
  }

  lemma SameLists(p: Projector, query: seq<Row>, export_: seq<Row>, id: string)
    requires Index(p, query) == Index(p, export_)
    ensures multiset(Collect(query, Identifier(p), Fingerprint(p), id))
         == multiset(Collect(export_, Identifier(p), Fingerprint(p), id))
  {
    ListedValues(p, query, id);
    ListedValues(p, export_, id);
  }

  lemma SamePairs(p: Projector, query: seq<Row>, export_: seq<Row>)
    requires Index(p, query) == Index(p, export_)
    ensures multiset(Pairs(query, Identifier(p), Fingerprint(p)))
         == multiset(Pairs(export_, Identifier(p), Fingerprint(p)))
    ensures |query| == |export_|
  {
    var key, val := Identifier(p), Fingerprint(p);
    var a, b := Pairs(query, key, val), Pairs(export_, key, val);
    forall x: (string, string) ensures multiset(a)[x] == multiset(b)[x] {
      PairCount(query, key, val, x.0, x.1);
      PairCount(export_, key, val, x.0, x.1);
      SameLists(p, query, export_, x.0);
    }
    assert multiset(a) == multiset(b);
    assert |a| == |multiset(a)| && |b| == |multiset(b)|;
  }

  lemma PairOrder()
    ensures TotalOrder(PairLe)
    ensures forall a, b :: PairLe(a, b) && PairLe(b, a) ==> a == b
  {
    forall a, b ensures PairLe(a, b) || PairLe(b, a) {
      StringLeTotal(a.0, b.0);
      StringLeTotal(a.1, b.1);
    }
    forall a, b, c | PairLe(a, b) && PairLe(b, c) ensures PairLe(a, c) {
      StringLeTotal(a.0, b.0);
      StringLeTotal(b.0, c.0);
      if StringLe(a.0, b.0) && StringLe(b.0, c.0) { StringLeTransitive(a.0, b.0, c.0); }
      if a.0 == b.0 == c.0 { StringLeTransitive(a.1, b.1, c.1); }
    }
    forall a, b | PairLe(a, b) && PairLe(b, a) ensures a == b {
      StringLeTotal(a.0, b.0);
      StringLeTotal(a.1, b.1);
    }
  }

  // ---- Results ----

  /** Whatever the fingerprint function, the row-count conjunct of the verdict is redundant and an
      `equivalent` verdict comes with equal content hashes and empty difference lists. */
  lemma CountRedundant(p: Projector, query: seq<Row>, export_: seq<Row>)
    ensures Compare(p, query, export_).equivalent <==> Index(p, query) == Index(p, export_)
    ensures Compare(p, query, export_).equivalent ==> NothingReported(Compare(p, query, export_))
  {
    if Index(p, query) == Index(p, export_) {
      SamePairs(p, query, export_);
      PairOrder();
      SortPermutation(Pairs(query, Identifier(p), Fingerprint(p)),
                      Pairs(export_, Identifier(p), Fingerprint(p)), PairLe);
    }
  }

  predicate NothingReported(c: Comparison) {
    c.queryHash == c.exportHash && c.queryOnly == {} && c.exportOnly == {} && c.changed == {}
  }

  /** Normalizing twice is normalizing once. */
  ghost predicate Idempotent(p: Projector) {
    forall k: nat, s :: p.norm(k, p.norm(k, s)) == p.norm(k, s)
  }

  ghost predicate InjectiveFingerprint(p: Projector) {
    forall a, b :: p.fingerprint(a) == p.fingerprint(b) ==> a == b
  }

  /** Rows that normalization leaves alone. */
  ghost predicate Normal(p: Projector, rows: seq<Row>) {
    forall r | r in rows :: Project(p, r) == r
  }

  lemma ProjectedNormal(p: Projector, raw: seq<Row>)
    requires Idempotent(p)
    ensures Normal(p, ProjectRows(p, raw))
  {
    forall r | r in ProjectRows(p, raw) ensures Project(p, r) == r {
      var i :| 0 <= i < |raw| && ProjectRows(p, raw)[i] == r;
      assert forall k | 0 <= k < p.fields :: Get(r, k) == p.norm(k, Get(raw[i], k));
    }
  }

  lemma EqualRowsEqualIndex(p: Projector, query: seq<Row>, export_: seq<Row>)
    requires multiset(query) == multiset(export_)
    ensures Index(p, query) == Index(p, export_)
  {
    forall r ensures r in query <==> r in export_ {
      assert r in multiset(query) <==> r in multiset(export_);
    }
    assert Keys(query, Identifier(p)) == Keys(export_, Identifier(p));
    forall id | id in Keys(query, Identifier(p)) ensures Index(p, query)[id] == Index(p, export_)[id] {
      CollectPermute(query, export_, Identifier(p), Fingerprint(p), id);
    }
  }

  lemma EqualIndexEqualRows(p: Projector, query: seq<Row>, export_: seq<Row>)
    requires Normal(p, query) && Normal(p, export_) && InjectiveFingerprint(p)
    requires Index(p, query) == Index(p, export_)
    ensures multiset(query) == multiset(export_)
  {
    forall r: Row ensures multiset(query)[r] == multiset(export_)[r] {
      if r in query || r in export_ {
        RowCount(query, Identifier(p), Fingerprint(p), r);
        RowCount(export_, Identifier(p), Fingerprint(p), r);
        SameLists(p, query, export_, Identifier(p)(r));
      }
    }
  }

  /** With idempotent normalization and injective fingerprints, the verdict is `equivalent`
      exactly when the projected rows are the same multiset, and then no field is counted as
      differing either. */
  lemma VerdictExact(p: Projector, queryRows: seq<Row>, exportRows: seq<Row>)
    requires Idempotent(p) && InjectiveFingerprint(p)
    ensures var query, export_ := ProjectRows(p, queryRows), ProjectRows(p, exportRows);
      var c := Compare(p, query, export_);
      && (c.equivalent <==> multiset(query) == multiset(export_))
      && (c.equivalent ==> forall k | 0 <= k < p.fields :: c.fieldDifferences[k] == 0)
  {
    var query, export_ := ProjectRows(p, queryRows), ProjectRows(p, exportRows);
    ProjectedNormal(p, queryRows);
    ProjectedNormal(p, exportRows);
    CountRedundant(p, query, export_);
    if multiset(query) == multiset(export_) {
      EqualRowsEqualIndex(p, query, export_);
    } else if Index(p, query) == Index(p, export_) {
      EqualIndexEqualRows(p, query, export_);
    }
    if multiset(query) == multiset(export_) {
      forall k: nat ensures Differing(p, query, export_, k) == {} {
        forall id ensures !FieldDiffers(p, query, export_, id, k) {
          CollectPermute(query, export_, Facility(), Field(p, k), id);
        }
      }
    }
  }

  // ---- What is reported about one side ----

  /** Two rows are filed under `id`. */
  ghost predicate Twice(rows: seq<Row>, key: Row -> string, id: string) {
    exists i, j :: 0 <= i < j < |rows| && key(rows[i]) == key(rows[j]) == id
  }

  lemma TwiceStep(front: seq<Row>, last: Row, key: Row -> string, id: string)
    ensures Twice(front + [last], key, id) <==> Twice(front, key, id) || (key(last) == id && id in Keys(front, key))
  {
    var rows := front + [last];
    if Twice(rows, key, id) {
      var i, j :| 0 <= i < j < |rows| && key(rows[i]) == key(rows[j]) == id;
      assert rows[i] == front[i] && front[i] in front;
      assert j < |front| ==> rows[j] == front[j];
    }
    if Twice(front, key, id) {
      var i, j :| 0 <= i < j < |front| && key(front[i]) == key(front[j]) == id;
      assert key(rows[i]) == key(rows[j]) == id;
    }
    if key(last) == id && id in Keys(front, key) {
      var r :| r in front && key(r) == id;
      var i :| 0 <= i < |front| && front[i] == r;
      assert key(rows[i]) == key(rows[|front|]) == id;
    }
  }

  lemma {:induction false} FiledTwice(rows: seq<Row>, key: Row -> string, val: Row -> string, id: string)
    ensures |Collect(rows, key, val, id)| > 0 <==> id in Keys(rows, key)
    ensures |Collect(rows, key, val, id)| > 1 <==> Twice(rows, key, id)
  {
    if rows != [] {
      var front, last := rows[..|rows| - 1], rows[|rows| - 1];
      assert rows == front + [last];
      FiledTwice(front, key, val, id);
      KeysStep(front, last, key);
      TwiceStep(front, last, key, id);
    }
  }

  /** The places of the rows filed under `id`. */
  ghost function Places(rows: seq<Row>, key: Row -> string, id: string): set<int> {
    set i | 0 <= i < |rows| && key(rows[i]) == id
  }

  lemma {:induction false} PlacesCounted(rows: seq<Row>, key: Row -> string, val: Row -> string, id: string)
    ensures |Places(rows, key, id)| == |Collect(rows, key, val, id)|
  {
    if rows != [] {
      var front, last := rows[..|rows| - 1], rows[|rows| - 1];
      PlacesCounted(front, key, val, id);
      assert Places(rows, key, id) == Places(front, key, id) + if key(last) == id then {|front|} else {};
    }
  }

  /** Rows are at least the identifiers and the rows without one, and just as many exactly when no
      identifier has two rows. */
  lemma {:induction false} RowsCounted(rows: seq<Row>, key: Row -> string, val: Row -> string)
    ensures |Keys(rows, key) - {""}| + |Collect(rows, key, val, "")| <= |rows|
    ensures |Keys(rows, key) - {""}| + |Collect(rows, key, val, "")| == |rows|
      <==> forall id | id != "" :: !Twice(rows, key, id)
  {
    if rows != [] {
      var front, last := rows[..|rows| - 1], rows[|rows| - 1];
      assert rows == front + [last];
      RowsCounted(front, key, val);
      OneMoreRow(front, last, key, val);
      forall id ensures Twice(rows, key, id) <==>
        Twice(front, key, id) || (key(last) == id && id in Keys(front, key)) {
        TwiceStep(front, last, key, id);
      }
    }
  }

  /** What one row adds to the two counts. */
  lemma OneMoreRow(front: seq<Row>, last: Row, key: Row -> string, val: Row -> string)
    ensures var rows := front + [last];
      |Keys(rows, key) - {""}| + |Collect(rows, key, val, "")|
      == |Keys(front, key) - {""}| + |Collect(front, key, val, "")|
         + if key(last) != "" && key(last) in Keys(front, key) then 0 else 1
  {
    KeysStep(front, last, key);
    CollectStep(front, last, key, val, "");
    var before, after := Keys(front, key) - {""}, Keys(front + [last], key) - {""};
    if key(last) == "" || key(last) in Keys(front, key) {
      assert after == before;
    } else {
      assert after == before + {key(last)} && key(last) !in before;
    }
  }

  /** The lengths of the filed lists. */
  ghost predicate Sized(index: map<string, seq<string>>, rows: seq<Row>, key: Row -> string, val: Row -> string) {
    index.Keys == Keys(rows, key) && forall id | id in index :: |index[id]| == |Collect(rows, key, val, id)|
  }

  lemma IndexSized(p: Projector, rows: seq<Row>)
    ensures Sized(Index(p, rows), rows, Identifier(p), Fingerprint(p))
  {
    StringOrder();
    forall id | id in Index(p, rows)
      ensures |Index(p, rows)[id]| == |Collect(rows, Identifier(p), Fingerprint(p), id)|
    {
      SortCorrect(Collect(rows, Identifier(p), Fingerprint(p), id), StringLe);
    }
  }

  /** An identifier is a duplicate exactly when two rows have it; the side counts its rows, and they
      are as many as its identifiers and its rows without one exactly when it has no duplicates. */
  ghost predicate SideFits(side: Side, rows: seq<Row>, key: Row -> string) {
    && side.rows == |rows|
    && (forall id :: id in side.duplicates <==> id != "" && Twice(rows, key, id))
    && side.blank == |Places(rows, key, "")| && side.ids == |Keys(rows, key) - {""}|
    && side.ids + side.blank <= side.rows
    && (side.ids + side.blank == side.rows <==> side.duplicates == {})
  }

  lemma SideFitsSized(
      side: Side, index: map<string, seq<string>>, rows: seq<Row>, key: Row -> string, val: Row -> string)
    requires side == SideOf(index, rows) && Sized(index, rows, key, val)
    ensures SideFits(side, rows, key)
  {
    forall id ensures id in side.duplicates <==> id != "" && Twice(rows, key, id) {
      FiledTwice(rows, key, val, id);
    }
    FiledTwice(rows, key, val, "");
    PlacesCounted(rows, key, val, "");
    RowsCounted(rows, key, val);
    assert side.blank == |Collect(rows, key, val, "")|;
  }

  ghost predicate SideReads(p: Projector, rows: seq<Row>, side: Side) { SideFits(side, rows, Identifier(p)) }

  lemma SideExact(p: Projector, rows: seq<Row>, side: Side)
    requires side == SideOf(Index(p, rows), rows)
    ensures SideReads(p, rows, side)
  {
    IndexSized(p, rows);
    SideFitsSized(side, Index(p, rows), rows, Identifier(p), Fingerprint(p));
  }

  // ---- Which facilities are reported ----

  /** Some row filed under `id` occurs a different number of times on the two sides. */
  ghost predicate RowsDiffer(p: Projector, query: seq<Row>, export_: seq<Row>, id: string) {
    exists r :: Identifier(p)(r) == id && multiset(query)[r] != multiset(export_)[r]
  }

  ghost predicate Occurs(p: Projector, rows: seq<Row>, id: string) {
    exists r :: r in rows && Identifier(p)(r) == id
  }

  lemma RowFingerprints(p: Projector, rows: seq<Row>, r: Row)
    requires Normal(p, rows) && InjectiveFingerprint(p) && Project(p, r) == r
    ensures multiset(rows)[r]
         == multiset(Collect(rows, Identifier(p), Fingerprint(p), Identifier(p)(r)))[Fingerprint(p)(r)]
  {
    RowCount(rows, Identifier(p), Fingerprint(p), r);
  }

  lemma {:induction false} Collected(
      rows: seq<Row>, key: Row -> string, val: Row -> string, id: string, v: string) returns (r: Row)
    requires v in Collect(rows, key, val, id)
    ensures r in rows && key(r) == id && val(r) == v
  {
    var front, last := rows[..|rows| - 1], rows[|rows| - 1];
    assert rows == front + [last];
    if key(last) == id && val(last) == v {
      r := last;
    } else {
      r := Collected(front, key, val, id, v);
    }
  }

  /** The list filed under an identifier says exactly which rows it has, how often. */
  lemma ListsTell(p: Projector, query: seq<Row>, export_: seq<Row>, id: string)
    requires Normal(p, query) && Normal(p, export_) && InjectiveFingerprint(p)
    ensures Sort(Collect(query, Identifier(p), Fingerprint(p), id), StringLe)
         != Sort(Collect(export_, Identifier(p), Fingerprint(p), id), StringLe)
       <==> RowsDiffer(p, query, export_, id)
  {
    var a, b := Collect(query, Identifier(p), Fingerprint(p), id), Collect(export_, Identifier(p), Fingerprint(p), id);
    StringOrder();
    SortCorrect(a, StringLe);
    SortCorrect(b, StringLe);
    if RowsDiffer(p, query, export_, id) {
      var r :| Identifier(p)(r) == id && multiset(query)[r] != multiset(export_)[r];
      assert r in query || r in export_;
      RowFingerprints(p, query, r);
      RowFingerprints(p, export_, r);
    } else if multiset(a) != multiset(b) {
      var v :| multiset(a)[v] != multiset(b)[v];
      var r := SomeRow(p, query, export_, id, v);
      RowFingerprints(p, query, r);
      RowFingerprints(p, export_, r);
    } else {
      SortPermutation(a, b, StringLe);
    }
  }

  lemma SomeRow(p: Projector, query: seq<Row>, export_: seq<Row>, id: string, v: string) returns (r: Row)
    requires Normal(p, query) && Normal(p, export_)
    requires multiset(Collect(query, Identifier(p), Fingerprint(p), id))[v]
          != multiset(Collect(export_, Identifier(p), Fingerprint(p), id))[v]
    ensures Project(p, r) == r && Identifier(p)(r) == id && Fingerprint(p)(r) == v
  {
    if v in Collect(query, Identifier(p), Fingerprint(p), id) {
      r := Collected(query, Identifier(p), Fingerprint(p), id, v);
    } else {
      assert v in multiset(Collect(export_, Identifier(p), Fingerprint(p), id));
      r := Collected(export_, Identifier(p), Fingerprint(p), id, v);
    }
  }

  lemma IndexedIffOccurs(p: Projector, rows: seq<Row>, id: string)
    ensures id in Index(p, rows) <==> Occurs(p, rows, id)
    ensures id in Index(p, rows) ==>
      Index(p, rows)[id] == Sort(Collect(rows, Identifier(p), Fingerprint(p), id), StringLe)
  {
  }

  lemma ListedIn(p: Projector, query: seq<Row>, export_: seq<Row>, id: string, q: map<string, seq<string>>,
                 e: map<string, seq<string>>, c: Comparison)
    requires q == Index(p, query) && e == Index(p, export_) && c == Compare(p, query, export_)
    ensures id in c.queryOnly <==> id != "" && id in q && id !in e
    ensures id in c.exportOnly <==> id != "" && id in e && id !in q
    ensures id in c.changed <==> id != "" && id in q && id in e && q[id] != e[id]
  {
  }

  /** The reported lists in terms of occurrences and filed lists. */
  lemma ListedOccurs(p: Projector, query: seq<Row>, export_: seq<Row>, id: string, c: Comparison)
    requires c == Compare(p, query, export_)
    ensures id in c.queryOnly <==> id != "" && Occurs(p, query, id) && !Occurs(p, export_, id)
    ensures id in c.exportOnly <==> id != "" && Occurs(p, export_, id) && !Occurs(p, query, id)
    ensures (id in c.changed <==>
      && id != "" && Occurs(p, query, id) && Occurs(p, export_, id)
      && Sort(Collect(query, Identifier(p), Fingerprint(p), id), StringLe)
         != Sort(Collect(export_, Identifier(p), Fingerprint(p), id), StringLe))
  {
    IndexedIffOccurs(p, query, id);
    IndexedIffOccurs(p, export_, id);
    ListedIn(p, query, export_, id, Index(p, query), Index(p, export_), c);
  }

  /** A facility is missing on one side exactly when it has rows on the other side only, and it is
      changed exactly when it has rows on both sides and some row occurs differently often. */
  lemma ReportedExactly(p: Projector, query: seq<Row>, export_: seq<Row>, id: string, c: Comparison)
    requires Normal(p, query) && Normal(p, export_) && InjectiveFingerprint(p)
    requires c == Compare(p, query, export_)
    ensures id in c.queryOnly <==> id != "" && Occurs(p, query, id) && !Occurs(p, export_, id)
    ensures id in c.exportOnly <==> id != "" && Occurs(p, export_, id) && !Occurs(p, query, id)
    ensures (id in c.changed
      <==> id != "" && Occurs(p, query, id) && Occurs(p, export_, id) && RowsDiffer(p, query, export_, id))
  {
    ListedOccurs(p, query, export_, id, c);
    ListsTell(p, query, export_, id);
  }

  /** Row `i` is the only row of facility `id`. */
  ghost predicate OnlyRow(rows: seq<Row>, id: string, i: nat) {
    i < |rows| && forall j | 0 <= j < |rows| :: Get(rows[j], 0) == id <==> i == j
  }

  lemma {:induction false} CollectOnly(rows: seq<Row>, key: Row -> string, val: Row -> string, id: string, i: nat)
    requires i < |rows| && forall j | 0 <= j < |rows| :: key(rows[j]) == id <==> i == j
    ensures Collect(rows, key, val, id) == [val(rows[i])]
  {
    var front := rows[..|rows| - 1];
    if i == |rows| - 1 {
      assert id !in Keys(front, key);
      NothingCollected(front, key, val, id);
    } else {
      CollectOnly(front, key, val, id, i);
    }
  }

  /** The two keys agree on normal rows. */
  lemma KeysAgree(p: Projector, rows: seq<Row>, r: Row)
    requires p.fields > 0 && Normal(p, rows) && r in rows
    ensures Identifier(p)(r) == Get(r, 0)
    ensures Fingerprint(p)(r) == p.fingerprint(r)
    ensures |r| == p.fields && forall k: nat | k < p.fields :: Field(p, k)(r) == r[k]
  {
    assert Project(p, r) == r;
  }

  lemma SortSingleton(x: string)
    ensures Sort([x], StringLe) == [x]
  {
    assert [x][1..] == [] && Sort<string>([], StringLe) == [];
  }

  lemma OnlyRowIndexed(p: Projector, rows: seq<Row>, id: string, i: nat)
    requires p.fields > 0 && Normal(p, rows) && OnlyRow(rows, id, i)
    ensures id in Index(p, rows) && Index(p, rows)[id] == [p.fingerprint(rows[i])]
    ensures forall k: nat | k < p.fields :: Collect(rows, Facility(), Field(p, k), id) == [Get(rows[i], k)]
  {
    forall j | 0 <= j < |rows| ensures Identifier(p)(rows[j]) == Get(rows[j], 0) {
      KeysAgree(p, rows, rows[j]);
    }
    KeysAgree(p, rows, rows[i]);
    CollectOnly(rows, Identifier(p), Fingerprint(p), id, i);
    assert Identifier(p)(rows[i]) in Keys(rows, Identifier(p));
    SortSingleton(p.fingerprint(rows[i]));
    forall k: nat | k < p.fields ensures Collect(rows, Facility(), Field(p, k), id) == [Get(rows[i], k)] {
      CollectOnly(rows, Facility(), Field(p, k), id, i);
    }
  }

  lemma DiffersOnField(p: Projector, query: seq<Row>, export_: seq<Row>, id: string, i: nat, j: nat, k: nat)
    requires k < p.fields && id != "" && Normal(p, query) && Normal(p, export_)
    requires OnlyRow(query, id, i) && OnlyRow(export_, id, j)
    ensures id in Differing(p, query, export_, k) <==> Get(query[i], k) != Get(export_[j], k)
  {
    OnlyRowIndexed(p, query, id, i);
    OnlyRowIndexed(p, export_, id, j);
    SortSingleton(Get(query[i], k));
    SortSingleton(Get(export_[j], k));
    assert Index(p, query).Keys == Keys(query, Identifier(p)) && Index(p, export_).Keys == Keys(export_, Identifier(p));
  }

  lemma ChangedOnly(p: Projector, query: seq<Row>, export_: seq<Row>, id: string, i: nat, j: nat)
    requires p.fields > 0 && id != "" && InjectiveFingerprint(p) && Normal(p, query) && Normal(p, export_)
    requires OnlyRow(query, id, i) && OnlyRow(export_, id, j)
    ensures id in Compare(p, query, export_).changed <==> query[i] != export_[j]
  {
    OnlyRowIndexed(p, query, id, i);
    OnlyRowIndexed(p, export_, id, j);
  }

  ghost predicate SomeFieldDiffers(p: Projector, query: seq<Row>, export_: seq<Row>, id: string) {
    exists k: nat :: k < p.fields && id in Differing(p, query, export_, k)
  }

  /** A facility with one row on each side is reported as changed exactly when some field is
      counted as differing for it. */
  lemma ChangedIffFieldDiffers(p: Projector, query: seq<Row>, export_: seq<Row>, id: string, i: nat, j: nat)
    requires p.fields > 0 && id != ""
    requires Normal(p, query) && Normal(p, export_) && InjectiveFingerprint(p)
    requires OnlyRow(query, id, i) && OnlyRow(export_, id, j)
    ensures id in Compare(p, query, export_).changed <==> SomeFieldDiffers(p, query, export_, id)
  {
    ChangedOnly(p, query, export_, id, i, j);
    KeysAgree(p, query, query[i]);
    KeysAgree(p, export_, export_[j]);
    if SomeFieldDiffers(p, query, export_, id) {
      var k: nat :| k < p.fields && id in Differing(p, query, export_, k);
      DiffersOnField(p, query, export_, id, i, j, k);
    }
    if query[i] != export_[j] {
      var k: nat :| k < p.fields && query[i][k] != export_[j][k];
      DiffersOnField(p, query, export_, id, i, j, k);
    }
  }
}
