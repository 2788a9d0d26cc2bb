/** Offset paging against a remote query service, and the check that what came back is
    complete. */
module Pagination {

  /** A row: its normalized object and facility identifiers (blank when missing), and the rest. */
  datatype Row = Row(objectId: string, facilityId: string, values: seq<string>)

  datatype Page = Malformed | Rows(rows: seq<Row>)

  // ---- The paging loop ----

  /** What the service answers to request `i` at offset `o`. */
  type Server = (nat, nat) -> Page

  datatype Capture = Captured(pages: seq<Page>) | MalformedPage | BoundExceeded

  function Collect(server: Server, bound: nat, index: nat, offset: nat): Capture
    requires index <= bound
    decreases bound - index
  {
    if index == bound then BoundExceeded
    else match server(index, offset)
      case Malformed => MalformedPage
      case Rows(rows) =>
        if rows == [] then Captured([Rows([])])
        else match Collect(server, bound, index + 1, offset + |rows|)
          case Captured(pages) => Captured([Rows(rows)] + pages)
          case other => other
  }

  /** `pages` in front of what the rest of a run yields. */
  function After(pages: seq<Page>, rest: Capture): Capture {
    if rest.Captured? then Captured(pages + rest.pages) else rest
  }

  method CapturePages(server: Server, bound: nat) returns (r: Capture)
    ensures r == Collect(server, bound, 0, 0)
  {
    var pages: seq<Page> := [];
    var offset: nat := 0;
    for index := 0 to bound
      invariant Collect(server, bound, 0, 0) == After(pages, Collect(server, bound, index, offset))
    {
      var page := server(index, offset);
      if page.Malformed? {
        return MalformedPage;
      }
      ghost var rest := Collect(server, bound, index + 1, offset + |page.rows|);
      if page.rows == [] {
        return Captured(pages + [page]);
      }
      assert rest.Captured? ==> (pages + [page]) + rest.pages == pages + ([page] + rest.pages);
      pages := pages + [page];
      offset := offset + |page.rows|;
    }
    return BoundExceeded;
  }

  function Min(a: nat, b: nat): nat { if a < b then a else b }

  /** The service holds `rows` and answers every request with `rows[o .. o + size]`, cut at
      the end. */
  ghost predicate Faithful(server: Server, rows: seq<Row>, size: nat) {
    forall i: nat, o: nat ::
      server(i, o) == Rows(rows[Min(o, |rows|)..Min(Min(o, |rows|) + size, |rows|)])
  }

  /** `math.ceil(n / size)` */
  function Ceil(n: nat, size: nat): nat
    requires size > 0
  {
    if n == 0 then 0 else Ceil(n - Min(n, size), size) + 1
  }

  /** It is the least number of pages of `size` that hold `n` rows. */
  lemma {:induction false} CeilIsLeast(n: nat, size: nat)
    requires size > 0
    ensures n <= Ceil(n, size) * size
    ensures Ceil(n, size) > 0 ==> (Ceil(n, size) - 1) * size < n
  {
    if n > 0 {
      var rest := Ceil(n - Min(n, size), size);
      CeilIsLeast(n - Min(n, size), size);
      assert (rest + 1) * size == rest * size + size;
      assert (rest - 1) * size == rest * size - size;
    }
  }

  /** The rows of the well-formed pages, in order. */
  function AllRows(pages: seq<Page>): seq<Row> {
    if pages == [] then []
    else AllRows(pages[..|pages| - 1]) + (if pages[|pages| - 1].Rows? then pages[|pages| - 1].rows else [])
  }

  lemma {:induction false} AllRowsCons(page: Page, pages: seq<Page>)
    ensures AllRows([page] + pages) == (if page.Rows? then page.rows else []) + AllRows(pages)
  {
    if pages == [] {
      assert ([page] + pages)[..0] == [];
    } else {
      AllRowsCons(page, pages[..|pages| - 1]);
      assert ([page] + pages)[..|pages|] == [page] + pages[..|pages| - 1];
    }
  }

  /** Well-formed pages of at most `size` rows, the last of them, and no other, empty. */
  ghost predicate Terminated(pages: seq<Page>, size: nat) {
    && pages != [] && pages[|pages| - 1] == Rows([])
    && (forall i | 0 <= i < |pages| :: pages[i].Rows? && |pages[i].rows| <= size)
    && (forall i | 0 <= i < |pages| - 1 :: pages[i].rows != [])
  }

  lemma TerminatedCons(page: Page, pages: seq<Page>, size: nat)
    requires page.Rows? && page.rows != [] && |page.rows| <= size && Terminated(pages, size)
    ensures Terminated([page] + pages, size)
  {
  }

  /** `r` is all rows from `o` on, one page per `size` of them and one empty page, if there is
      room for that many requests, and running out of the bound otherwise. */
  ghost predicate Yields(r: Capture, rows: seq<Row>, size: nat, o: nat, room: nat)
    requires size > 0 && o <= |rows|
  {
    var needed := Ceil(|rows| - o, size) + 1;
    if needed <= room
    then r.Captured? && |r.pages| == needed && AllRows(r.pages) == rows[o..] && Terminated(r.pages, size)
    else r == BoundExceeded
  }

  lemma YieldsEarlier(rest: Capture, rows: seq<Row>, size: nat, o: nat, room: nat)
    requires size > 0 && o < |rows|
    requires Yields(rest, rows, size, Min(o + size, |rows|), room)
    ensures Yields(After([Rows(rows[o..Min(o + size, |rows|)])], rest), rows, size, o, room + 1)
  {
    var next := Min(o + size, |rows|);
    var page := Rows(rows[o..next]);
    assert |rows| - o - Min(|rows| - o, size) == |rows| - next;
    if rest.Captured? {
      AllRowsCons(page, rest.pages);
      TerminatedCons(page, rest.pages, size);
      assert rows[o..next] + rows[next..] == rows[o..];
    }
  }

  lemma YieldsEnd(rows: seq<Row>, size: nat, room: nat)
    requires size > 0 && room > 0
    ensures Yields(Captured([Rows([])]), rows, size, |rows|, room)
  {
    assert AllRows([Rows([])]) == [];
  }

  lemma {:induction false} CollectFaithful(server: Server, rows: seq<Row>, size: nat, bound: nat, index: nat, o: nat)
    requires size > 0 && Faithful(server, rows, size) && o <= |rows| && index <= bound
    ensures Yields(Collect(server, bound, index, o), rows, size, o, bound - index)
    decreases bound - index
  {
    if index < bound {
      var next := Min(o + size, |rows|);
      assert server(index, o) == Rows(rows[o..next]);
      if o == |rows| {
        YieldsEnd(rows, size, bound - index);
      } else {
        CollectFaithful(server, rows, size, bound, index + 1, next);
        YieldsEarlier(Collect(server, bound, index + 1, next), rows, size, o, bound - index - 1);
      }
    }
  }

  /** Against a faithful service the loop succeeds exactly when its bound leaves room for every
      full page and the empty one; it then returns all rows, in order. */
  lemma CaptureExact(server: Server, rows: seq<Row>, size: nat, bound: nat)
    requires size > 0 && Faithful(server, rows, size)
    ensures var r := Collect(server, bound, 0, 0);
      && (r.Captured? <==> Ceil(|rows|, size) + 1 <= bound)
      && (!r.Captured? ==> r == BoundExceeded)
      && (r.Captured? ==> |r.pages| == Ceil(|rows|, size) + 1 && AllRows(r.pages) == rows && Terminated(r.pages, size))
  {
    CollectFaithful(server, rows, size, bound, 0, 0);
    assert rows[0..] == rows;
  }

  const PROGRAM_PAGE_SIZE: nat := 10_000
  const PROGRAM_PAGES: nat := 20

  /** The program datastore loop collects everything up to 190,000 rows, and fails beyond. */
  lemma ProgramCapture(server: Server, rows: seq<Row>)
    requires Faithful(server, rows, PROGRAM_PAGE_SIZE)
    ensures var r := Collect(server, PROGRAM_PAGES, 0, 0);
      && (r.Captured? <==> |rows| <= 190_000)
      && (r.Captured? ==> AllRows(r.pages) == rows)
  {
    CaptureExact(server, rows, PROGRAM_PAGE_SIZE, PROGRAM_PAGES);
    CeilIsLeast(|rows|, PROGRAM_PAGE_SIZE);
  }

  // ---- The completeness check ----

  datatype Report = Report(
    pass: bool, facilityPass: bool, pageCounts: seq<nat>, recordCount: nat,
    uniqueObjectIds: set<string>, uniqueFacilityIds: set<string>, missingFacilityIds: nat,
    duplicateObjectIds: set<string>, duplicateFacilityIds: set<string>,
    omitted: set<string>, unexpected: set<string>, malformed: seq<nat>, terminal: bool, maximumRespected: bool)

  /** How many rows carry object id `id`. */
  function Occurrences(rows: seq<Row>, id: string): nat {
    if rows == [] then 0
    else Occurrences(rows[..|rows| - 1], id) + if rows[|rows| - 1].objectId == id then 1 else 0
  }

  function FacilityOccurrences(rows: seq<Row>, id: string): nat {
    if rows == [] then 0
    else FacilityOccurrences(rows[..|rows| - 1], id) + if rows[|rows| - 1].facilityId == id then 1 else 0
  }

  function Wanted(expected: seq<string>): set<string> { set id | id in expected && id != "" }

  /** Every page is well formed and small enough, the last one is empty, and the nonblank
      object ids are exactly the expected ones, once each. */
  ghost predicate CompletePages(pages: seq<Page>, expected: seq<string>, maximum: nat) {
    && (forall i | 0 <= i < |pages| :: pages[i].Rows? && |pages[i].rows| <= maximum)
    && pages != [] && pages[|pages| - 1] == Rows([])
    && forall id | id != "" :: Occurrences(AllRows(pages), id) == if id in Wanted(expected) then 1 else 0
  }

  /** Every row has a facility id of its own. */
  ghost predicate FacilitiesDistinct(rows: seq<Row>) {
    && FacilityOccurrences(rows, "") == 0
    && forall id: string | id != "" :: FacilityOccurrences(rows, id) <= 1
  }

  /** A counter agrees with the rows it has seen. */
  ghost predicate Counts(counter: map<string, nat>, rows: seq<Row>) {
    forall id | id != "" ::
      Occurrences(rows, id) == if id in counter then counter[id] else 0
  }

  ghost predicate CountsFacilities(counter: map<string, nat>, rows: seq<Row>) {
    forall id | id != "" ::
      FacilityOccurrences(rows, id) == if id in counter then counter[id] else 0
  }

  ghost predicate Positive(counter: map<string, nat>) {
    "" !in counter && forall id | id in counter :: counter[id] > 0
  }

  method CountRows(rows: seq<Row>, objects0: map<string, nat>, facilities0: map<string, nat>, missing0: nat,
                   ghost before: seq<Row>)
    returns (objects: map<string, nat>, facilities: map<string, nat>, missing: nat)
    requires Counts(objects0, before) && Positive(objects0)
    requires CountsFacilities(facilities0, before) && Positive(facilities0)
    requires missing0 == FacilityOccurrences(before, "")
    ensures Counts(objects, before + rows) && Positive(objects)
    ensures CountsFacilities(facilities, before + rows) && Positive(facilities)
    ensures missing == FacilityOccurrences(before + rows, "")
  {
    objects, facilities, missing := objects0, facilities0, missing0;
    assert before + rows[..0] == before;
    for i := 0 to |rows|
      invariant Counts(objects, before + rows[..i]) && Positive(objects)
      invariant CountsFacilities(facilities, before + rows[..i]) && Positive(facilities)
      invariant missing == FacilityOccurrences(before + rows[..i], "")
    {
      var row := rows[i];
      var longer := before + rows[..i + 1];
      assert longer[..|longer| - 1] == before + rows[..i];
      if row.objectId != "" {
        objects := objects[row.objectId := (if row.objectId in objects then objects[row.objectId] else 0) + 1];
      }
      if row.facilityId != "" {
        var seen := if row.facilityId in facilities then facilities[row.facilityId] else 0;
        facilities := facilities[row.facilityId := seen + 1];
      } else {
        missing := missing + 1;
      }
    }
    assert rows[..|rows|] == rows;
  }

  /** Sizes of the well-formed pages. */
  function PageCounts(pages: seq<Page>): seq<nat> {
    if pages == [] then []
    else PageCounts(pages[..|pages| - 1]) + (if pages[|pages| - 1].Rows? then [|pages[|pages| - 1].rows|] else [])
  }

  function MalformedIndexes(pages: seq<Page>): seq<nat> {
    if pages == [] then []
    else MalformedIndexes(pages[..|pages| - 1]) + (if pages[|pages| - 1].Malformed? then [|pages| - 1] else [])
  }

  lemma {:induction false} WellFormedCounts(pages: seq<Page>)
    ensures MalformedIndexes(pages) == [] <==> forall i | 0 <= i < |pages| :: pages[i].Rows?
    ensures MalformedIndexes(pages) == [] ==> |PageCounts(pages)| == |pages|
    ensures MalformedIndexes(pages) == [] ==>
      forall i | 0 <= i < |pages| :: PageCounts(pages)[i] == |pages[i].rows|
  {
    if pages != [] {
      var front, last := pages[..|pages| - 1], pages[|pages| - 1];
      assert pages == front + [last];
      WellFormedCounts(front);
    }
  }

  method GatherPages(pages: seq<Page>)
    returns (pageCounts: seq<nat>, malformed: seq<nat>, rows: seq<Row>,
             objects: map<string, nat>, facilities: map<string, nat>, missing: nat)
    ensures pageCounts == PageCounts(pages) && malformed == MalformedIndexes(pages) && rows == AllRows(pages)
    ensures Counts(objects, rows) && Positive(objects)
    ensures CountsFacilities(facilities, rows) && Positive(facilities)
    ensures missing == FacilityOccurrences(rows, "")
  {
    pageCounts, malformed, rows, objects, facilities, missing := [], [], [], map[], map[], 0;
    for i := 0 to |pages|
      invariant pageCounts == PageCounts(pages[..i]) && malformed == MalformedIndexes(pages[..i])
      invariant rows == AllRows(pages[..i])
      invariant Counts(objects, rows) && Positive(objects)
      invariant CountsFacilities(facilities, rows) && Positive(facilities)
      invariant missing == FacilityOccurrences(rows, "")
    {
      assert pages[..i + 1][..i] == pages[..i];
      if pages[i].Malformed? {
        malformed := malformed + [i];
      } else {
        pageCounts := pageCounts + [|pages[i].rows|];
        objects, facilities, missing := CountRows(pages[i].rows, objects, facilities, missing, rows);
        rows := rows + pages[i].rows;
      }
    }
    assert pages[..|pages|] == pages;
  }

  /** The reported difference sets say what their names say. */
  ghost predicate DifferencesExact(report: Report, rows: seq<Row>, expected: seq<string>) {
    && (forall id :: id in report.omitted <==> id in Wanted(expected) && Occurrences(rows, id) == 0)
    && (forall id :: id in report.unexpected <==> (id != "" && id !in expected && Occurrences(rows, id) > 0))
    && (forall id :: id in report.duplicateObjectIds <==> id != "" && Occurrences(rows, id) > 1)
  }

  lemma DifferencesFrom(report: Report, rows: seq<Row>, expected: seq<string>, objects: map<string, nat>)
    requires Counts(objects, rows) && Positive(objects)
    requires report.duplicateObjectIds == set id | id in objects && objects[id] > 1
    requires report.omitted == Wanted(expected) - objects.Keys && report.unexpected == objects.Keys - Wanted(expected)
    ensures DifferencesExact(report, rows, expected)
  {
    forall id | id != "" ensures Occurrences(rows, id) > 0 <==> id in objects {
    }
  }

  /** `analyze_complete_pagination`: `pass` means exactly that the pages are complete. */
  method AnalyzeCompletePagination(pages: seq<Page>, expected: seq<string>, maximum: nat) returns (report: Report)
    ensures report.pass <==> CompletePages(pages, expected, maximum)
    ensures report.facilityPass <==> FacilitiesDistinct(AllRows(pages))
    ensures report.pageCounts == PageCounts(pages) && report.recordCount == |AllRows(pages)|
    ensures report.malformed == MalformedIndexes(pages)
    ensures DifferencesExact(report, AllRows(pages), expected)
    ensures report.missingFacilityIds == FacilityOccurrences(AllRows(pages), "")
  {
    var pageCounts, malformed, rows, objects, facilities, missing := GatherPages(pages);
    var wanted, observed := Wanted(expected), objects.Keys;
    var duplicates := set id | id in objects && objects[id] > 1;
    var duplicateFacilities := set id | id in facilities && facilities[id] > 1;
    var terminal := pageCounts != [] && pageCounts[|pageCounts| - 1] == 0;
    var respected := forall k | 0 <= k < |pageCounts| :: pageCounts[k] <= maximum;
    var omitted, unexpected := wanted - observed, observed - wanted;
    report := Report(
      terminal && respected && malformed == [] && duplicates == {} && omitted == {} && unexpected == {},
      duplicateFacilities == {} && missing == 0, pageCounts, |rows|, observed, facilities.Keys, missing,
      duplicates, duplicateFacilities, omitted, unexpected, malformed, terminal, respected);
    PassExact(pages, expected, maximum, objects, report);
    FacilityExact(rows, facilities, missing, duplicateFacilities);
    DifferencesFrom(report, rows, expected, objects);
  }

  lemma PassExact(pages: seq<Page>, expected: seq<string>, maximum: nat, objects: map<string, nat>, report: Report)
    requires Counts(objects, AllRows(pages)) && Positive(objects)
    requires report.malformed == MalformedIndexes(pages) && report.pageCounts == PageCounts(pages)
    requires report.duplicateObjectIds == set id | id in objects && objects[id] > 1
    requires report.omitted == Wanted(expected) - objects.Keys && report.unexpected == objects.Keys - Wanted(expected)
    requires report.terminal == (report.pageCounts != [] && report.pageCounts[|report.pageCounts| - 1] == 0)
    requires report.maximumRespected == forall k | 0 <= k < |report.pageCounts| :: report.pageCounts[k] <= maximum
    requires report.pass == (report.terminal && report.maximumRespected && report.malformed == []
      && report.duplicateObjectIds == {} && report.omitted == {} && report.unexpected == {})
    ensures report.pass <==> CompletePages(pages, expected, maximum)
  {
    WellFormedCounts(pages);
    if report.pass {
      forall id | id != ""
        ensures Occurrences(AllRows(pages), id) == if id in Wanted(expected) then 1 else 0
      {
        assert id in objects ==> id !in report.duplicateObjectIds && id !in report.unexpected;
        assert id in Wanted(expected) ==> id !in report.omitted;
      }
    }
    if CompletePages(pages, expected, maximum) {
      forall id ensures id !in report.duplicateObjectIds && id !in report.omitted && id !in report.unexpected {
        if id != "" {
          assert Occurrences(AllRows(pages), id) == if id in Wanted(expected) then 1 else 0;
        }
      }
    }
  }

  lemma FacilityExact(rows: seq<Row>, facilities: map<string, nat>, missing: nat, duplicates: set<string>)
    requires CountsFacilities(facilities, rows) && Positive(facilities) && missing == FacilityOccurrences(rows, "")
    requires duplicates == set id | id in facilities && facilities[id] > 1
    ensures duplicates == {} && missing == 0 <==> FacilitiesDistinct(rows)
  {
    if duplicates == {} && missing == 0 {
      forall id: string | id != "" ensures FacilityOccurrences(rows, id) <= 1 {
        assert id !in duplicates;
      }
    }
    if FacilitiesDistinct(rows) {
      forall id: string ensures id !in duplicates {
        if id != "" { assert FacilityOccurrences(rows, id) <= 1; }
      }
      assert duplicates == {};
    }
  }

  // ---- What completeness implies ----

  function Sum(counts: seq<nat>): nat {
    if counts == [] then 0 else Sum(counts[..|counts| - 1]) + counts[|counts| - 1]
  }

  lemma {:induction false} RecordsAreSum(pages: seq<Page>)
    ensures |AllRows(pages)| == Sum(PageCounts(pages))
  {
    if pages != [] {
      RecordsAreSum(pages[..|pages| - 1]);
      var counts := PageCounts(pages);
      if pages[|pages| - 1].Rows? {
        assert counts[..|counts| - 1] == PageCounts(pages[..|pages| - 1]);
      } else {
        assert counts == PageCounts(pages[..|pages| - 1]);
        assert AllRows(pages) == AllRows(pages[..|pages| - 1]);
      }
    }
  }

  lemma {:induction false} RecordsBounded(pages: seq<Page>, maximum: nat)
    requires forall i | 0 <= i < |pages| :: pages[i].Rows? && |pages[i].rows| <= maximum
    ensures |AllRows(pages)| <= |pages| * maximum
  {
    if pages != [] {
      RecordsBounded(pages[..|pages| - 1], maximum);
      assert |pages| * maximum == (|pages| - 1) * maximum + maximum;
    }
  }

  ghost function Without(rows: seq<Row>, id: string): seq<Row> {
    if rows == [] then []
    else Without(rows[..|rows| - 1], id) + if rows[|rows| - 1].objectId == id then [] else [rows[|rows| - 1]]
  }

  lemma {:induction false} WithoutCounts(rows: seq<Row>, id: string)
    ensures |rows| == |Without(rows, id)| + Occurrences(rows, id)
    ensures forall other: string ::
      Occurrences(Without(rows, id), other) == if other == id then 0 else Occurrences(rows, other)
  {
    if rows != [] {
      var front, last := rows[..|rows| - 1], rows[|rows| - 1];
      WithoutCounts(front, id);
      var w := Without(rows, id);
      if last.objectId != id { assert w[..|w| - 1] == Without(front, id); }
      else { assert w == Without(front, id); }
    }
  }

  /** Rows are the wanted ids, once each, and the rows without an object id. */
  lemma {:induction false} RowsPartition(rows: seq<Row>, wanted: set<string>)
    requires "" !in wanted
    requires forall id: string | id != "" :: Occurrences(rows, id) == if id in wanted then 1 else 0
    ensures |rows| == |wanted| + Occurrences(rows, "")
    decreases |wanted|
  {
    if wanted == {} {
      if rows != [] {
        WithoutCounts(rows, "");
        NothingLeft(Without(rows, ""));
      }
    } else {
      var id :| id in wanted;
      assert Occurrences(rows, id) == 1;
      WithoutCounts(rows, id);
      RowsPartition(Without(rows, id), wanted - {id});
    }
  }

  lemma NothingLeft(rows: seq<Row>)
    requires forall id: string :: Occurrences(rows, id) == 0
    ensures rows == []
  {
    if rows != [] {
      assert Occurrences(rows, rows[|rows| - 1].objectId) > 0;
    }
  }

  /** Complete pages hold one record per expected id plus the records without an id, at most
      `maximum` on each page but the last. */
  lemma CompleteCounts(pages: seq<Page>, expected: seq<string>, maximum: nat)
    requires CompletePages(pages, expected, maximum)
    ensures |AllRows(pages)| == Sum(PageCounts(pages))
    ensures |AllRows(pages)| == |Wanted(expected)| + Occurrences(AllRows(pages), "")
    ensures |Wanted(expected)| <= |AllRows(pages)| <= (|pages| - 1) * maximum
  {
    var front := pages[..|pages| - 1];
    RecordsAreSum(pages);
    RowsPartition(AllRows(pages), Wanted(expected));
    RecordsBounded(front, maximum);
    assert AllRows(pages) == AllRows(front) + [];
  }

  // ---- Loop and check together ----

  ghost predicate DistinctlyIdentified(rows: seq<Row>) {
    forall i, j | 0 <= i < j < |rows| :: rows[i].objectId != rows[j].objectId
  }

  function ObjectIds(rows: seq<Row>): seq<string> {
    seq(|rows|, i requires 0 <= i < |rows| => rows[i].objectId)
  }

  lemma {:induction false} DistinctOccurrences(rows: seq<Row>, id: string)
    requires DistinctlyIdentified(rows)
    ensures Occurrences(rows, id) == if id in ObjectIds(rows) then 1 else 0
  {
    if rows != [] {
      var front, last := rows[..|rows| - 1], rows[|rows| - 1];
      DistinctOccurrences(front, id);
      assert ObjectIds(rows) == ObjectIds(front) + [last.objectId];
      forall k | 0 <= k < |front| ensures ObjectIds(front)[k] != last.objectId {
        assert rows[k].objectId != rows[|rows| - 1].objectId;
      }
    }
  }

  /** Against a faithful service whose rows have distinct, nonblank ids, and whose id query
      lists exactly those ids in some order, the ArcGIS loop never trips its bound, returns
      every row in order, and its pages pass the completeness check. */
  lemma ArcgisCapturePasses(server: Server, rows: seq<Row>, ids: seq<string>, size: nat)
    requires size > 0 && Faithful(server, rows, size)
    requires DistinctlyIdentified(rows) && "" !in ids && multiset(ids) == multiset(ObjectIds(rows))
    ensures var r := Collect(server, Ceil(|ids|, size) + 2, 0, 0);
      && r.Captured? && AllRows(r.pages) == rows && |r.pages| == Ceil(|rows|, size) + 1
      && CompletePages(r.pages, ids, size)
  {
    assert |ids| == |multiset(ids)| == |multiset(ObjectIds(rows))| == |rows|;
    CaptureExact(server, rows, size, Ceil(|ids|, size) + 2);
    forall id | id != ""
      ensures Occurrences(rows, id) == if id in Wanted(ids) then 1 else 0
    {
      DistinctOccurrences(rows, id);
      assert id in multiset(ids) <==> id in multiset(ObjectIds(rows));
    }
  }
}
