/** Scanning text for named-user paths: where a match is, how far its path runs, and the
    sorted list of violations. */
module PortablePaths {
  import opened Ordering
  import opened Text

  // ---- Lines and columns ----

  /** `text.count("\n")` */
  function CountNewlines(s: string): nat {
    if s == [] then 0 else (if s[0] == '\n' then 1 else 0) + CountNewlines(s[1..])
  }

  /** `s.rfind("\n")` */
  function LastNewline(s: string): (p: int)
    ensures -1 <= p < |s|
    ensures p >= 0 ==> s[p] == '\n'
    ensures forall k | p < k < |s| :: s[k] != '\n'
  {
    if s == [] then -1
    else
      var rest := LastNewline(s[1..]);
      if rest >= 0 then rest + 1 else if s[0] == '\n' then 0 else -1
  }

  /** `_line_and_column` */
  function LineAndColumn(text: string, offset: nat): (int, int)
    requires offset <= |text|
  {
    (CountNewlines(text[..offset]) + 1, offset - LastNewline(text[..offset]))
  }

  /** Characters before line `k`, its line ends included. */
  function Start(lines: seq<string>, k: nat): nat
    requires k <= |lines|
  {
    if k == 0 then 0 else |lines[0]| + 1 + Start(lines[1..], k - 1)
  }

  ghost predicate IsPosition(text: string, line: int, column: int) {
    && 1 <= line <= |Lines(text)| && 1 <= column <= |Lines(text)[line - 1]| + 1
  }

  /** The offset of a position: the inverse of `LineAndColumn`. */
  ghost function OffsetOf(text: string, line: int, column: int): nat
    requires IsPosition(text, line, column)
  {
    Start(Lines(text), line - 1) + column - 1
  }

  lemma LocationStep(text: string, offset: nat)
    requires 0 < offset <= |text|
    ensures var (line, column) := LineAndColumn(text[1..], offset - 1);
      LineAndColumn(text, offset) ==
      if text[0] == '\n' then (line + 1, column)
      else (line, if line == 1 then column + 1 else column)
  {
    assert text[..offset][1..] == text[1..][..offset - 1];
    NewlineCountsMeet(text[1..][..offset - 1]);
  }

  lemma {:induction false} NewlineCountsMeet(s: string)
    ensures CountNewlines(s) == 0 <==> LastNewline(s) == -1
  {
    if s != [] { NewlineCountsMeet(s[1..]); }
  }

  /** Every offset has a position, and the position leads back to it. */
  lemma {:induction false} PositionOfOffset(text: string, offset: nat)
    requires offset <= |text|
    ensures var (line, column) := LineAndColumn(text, offset);
      IsPosition(text, line, column) && OffsetOf(text, line, column) == offset
  {
    if offset > 0 {
      PositionOfOffset(text[1..], offset - 1);
      LocationStep(text, offset);
      assert Lines(text)[1..] == if text[0] == '\n' then Lines(text[1..]) else Lines(text[1..])[1..];
    }
  }

  /** Every position has an offset, and the offset leads back to it. */
  lemma {:induction false} OffsetOfPosition(text: string, line: int, column: int)
    requires IsPosition(text, line, column)
    ensures OffsetOf(text, line, column) <= |text|
    ensures LineAndColumn(text, OffsetOf(text, line, column)) == (line, column)
  {
    if text != [] {
      var rest := Lines(text[1..]);
      assert Lines(text)[1..] == if text[0] == '\n' then rest else rest[1..];
      if text[0] == '\n' {
        if line > 1 {
          OffsetOfPosition(text[1..], line - 1, column);
          LocationStep(text, OffsetOf(text, line, column));
        }
      } else if line > 1 || column > 1 {
        var c := if line == 1 then column - 1 else column;
        OffsetOfPosition(text[1..], line, c);
        assert OffsetOf(text, line, column) == OffsetOf(text[1..], line, c) + 1;
        LocationStep(text, OffsetOf(text, line, column));
      }
    }
  }

  predicate Before(a: (int, int), b: (int, int)) { a.0 < b.0 || (a.0 == b.0 && a.1 < b.1) }

  lemma {:induction false} StartGrows(lines: seq<string>, j: nat, k: nat)
    requires j < k <= |lines|
    ensures Start(lines, j) + |lines[j]| + 1 <= Start(lines, k)
  {
    if j > 0 { StartGrows(lines[1..], j - 1, k - 1); }
    else if k > 1 { StartGrows(lines[1..], 0, k - 1); }
  }

  /** Positions are ordered as their offsets are. */
  lemma PositionsOrdered(text: string, a: nat, b: nat)
    requires a <= |text| && b <= |text|
    ensures a < b <==> Before(LineAndColumn(text, a), LineAndColumn(text, b))
  {
    PositionOfOffset(text, a);
    PositionOfOffset(text, b);
    var (l, _) := LineAndColumn(text, a);
    var (m, _) := LineAndColumn(text, b);
    if l < m { StartGrows(Lines(text), l - 1, m - 1); }
    if m < l { StartGrows(Lines(text), m - 1, l - 1); }
  }

  // ---- Where a path ends ----

  /** `text.find(c, from)`, or `|text|` when there is none. */
  function Find(text: string, c: char, from: nat): (p: nat)
    requires from <= |text|
    ensures from <= p <= |text|
    ensures forall k | from <= k < p :: text[k] != c
    ensures p < |text| ==> text[p] == c
    decreases |text| - from
  {
    if from == |text| || text[from] == c then from else Find(text, c, from + 1)
  }

  predicate IsQuote(c: char) { c == '`' || c == '"' || c == '\'' }

  predicate StopsPath(c: char) {
    IsSpace(c) || IsQuote(c) || c in "<>|,;)]}"
  }

  function SkipPath(text: string, from: nat): (p: nat)
    requires from <= |text|
    ensures from <= p <= |text|
    ensures forall k | from <= k < p :: !StopsPath(text[k])
    ensures p < |text| ==> StopsPath(text[p])
    decreases |text| - from
  {
    if from == |text| || StopsPath(text[from]) then from else SkipPath(text, from + 1)
  }

  predicate Blank(s: string) { forall c | c in s :: IsSpace(c) }

  function LineStart(text: string, start: nat): nat
    requires start <= |text|
  {
    LastNewline(text[..start]) + 1
  }

  /** `_path_end` */
  function PathEnd(text: string, start: nat, prefixEnd: nat): (end: nat)
    requires start < prefixEnd <= |text|
    ensures prefixEnd <= end <= |text|
  {
    if start > 0 && IsQuote(text[start - 1]) && Find(text, text[start - 1], prefixEnd) < |text|
    then Find(text, text[start - 1], prefixEnd)
    else
      var end := SkipPath(text, prefixEnd);
      if end < |text| && text[end] == ' ' && Blank(text[LineStart(text, start)..start])
      then Find(text, '\n', end) else end
  }

  method ScanPathEnd(text: string, start: nat, prefixEnd: nat) returns (end: nat)
    requires start < prefixEnd <= |text|
    ensures end == PathEnd(text, start, prefixEnd)
  {
    if start > 0 && IsQuote(text[start - 1]) {
      var closing := Find(text, text[start - 1], prefixEnd);
      if closing < |text| {
        return closing;
      }
    }
    end := prefixEnd;
    while end < |text| && !StopsPath(text[end])
      invariant prefixEnd <= end <= |text|
      invariant SkipPath(text, end) == SkipPath(text, prefixEnd)
    {
      end := end + 1;
    }
    if end < |text| && text[end] == ' ' && Blank(text[LineStart(text, start)..start]) {
      end := Find(text, '\n', end);
    }
  }

  /** The first `c` at or after `from`. */
  ghost predicate FirstChar(text: string, c: char, from: nat, end: nat) {
    from <= end < |text| && text[end] == c && forall k | from <= k < end :: text[k] != c
  }

  /** The first stop character at or after `from`, or the end of the text. */
  ghost predicate FirstStop(text: string, from: nat, end: nat) {
    && from <= end <= |text| && (end < |text| ==> StopsPath(text[end]))
    && forall k | from <= k < end :: !StopsPath(text[k])
  }

  /** The match follows a quotation mark that occurs again behind its prefix. */
  ghost predicate Quoted(text: string, start: nat, prefixEnd: nat)
    requires start < prefixEnd <= |text|
  {
    start > 0 && IsQuote(text[start - 1]) && text[start - 1] in text[prefixEnd..]
  }

  /** Nothing but white space between the last line end and the match. */
  ghost predicate BeginsLine(text: string, start: nat)
    requires start <= |text|
  {
    forall k | 0 <= k < start && '\n' !in text[k..start] :: IsSpace(text[k])
  }

  /** Where an unquoted path ends, given its first stop: a path that begins its line and is stopped
      by a space runs to the end of the line. */
  ghost predicate BareEnd(text: string, start: nat, stop: nat, end: nat)
    requires start <= |text|
  {
    if stop < |text| && text[stop] == ' ' && BeginsLine(text, start)
    then FirstChar(text, '\n', stop, end) || (end == |text| && '\n' !in text[stop..])
    else end == stop
  }

  lemma BlankBeginsLine(text: string, start: nat)
    requires start <= |text|
    ensures Blank(text[LineStart(text, start)..start]) <==> BeginsLine(text, start)
  {
    var l := LineStart(text, start);
    forall k | 0 <= k < start ensures '\n' !in text[k..start] <==> l <= k {
      if k < l {
        assert text[k..start][l - 1 - k] == '\n';
      } else {
        assert forall j | 0 <= j < start - k :: text[k..start][j] == text[..start][k + j];
      }
    }
    assert forall k | l <= k < start :: text[l..start][k - l] == text[k];
  }

  lemma FindFirst(text: string, c: char, from: nat)
    requires from <= |text|
    ensures Find(text, c, from) < |text| <==> c in text[from..]
    ensures Find(text, c, from) < |text| ==> FirstChar(text, c, from, Find(text, c, from))
  {
    var p := Find(text, c, from);
    if p < |text| {
      assert text[from..][p - from] == c;
    }
  }

  /** A quoted path runs to its closing quote; a bare one to the first stop character, or to
      the end of its line when it begins the line and a space stopped it. */
  lemma PathEndExact(text: string, start: nat, prefixEnd: nat)
    requires start < prefixEnd <= |text|
    ensures prefixEnd <= PathEnd(text, start, prefixEnd) <= |text|
    ensures Quoted(text, start, prefixEnd) ==>
      FirstChar(text, text[start - 1], prefixEnd, PathEnd(text, start, prefixEnd))
    ensures !Quoted(text, start, prefixEnd) ==>
      exists stop :: FirstStop(text, prefixEnd, stop) && BareEnd(text, start, stop, PathEnd(text, start, prefixEnd))
  {
    if start > 0 { FindFirst(text, text[start - 1], prefixEnd); }
    if !Quoted(text, start, prefixEnd) {
      var stop := SkipPath(text, prefixEnd);
      BlankBeginsLine(text, start);
      FindFirst(text, '\n', stop);
      assert FirstStop(text, prefixEnd, stop) && BareEnd(text, start, stop, PathEnd(text, start, prefixEnd));
    }
  }

  // ---- Violations ----

  datatype Match = Match(start: nat, end: nat)

  datatype Violation = Violation(
    pattern: string, line: int, column: int, start: nat, end: nat, recommended: string)

  const PATTERNS := ["windows_named_user_profile", "macos_named_user_home", "linux_named_user_home"]

  /** The regular expressions (their `finditer`), the exclusion of the container home, and the
      recommended placeholder. */
  datatype Scanner = Scanner(
    matches: (string, string) -> seq<Match>, excluded: (string, string) -> bool, recommend: string -> string)

  /** A match is a nonempty part of the text. */
  ghost predicate Matching(scanner: Scanner, text: string) {
    forall pattern, m | m in scanner.matches(pattern, text) :: m.start < m.end <= |text|
  }

  function ViolationAt(scanner: Scanner, text: string, pattern: string, m: Match): Violation
    requires m.start < m.end <= |text|
  {
    PathEndExact(text, m.start, m.end);
    var end := PathEnd(text, m.start, m.end);
    var (line, column) := LineAndColumn(text, m.start);
    Violation(pattern, line, column, m.start, end, scanner.recommend(text[m.start..end]))
  }

  function PatternViolations(scanner: Scanner, text: string, pattern: string, matches: seq<Match>): seq<Violation>
    requires forall m | m in matches :: m.start < m.end <= |text|
  {
    if matches == [] then []
    else
      var front, m := PatternViolations(scanner, text, pattern, matches[..|matches| - 1]), matches[|matches| - 1];
      PathEndExact(text, m.start, m.end);
      if scanner.excluded(pattern, text[m.start..PathEnd(text, m.start, m.end)]) then front
      else front + [ViolationAt(scanner, text, pattern, m)]
  }

  function AllViolations(scanner: Scanner, text: string, patterns: seq<string>): seq<Violation>
    requires Matching(scanner, text)
  {
    if patterns == [] then []
    else
      AllViolations(scanner, text, patterns[..|patterns| - 1])
      + PatternViolations(scanner, text, patterns[|patterns| - 1], scanner.matches(patterns[|patterns| - 1], text))
  }

  predicate ViolationLe(a: Violation, b: Violation) {
    a.start < b.start || (a.start == b.start && StringLe(a.pattern, b.pattern))
  }

  /** `find_portable_path_violations` */
  function FindViolations(scanner: Scanner, text: string): seq<Violation>
    requires Matching(scanner, text)
  {
    Sort(AllViolations(scanner, text, PATTERNS), ViolationLe)
  }

  method ScanViolations(scanner: Scanner, text: string) returns (violations: seq<Violation>)
    requires Matching(scanner, text)
    ensures violations == FindViolations(scanner, text)
  {
    var found: seq<Violation> := [];
    for i := 0 to |PATTERNS|
      invariant found == AllViolations(scanner, text, PATTERNS[..i])
    {
      assert PATTERNS[..i + 1][..i] == PATTERNS[..i];
      var more := ScanPattern(scanner, text, PATTERNS[i], scanner.matches(PATTERNS[i], text));
      found := found + more;
    }
    assert PATTERNS[..|PATTERNS|] == PATTERNS;
    violations := Sort(found, ViolationLe);
  }

  /** The loop over the matches of one pattern. */
  method ScanPattern(scanner: Scanner, text: string, pattern: string, matches: seq<Match>)
    returns (found: seq<Violation>)
    requires forall m | m in matches :: m.start < m.end <= |text|
    ensures found == PatternViolations(scanner, text, pattern, matches)
  {
    found := [];
    for j := 0 to |matches|
      invariant found == PatternViolations(scanner, text, pattern, matches[..j])
    {
      assert matches[..j + 1][..j] == matches[..j];
      assert matches[j] in matches;
      var end := ScanPathEnd(text, matches[j].start, matches[j].end);
      PathEndExact(text, matches[j].start, matches[j].end);
      if !scanner.excluded(pattern, text[matches[j].start..end]) {
        found := found + [ViolationAt(scanner, text, pattern, matches[j])];
      }
    }
    assert matches[..|matches|] == matches;
  }

  /** The span is a nonempty part of the text and carries its own position. */
  ghost predicate Locates(text: string, v: Violation) {
    v.start < v.end <= |text| && (v.line, v.column) == LineAndColumn(text, v.start)
  }

  lemma {:induction false} PatternLocated(scanner: Scanner, text: string, pattern: string, matches: seq<Match>)
    requires forall m | m in matches :: m.start < m.end <= |text|
    ensures forall v | v in PatternViolations(scanner, text, pattern, matches) :: Locates(text, v)
  {
    if matches != [] {
      var m := matches[|matches| - 1];
      PatternLocated(scanner, text, pattern, matches[..|matches| - 1]);
      PathEndExact(text, m.start, m.end);
      assert Locates(text, ViolationAt(scanner, text, pattern, m));
    }
  }

  lemma {:induction false} AllLocated(scanner: Scanner, text: string, patterns: seq<string>)
    requires Matching(scanner, text)
    ensures forall v | v in AllViolations(scanner, text, patterns) :: Locates(text, v)
  {
    if patterns != [] {
      AllLocated(scanner, text, patterns[..|patterns| - 1]);
      PatternLocated(scanner, text, patterns[|patterns| - 1], scanner.matches(patterns[|patterns| - 1], text));
    }
  }

  lemma ViolationOrder()
    ensures TotalOrder(ViolationLe)
  {
    StringOrder();
  }

  predicate PositionLe(a: Violation, b: Violation) {
    a.line < b.line || (a.line == b.line && a.column <= b.column)
  }

  /** Every reported span lies in the text, and the list is already in the order in which the
      inventory sorts the records of one item: by line, then column. */
  lemma ViolationsLocated(scanner: Scanner, text: string)
    requires Matching(scanner, text)
    ensures forall v | v in FindViolations(scanner, text) :: Locates(text, v)
    ensures SortedBy(FindViolations(scanner, text), ViolationLe)
    ensures Sort(FindViolations(scanner, text), PositionLe) == FindViolations(scanner, text)
  {
    var vs := FindViolations(scanner, text);
    ViolationOrder();
    AllLocated(scanner, text, PATTERNS);
    SortCorrect(AllViolations(scanner, text, PATTERNS), ViolationLe);
    forall i, j | 0 <= i < j < |vs| ensures PositionLe(vs[i], vs[j]) {
      assert vs[i] in vs && vs[j] in vs && ViolationLe(vs[i], vs[j]);
      PositionsOrdered(text, vs[i].start, vs[j].start);
    }
    SortFixesSorted(vs, PositionLe);
  }
}
