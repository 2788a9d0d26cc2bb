/** The recommended placeholder of a detected path, what it is replaced with, and where in-place
    replacement of the scanner's own spans is safe. */
module PathReplacement {
  import opened Ordering
  import opened PortablePaths
  import opened Splice
  import opened Text

  // ---- String helpers ----

  predicate IsSeparator(c: char) { c == '\\' || c == '/' }

  /** `re.sub(r"[\\/]+", "/", s)`; `inRun` tells whether a separator was just written. */
  function Collapse(s: string, inRun: bool): string {
    if s == [] then []
    else if IsSeparator(s[0]) then (if inRun then [] else ['/']) + Collapse(s[1..], true)
    else [s[0]] + Collapse(s[1..], false)
  }

  /** `s.rstrip("/")` */
  function StripSlashes(s: string): string {
    if s != [] && s[|s| - 1] == '/' then StripSlashes(s[..|s| - 1]) else s
  }

  /** `s.rsplit("/", 1)[-1]` */
  function LastPart(s: string): string {
    if s == [] || s[|s| - 1] == '/' then [] else LastPart(s[..|s| - 1]) + [s[|s| - 1]]
  }

  /** `_path_basename` */
  function Basename(value: string): string {
    Strip(LastPart(StripSlashes(Collapse(value, false))))
  }

  /** `s.find(part)`, or -1. */
  function IndexOf(s: string, part: string): (i: int)
    ensures -1 <= i <= |s|
  {
    if part <= s then 0
    else if s == [] then -1
    else if IndexOf(s[1..], part) < 0 then -1 else IndexOf(s[1..], part) + 1
  }

  predicate Contains(s: string, part: string) { IndexOf(s, part) >= 0 }

  // ---- Recommendation and replacement ----

  const REPO_PATH := "<Repo Path>"
  const EVIDENCE_PATH := "<Evidence Path>"
  const OUTPUT_PATH := "<Output Path>"
  const LOCAL_PATH := "<local-project-path>"

  const OUTPUT_PARTS := ["/desktop", "/downloads", "/documents", "/temp", "/tmp", "/output"]
  const GENERIC_NAMES := {"desktop", "documents", "downloads", "home", "output", "temp", "tmp"}

  /** `_replacement_for_match`; `fold` is case folding. */
  function Recommend(fold: string -> string, value: string): string {
    var normalized := fold(Collapse(value, false));
    if Contains(normalized, "/repos/") || Contains(normalized, "/repositories/") then REPO_PATH
    else if Contains(normalized, "evidence") then EVIDENCE_PATH
    else if exists i | 0 <= i < |OUTPUT_PARTS| :: Contains(normalized, OUTPUT_PARTS[i]) then OUTPUT_PATH
    else LOCAL_PATH
  }

  /** The text from the first slash on. */
  function FromSlash(s: string): string {
    if s == [] || s[0] == '/' then s else FromSlash(s[1..])
  }

  const MARKER := "/repos/"

  /** The replacement text of `_replacement`. */
  function ReplacementText(fold: string -> string, value: string, recommendation: string): string {
    var normalized := Collapse(value, false);
    var marker := IndexOf(fold(normalized), MARKER);
    if recommendation == REPO_PATH && marker >= 0 then
      recommendation + FromSlash(From(normalized, marker + |MARKER|))
    else
      var basename := Basename(normalized);
      if fold(basename) in GENERIC_NAMES || basename == [] then recommendation
      else recommendation + "/" + basename
  }

  function PlaceholderReplacer(fold: string -> string): Replacer {
    (value, recommendation) => ReplacementText(fold, value, recommendation)
  }

  lemma ReplacementBegins(fold: string -> string, value: string, recommendation: string)
    ensures recommendation <= ReplacementText(fold, value, recommendation)
  {
  }

  lemma RecommendationBegins(fold: string -> string, value: string)
    ensures Recommend(fold, value) != [] && Recommend(fold, value)[0] == '<'
  {
  }

  // ---- The program's own spans ----

  /** A scanner that recommends as the source does, and whose matches never begin with `<`, as
      those of the source's patterns do not. */
  ghost predicate SourceScanner(scanner: Scanner, fold: string -> string, text: string) {
    && Matching(scanner, text)
    && (forall x :: scanner.recommend(x) == Recommend(fold, x))
    && forall pattern, m | m in scanner.matches(pattern, text) :: text[m.start] != '<'
  }

  /** A reported span begins where a match does, and is recommended a placeholder. */
  ghost predicate Reported(text: string, v: Violation) {
    v.start < v.end <= |text| && text[v.start] != '<' && v.recommended != [] && v.recommended[0] == '<'
  }

  lemma {:induction false} PatternMarks(
      scanner: Scanner, fold: string -> string, text: string, pattern: string, matches: seq<Match>)
    requires forall m | m in matches :: m.start < m.end <= |text| && text[m.start] != '<'
    requires forall x :: scanner.recommend(x) == Recommend(fold, x)
    ensures forall v | v in PatternViolations(scanner, text, pattern, matches) :: Reported(text, v)
  {
    if matches != [] {
      var front, m := matches[..|matches| - 1], matches[|matches| - 1];
      assert m in matches;
      PatternMarks(scanner, fold, text, pattern, front);
      RecommendationBegins(fold, text[m.start..PathEnd(text, m.start, m.end)]);
    }
  }

  lemma {:induction false} AllMark(scanner: Scanner, fold: string -> string, text: string, patterns: seq<string>)
    requires SourceScanner(scanner, fold, text)
    ensures forall v | v in AllViolations(scanner, text, patterns) :: Reported(text, v)
  {
    if patterns != [] {
      var front, last := patterns[..|patterns| - 1], patterns[|patterns| - 1];
      AllMark(scanner, fold, text, front);
      PatternMarks(scanner, fold, text, last, scanner.matches(last, text));
    }
  }

  lemma PlaceholderAlters(fold: string -> string, text: string, v: Violation)
    requires Reported(text, v)
    ensures Alters(PlaceholderReplacer(fold), text, v)
  {
    forall x ensures PlaceholderReplacer(fold)(x, v.recommended) != []
                     && PlaceholderReplacer(fold)(x, v.recommended)[0] != text[v.start] {
      ReplacementBegins(fold, x, v.recommended);
    }
  }

  /** The program's own replacements all see the original text of their spans exactly when the
      reported spans do not overlap. */
  lemma ScannedSpansExact(scanner: Scanner, fold: string -> string, text: string)
    requires SourceScanner(scanner, fold, text)
    ensures Within(text, Sort(FindViolations(scanner, text), StartGe))
    ensures ReadsOriginal(text, Sort(FindViolations(scanner, text), StartGe), PlaceholderReplacer(fold))
      <==> PairwiseApart(FindViolations(scanner, text))
  {
    var vs := FindViolations(scanner, text);
    AllMark(scanner, fold, text, PATTERNS);
    ViolationOrder();
    SortCorrect(AllViolations(scanner, text, PATTERNS), ViolationLe);
    forall v | v in vs ensures v.start < v.end <= |text| && Alters(PlaceholderReplacer(fold), text, v) {
      PlaceholderAlters(fold, text, v);
    }
    DisjointnessIsExact(text, vs, PlaceholderReplacer(fold));
  }
}
