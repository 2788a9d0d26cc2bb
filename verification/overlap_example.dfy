/** One body whose quoted path list makes the scanner report overlapping spans, and what in-place
    replacement then does to it. */
module OverlapExample {
  import opened Options
  import opened Ordering
  import opened PathAudit
  import opened PathReplacement
  import opened PortablePaths
  import opened Splice
  import opened Text

  const LINUX := "linux_named_user_home"
  const INNER := "/home/b" + "/downloads"
  const OUTER := "/home/a " + INNER

  /** `'/home/a /home/b/downloads'/x` */
  const TEXT := "'" + OUTER + "'/x"

  /** What the patterns find in `TEXT`: the prefixes `/home/a` and `/home/b`. */
  function ExampleMatches(pattern: string, text: string): seq<Match> {
    if pattern == LINUX && text == TEXT then [Match(1, 8), Match(9, 16)] else []
  }

  function ExampleScanner(fold: string -> string): Scanner {
    Scanner(ExampleMatches, (_, _) => false, value => Recommend(fold, value))
  }

  /** Case folding leaves lower-case letters, slashes and spaces alone. */
  ghost predicate FoldsPlain(fold: string -> string) {
    forall s :: Plain(s) ==> fold(s) == s
  }

  predicate Plain(s: string) { forall c | c in s :: 'a' <= c <= 'z' || c == '/' || c == ' ' }

  // ---- Facts about the string helpers ----

  /** No backslash, and no two slashes in a row. */
  predicate Tidy(s: string) {
    forall i | 0 <= i < |s| :: s[i] != '\\' && (i > 0 && s[i] == '/' ==> s[i - 1] != '/')
  }

  lemma {:induction false} CollapseTidy(s: string, inRun: bool)
    requires Tidy(s) && (inRun && s != [] ==> s[0] != '/')
    ensures Collapse(s, inRun) == s
  {
    if s != [] {
      var t := s[1..];
      assert forall i | 0 <= i < |t| :: t[i] == s[i + 1];
      CollapseTidy(t, s[0] == '/');
      assert s == [s[0]] + t;
    }
  }

  lemma {:induction false} LastPartIs(front: string, part: string)
    requires '/' !in part
    ensures LastPart(front + ['/'] + part) == part
  {
    var s := front + ['/'] + part;
    if part != [] {
      LastPartIs(front, part[..|part| - 1]);
      assert s[..|s| - 1] == front + ['/'] + part[..|part| - 1];
      assert part == part[..|part| - 1] + [part[|part| - 1]];
    }
  }

  lemma BasenameIs(front: string, part: string)
    requires Tidy(front + ['/'] + part) && '/' !in part && part != []
    requires !IsSpace(part[0]) && !IsSpace(part[|part| - 1])
    ensures Basename(front + ['/'] + part) == part
  {
    var s := front + ['/'] + part;
    CollapseTidy(s, false);
    assert s[|s| - 1] == part[|part| - 1] && part[|part| - 1] in part;
    LastPartIs(front, part);
  }

  lemma {:induction false} LacksPart(s: string, part: string, c: char)
    requires c in part && c !in s
    ensures !Contains(s, part)
  {
    if s != [] {
      LacksPart(s[1..], part, c);
    }
    var i :| 0 <= i < |part| && part[i] == c;
    if |part| <= |s| {
      assert s[i] in s;
      assert s[i] != part[i];
    }
  }

  lemma {:induction false} HasPart(front: string, part: string, back: string)
    ensures Contains(front + part + back, part)
  {
    var s := front + part + back;
    if front == [] {
      assert s == part + back;
    } else {
      HasPart(front[1..], part, back);
      assert s[1..] == front[1..] + part + back;
    }
  }

  // ---- The two spans ----

  lemma RecommendOutput(fold: string -> string, value: string, front: string)
    requires FoldsPlain(fold) && Plain(value) && Tidy(value) && 'r' !in value && 'v' !in value
    requires value == front + "/downloads"
    ensures Recommend(fold, value) == OUTPUT_PATH
  {
    CollapseTidy(value, false);
    assert "/repos/"[1] == 'r' && "/repositories/"[1] == 'r' && "evidence"[1] == 'v';
    LacksPart(value, "/repos/", 'r');
    LacksPart(value, "/repositories/", 'r');
    LacksPart(value, "evidence", 'v');
    HasPart(front, "/downloads", []);
    assert front + "/downloads" + [] == value;
    assert Contains(value, OUTPUT_PARTS[1]);
  }

  lemma Lengths()
    ensures |INNER| == 17 && |OUTER| == 25 && |TEXT| == 29
  {
  }

  lemma TextParts()
    ensures |TEXT| == 29 && TEXT[1..26] == OUTER && TEXT[9..26] == INNER && TEXT[26..] == "'/x"
    ensures TEXT[0] == '\'' && TEXT[8] == ' ' && TEXT[26] == '\''
  {
    Lengths();
    assert TEXT == ("'" + "/home/a ") + INNER + "'/x";
  }

  lemma PathCharsGoOn(c: char)
    requires 'a' <= c <= 'z' || c == '/'
    ensures !StopsPath(c)
  {
  }

  lemma TextChars()
    ensures |TEXT| == 29
    ensures forall k | 1 <= k < 26 :: TEXT[k] != '\''
    ensures forall k | 9 <= k < 26 :: !StopsPath(TEXT[k])
  {
    TextParts();
    InnerPlain();
    OuterPlain();
    Lengths();
    forall k | 1 <= k < 26 ensures TEXT[k] != '\'' {
      assert TEXT[k] == TEXT[1..26][k - 1] == OUTER[k - 1] && OUTER[k - 1] in OUTER;
    }
    forall k | 9 <= k < 26 ensures !StopsPath(TEXT[k]) {
      assert TEXT[k] == TEXT[9..26][k - 9] == INNER[k - 9] && INNER[k - 9] in INNER;
      PathCharsGoOn(TEXT[k]);
    }
  }

  lemma OuterEnd()
    ensures Quoted(TEXT, 1, 8) && PathEnd(TEXT, 1, 8) == 26
  {
    TextParts();
    TextChars();
    assert TEXT[8..][18] == '\'';
    PathEndExact(TEXT, 1, 8);
  }

  lemma InnerEnd()
    ensures PathEnd(TEXT, 9, 16) == 26
  {
    TextParts();
    TextChars();
    PathEndExact(TEXT, 9, 16);
    var stop :| FirstStop(TEXT, 16, stop) && BareEnd(TEXT, 9, stop, PathEnd(TEXT, 9, 16));
    assert stop == 26;
  }

  lemma InnerPlain()
    ensures Plain(INNER) && Tidy(INNER) && 'r' !in INNER && 'v' !in INNER && ' ' !in INNER
  {
    Lengths();
  }

  lemma OuterPlain()
    ensures Plain(OUTER) && Tidy(OUTER) && 'r' !in OUTER && 'v' !in OUTER
  {
    Lengths();
    InnerPlain();
  }

  /** The two reported spans. */
  function OuterSpan(): Violation {
    var (line, column) := LineAndColumn(TEXT, 1);
    Violation(LINUX, line, column, 1, 26, OUTPUT_PATH)
  }

  function InnerSpan(): Violation {
    var (line, column) := LineAndColumn(TEXT, 9);
    Violation(LINUX, line, column, 9, 26, OUTPUT_PATH)
  }

  lemma SpansReported(fold: string -> string)
    requires FoldsPlain(fold)
    ensures ViolationAt(ExampleScanner(fold), TEXT, LINUX, Match(1, 8)) == OuterSpan()
    ensures ViolationAt(ExampleScanner(fold), TEXT, LINUX, Match(9, 16)) == InnerSpan()
  {
    TextParts();
    OuterEnd();
    InnerEnd();
    InnerPlain();
    OuterPlain();
    assert OUTER == ("/home/a " + "/home/b") + "/downloads";
    RecommendOutput(fold, OUTER, "/home/a " + "/home/b");
    RecommendOutput(fold, INNER, "/home/b");
  }

  // ---- What the scanner reports ----

  lemma ExampleMatching(fold: string -> string)
    ensures Matching(ExampleScanner(fold), TEXT)
    ensures ExampleMatches("windows_named_user_profile", TEXT) == []
    ensures ExampleMatches("macos_named_user_home", TEXT) == []
    ensures ExampleMatches(LINUX, TEXT) == [Match(1, 8), Match(9, 16)]
  {
    Lengths();
    assert "windows_named_user_profile"[0] == 'w' && "macos_named_user_home"[0] == 'm' && LINUX[0] == 'l';
  }

  lemma LinuxReported(fold: string -> string)
    requires FoldsPlain(fold)
    ensures Matching(ExampleScanner(fold), TEXT)
    ensures PatternViolations(ExampleScanner(fold), TEXT, LINUX, [Match(1, 8), Match(9, 16)])
         == [OuterSpan(), InnerSpan()]
  {
    var scanner, both := ExampleScanner(fold), [Match(1, 8), Match(9, 16)];
    Lengths();
    ExampleMatching(fold);
    SpansReported(fold);
    assert both[..1] == [Match(1, 8)] && both[..1][..0] == [];
    assert PatternViolations(scanner, TEXT, LINUX, both[..1]) == [OuterSpan()];
  }

  lemma {:induction false} NothingMatched(scanner: Scanner, text: string, patterns: seq<string>)
    requires Matching(scanner, text) && forall p | p in patterns :: scanner.matches(p, text) == []
    ensures AllViolations(scanner, text, patterns) == []
  {
    if patterns != [] {
      assert patterns[|patterns| - 1] in patterns;
      NothingMatched(scanner, text, patterns[..|patterns| - 1]);
    }
  }

  lemma AllFound(fold: string -> string)
    requires FoldsPlain(fold)
    ensures Matching(ExampleScanner(fold), TEXT)
    ensures AllViolations(ExampleScanner(fold), TEXT, PATTERNS) == [OuterSpan(), InnerSpan()]
  {
    ExampleMatching(fold);
    LinuxReported(fold);
    assert PATTERNS[..2] == ["windows_named_user_profile", "macos_named_user_home"];
    NothingMatched(ExampleScanner(fold), TEXT, PATTERNS[..2]);
  }

  lemma SpansFound(fold: string -> string)
    requires FoldsPlain(fold)
    ensures Matching(ExampleScanner(fold), TEXT)
    ensures FindViolations(ExampleScanner(fold), TEXT) == [OuterSpan(), InnerSpan()]
  {
    AllFound(fold);
    SortFixesSorted([OuterSpan(), InnerSpan()], ViolationLe);
  }

  // ---- What in-place replacement does ----

  /** `'<Output Path>/x` */
  const DAMAGED := "'" + OUTPUT_PATH + "/x"

  lemma InnerReplaced(fold: string -> string)
    requires FoldsPlain(fold)
    ensures ReplacementText(fold, INNER, OUTPUT_PATH) == OUTPUT_PATH
  {
    InnerPlain();
    CollapseTidy(INNER, false);
    var front, part := "/home/b", "downloads";
    assert INNER == front + ['/'] + part;
    BasenameIs(front, part);
    assert fold(part) == part;
    assert OUTPUT_PATH[1] != REPO_PATH[1];
  }

  /** What the outer replacement reads once the inner one is done. */
  const SPOILED := "/home/a " + OUTPUT_PATH + "'/x"

  lemma SpoiledTidy()
    ensures Tidy(SPOILED) && SPOILED == ("/home/a " + OUTPUT_PATH + "'") + ['/'] + "x"
  {
    assert |SPOILED| == 24;
  }

  lemma OuterReplaced(fold: string -> string)
    requires FoldsPlain(fold)
    ensures ReplacementText(fold, SPOILED, OUTPUT_PATH) == OUTPUT_PATH + "/x"
  {
    var front, part := "/home/a " + OUTPUT_PATH + "'", "x";
    SpoiledTidy();
    CollapseTidy(SPOILED, false);
    BasenameIs(front, part);
    assert fold(part) == part;
    assert OUTPUT_PATH[1] != REPO_PATH[1];
  }

  lemma FirstStep(fold: string -> string)
    requires FoldsPlain(fold)
    ensures ReplaceSpan(TEXT, InnerSpan(), PlaceholderReplacer(fold)) == "'" + SPOILED
  {
    TextParts();
    InnerReplaced(fold);
    assert TEXT[..9] == "'" + "/home/a ";
  }

  lemma SecondStep(fold: string -> string)
    requires FoldsPlain(fold)
    ensures ReplaceSpan("'" + SPOILED, OuterSpan(), PlaceholderReplacer(fold)) == DAMAGED
  {
    OuterReplaced(fold);
    var c := "'" + SPOILED;
    assert |c| == 25;
    assert Slice(c, 1, 26) == SPOILED && Slice(c, 0, 1) == "'" && From(c, 26) == [];
  }

  lemma Descending<T>(a: T, b: T, le: (T, T) -> bool)
    requires !le(a, b)
    ensures Sort([a, b], le) == [b, a]
  {
    assert [a, b][1..] == [b] && [b][1..] == [];
    assert Sort([b], le) == [b];
    assert [b][1..] == [];
    assert Insert(a, [], le) == [a];
  }

  lemma BothReplaced(fold: string -> string)
    requires FoldsPlain(fold)
    ensures ReplaceEach(TEXT, [InnerSpan(), OuterSpan()], PlaceholderReplacer(fold)) == DAMAGED
  {
    var down, replacer := [InnerSpan(), OuterSpan()], PlaceholderReplacer(fold);
    FirstStep(fold);
    SecondStep(fold);
    assert down[..1] == [InnerSpan()] && down[..1][..0] == [];
    assert ReplaceEach(TEXT, down[..1], replacer) == "'" + SPOILED;
  }

  lemma DamagedClean(fold: string -> string)
    ensures Matching(ExampleScanner(fold), DAMAGED)
    ensures FindViolations(ExampleScanner(fold), DAMAGED) == []
  {
    Lengths();
    assert |DAMAGED| == 16;
    NothingMatched(ExampleScanner(fold), DAMAGED, PATTERNS);
  }

  lemma TailKept(ws: seq<Violation>, replacer: Replacer)
    requires InOrder(TEXT, ws, 0) && forall w | w in ws :: w.end <= 26
    ensures Substitute(TEXT, ws, 0, replacer) != DAMAGED
  {
    TextParts();
    SubstituteKeepsTail(TEXT, ws, 0, 26, replacer);
    assert |DAMAGED| == 16 && DAMAGED[13] == '>';
    assert TEXT[26..][0] == '\'';
  }

  /** No substitution of some of the spans, each from its original text, gives the damaged body. */
  ghost predicate NoSubstitutionGives(result: string, vs: seq<Violation>, replacer: Replacer) {
    forall ws | (forall w | w in ws :: w in vs) && InOrder(TEXT, ws, 0) :: Substitute(TEXT, ws, 0, replacer) != result
  }

  lemma DamageIsNew(replacer: Replacer)
    ensures NoSubstitutionGives(DAMAGED, [OuterSpan(), InnerSpan()], replacer)
  {
    forall ws | (forall w | w in ws :: w in [OuterSpan(), InnerSpan()]) && InOrder(TEXT, ws, 0)
      ensures Substitute(TEXT, ws, 0, replacer) != DAMAGED
    {
      TailKept(ws, replacer);
    }
  }

  /** The scanner reports overlapping spans; replacing them in place swallows the closing quotation
      mark, which lies outside both; no simultaneous substitution of reported spans gives that
      result; and the scanner finds nothing in it. */
  lemma OverlapDamages(fold: string -> string, scanner: Scanner, vs: seq<Violation>)
    requires FoldsPlain(fold) && scanner == ExampleScanner(fold)
    requires Matching(scanner, TEXT) && vs == FindViolations(scanner, TEXT)
    ensures !PairwiseApart(vs)
    ensures ReplaceEach(TEXT, Sort(vs, StartGe), PlaceholderReplacer(fold)) == DAMAGED
    ensures NoSubstitutionGives(DAMAGED, vs, PlaceholderReplacer(fold))
    ensures Matching(scanner, DAMAGED) && FindViolations(scanner, DAMAGED) == []
  {
    SpansFound(fold);
    assert !Apart(vs[0], vs[1]);
    Descending(OuterSpan(), InnerSpan(), StartGe);
    BothReplaced(fold);
    DamageIsNew(PlaceholderReplacer(fold));
    DamagedClean(fold);
  }

  // ---- The audit of the example ----

  /** An apply run with the program's replacer over items of the viewer. */
  function ExampleSettings(fold: string -> string, sha: string -> string, viewer: string): Settings {
    Settings(ExampleScanner(fold), PlaceholderReplacer(fold), sha, fold, viewer, true)
  }

  lemma ExampleScannable(fold: string -> string, sha: string -> string, viewer: string)
    ensures Scannable(ExampleSettings(fold, sha, viewer))
  {
    Lengths();
  }

  /** A remote that shows the item unchanged, accepts the write and shows what was written. */
  predicate Cooperates(github: GitHub, item: Item, at: Option<string>) {
    && github.get(0, item.endpoint).Got? && github.get(0, item.endpoint).body == Some(TEXT)
    && github.accepts(0)
    && github.get(1, item.endpoint) == Got(Some(DAMAGED), at)
  }

  lemma ExampleCandidate(fold: string -> string, settings: Settings, item: Item)
    requires FoldsPlain(fold) && settings.scanner == ExampleScanner(fold)
    requires settings.replacer == PlaceholderReplacer(fold) && item.body == TEXT
    ensures Matching(settings.scanner, TEXT) && FindViolations(settings.scanner, TEXT) == [OuterSpan(), InnerSpan()]
    ensures Candidate(settings, item, [OuterSpan(), InnerSpan()]) == DAMAGED
    ensures Matching(settings.scanner, DAMAGED) && FindViolations(settings.scanner, DAMAGED) == []
  {
    SpansFound(fold);
    OverlapDamages(fold, settings.scanner, [OuterSpan(), InnerSpan()]);
  }

  /** The audit writes the damaged body, finds it verified, and reports nothing remaining. */
  ghost predicate DamageWritten(item: Item, step: Step) {
    && step.Next? && step.p.sent == [Sent(item.endpoint, DAMAGED, 1)]
    && step.p.remaining == 0 && |step.p.records| == 2
    && forall r | r in step.p.records :: r.item == item && r.verification == VerifiedAbsent
  }

  lemma AuditWritesDamage(
      fold: string -> string, sha: string -> string, github: GitHub, item: Item, at: Option<string>)
    requires FoldsPlain(fold) && item.body == TEXT && Cooperates(github, item, at)
    ensures Scannable(ExampleSettings(fold, sha, item.author))
    ensures DamageWritten(item, AuditItems(ExampleSettings(fold, sha, item.author), github, [item]))
  {
    ExampleScannable(fold, sha, item.author);
    var settings := ExampleSettings(fold, sha, item.author);
    assert [item][..0] == [];
    ItemDamaged(fold, settings, github, item, at, AuditItem(settings, github, item, NO_PROGRESS));
  }

  lemma ItemDamaged(
      fold: string -> string, settings: Settings, github: GitHub, item: Item, at: Option<string>, step: Step)
    requires FoldsPlain(fold) && item.body == TEXT && Cooperates(github, item, at)
    requires settings == ExampleSettings(fold, settings.sha, item.author) && Scannable(settings)
    requires step == AuditItem(settings, github, item, NO_PROGRESS)
    ensures DamageWritten(item, step)
  {
    var vs := [OuterSpan(), InnerSpan()];
    ExampleCandidate(fold, settings, item);
    assert step == Correct(settings, github, item, vs, NO_PROGRESS);
    CorrectWrites(settings, github, item, at, vs, step);
  }

  lemma CorrectWrites(
      settings: Settings, github: GitHub, item: Item, at: Option<string>, vs: seq<Violation>, step: Step)
    requires Scannable(settings) && item.body == TEXT && Cooperates(github, item, at) && |vs| == 2
    requires Candidate(settings, item, vs) == DAMAGED && FindViolations(settings.scanner, DAMAGED) == []
    requires step == Correct(settings, github, item, vs, NO_PROGRESS)
    ensures DamageWritten(item, step)
  {
    var written := Write(settings, github, item, vs, DAMAGED, Progress([], 0, [item.endpoint], []));
    assert step == written;
    WriteDamages(settings, github, item, at, vs, written);
  }

  lemma WriteDamages(
      settings: Settings, github: GitHub, item: Item, at: Option<string>, vs: seq<Violation>, step: Step)
    requires Scannable(settings) && Cooperates(github, item, at) && |vs| == 2
    requires FindViolations(settings.scanner, DAMAGED) == []
    requires step == Write(settings, github, item, vs, DAMAGED, Progress([], 0, [item.endpoint], []))
    ensures DamageWritten(item, step)
  {
  }
}
