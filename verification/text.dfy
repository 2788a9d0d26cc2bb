/** Line-ending normalization of pull-request bodies and the canonical
    changed-file scope. */
module Text {
  import opened Ordering

  /** Python's `s.replace(find, put)`: left to right, non-overlapping. */
  function Replace(s: string, find: string, put: string): string
    requires find != []
  {
    if |s| < |find| then s
    else if s[..|find|] == find then put + Replace(s[|find|..], find, put)
    else [s[0]] + Replace(s[1..], find, put)
  }

  /** CRLF first, then every CR that is left. */
  function NormalizeBody(body: string): string {
    Replace(Replace(body, "\r\n", "\n"), "\r", "\n")
  }

  /** Reference reading of the same thing: one pass, one line end per CRLF, CR or LF. */
  function OnePass(s: string): string {
    if s == [] then []
    else if s[0] != '\r' then [s[0]] + OnePass(s[1..])
    else if |s| > 1 && s[1] == '\n' then ['\n'] + OnePass(s[2..])
    else ['\n'] + OnePass(s[1..])
  }

  lemma {:induction false} NormalizeIsOnePass(s: string)
    ensures NormalizeBody(s) == OnePass(s)
  {
    if |s| >= 2 && s[0] == '\r' && s[1] == '\n' {
      NormalizeIsOnePass(s[2..]);
      assert s[..2] == "\r\n";
      var rest := Replace(s[2..], "\r\n", "\n");
      assert Replace(s, "\r\n", "\n") == "\n" + rest;
      assert ("\n" + rest)[1..] == rest && ("\n" + rest)[..1] == "\n";
    } else if |s| >= 2 {
      NormalizeIsOnePass(s[1..]);
      assert s[..2] == [s[0], s[1]];
      var rest := Replace(s[1..], "\r\n", "\n");
      assert Replace(s, "\r\n", "\n") == [s[0]] + rest;
      assert ([s[0]] + rest)[1..] == rest && ([s[0]] + rest)[..1] == [s[0]];
    } else if |s| == 1 {
      assert s[..1] == [s[0]] == s;
      assert Replace(s[1..], "\r", "\n") == [];
      assert Replace(s, "\r\n", "\n") == s;
      assert OnePass(s[1..]) == [];
    }
  }

  predicate Lacks(s: string, c: char) { c !in s }

  lemma {:induction false} OnePassHasNoCR(s: string)
    ensures Lacks(OnePass(s), '\r')
  {
    if s != [] {
      OnePassHasNoCR(s[1..]);
      if |s| > 1 { OnePassHasNoCR(s[2..]); }
    }
  }

  lemma {:induction false} OnePassFixes(s: string)
    requires Lacks(s, '\r')
    ensures OnePass(s) == s
  {
    if s != [] {
      OnePassFixes(s[1..]);
      assert s == [s[0]] + s[1..];
    }
  }

  /** The characters that are not line ends, in order. */
  function Substance(s: string): string {
    if s == [] then []
    else if s[0] == '\r' || s[0] == '\n' then Substance(s[1..])
    else [s[0]] + Substance(s[1..])
  }

  lemma {:induction false} OnePassKeepsSubstance(s: string)
    ensures Substance(OnePass(s)) == Substance(s)
  {
    if s != [] {
      OnePassKeepsSubstance(s[1..]);
      if s[0] == '\r' && |s| > 1 && s[1] == '\n' {
        OnePassKeepsSubstance(s[2..]);
        assert Substance(s) == Substance(s[1..]);
        assert s[1..][1..] == s[2..];
        assert (['\n'] + OnePass(s[2..]))[1..] == OnePass(s[2..]);
      } else {
        var c := if s[0] == '\r' then '\n' else s[0];
        assert ([c] + OnePass(s[1..]))[1..] == OnePass(s[1..]);
      }
    }
  }

  /** Normalization leaves no CR, is idempotent, fixes exactly the CR-free bodies,
      and keeps every other character in order. */
  lemma NormalizationContract(s: string)
    ensures Lacks(NormalizeBody(s), '\r')
    ensures NormalizeBody(NormalizeBody(s)) == NormalizeBody(s)
    ensures NormalizeBody(s) == s <==> Lacks(s, '\r')
    ensures Substance(NormalizeBody(s)) == Substance(s)
  {
    NormalizeIsOnePass(s);
    OnePassHasNoCR(s);
    NormalizeIsOnePass(OnePass(s));
    OnePassFixes(OnePass(s));
    OnePassKeepsSubstance(s);
    if Lacks(s, '\r') { OnePassFixes(s); }
  }

  /** The lines of `s`, ending a line at each CRLF, lone CR or LF. */
  function UniversalLines(s: string): (lines: seq<string>)
    ensures lines != []
    ensures forall l | l in lines :: Lacks(l, '\n')
  {
    if s == [] then [[]]
    else if s[0] == '\r' && |s| > 1 && s[1] == '\n' then [[]] + UniversalLines(s[2..])
    else if s[0] == '\r' || s[0] == '\n' then [[]] + UniversalLines(s[1..])
    else
      var rest := UniversalLines(s[1..]);
      assert rest[0] in rest && Lacks([s[0]] + rest[0], '\n');
      [[s[0]] + rest[0]] + rest[1..]
  }

  /** `"\n".join(lines)` */
  function JoinLines(lines: seq<string>): string {
    if lines == [] then []
    else if |lines| == 1 then lines[0]
    else lines[0] + ['\n'] + JoinLines(lines[1..])
  }

  lemma JoinEmptyLineFirst(lines: seq<string>)
    requires lines != []
    ensures JoinLines([[]] + lines) == ['\n'] + JoinLines(lines)
  {
    assert ([[]] + lines)[1..] == lines;
  }

  lemma JoinLongerFirstLine(c: char, lines: seq<string>)
    requires lines != []
    ensures JoinLines([[c] + lines[0]] + lines[1..]) == [c] + JoinLines(lines)
  {
    var longer := [[c] + lines[0]] + lines[1..];
    assert longer[1..] == lines[1..];
  }

  lemma {:induction false} OnePassJoinsLines(s: string)
    ensures OnePass(s) == JoinLines(UniversalLines(s))
  {
    if s != [] {
      if s[0] == '\r' && |s| > 1 && s[1] == '\n' {
        OnePassJoinsLines(s[2..]);
        JoinEmptyLineFirst(UniversalLines(s[2..]));
      } else {
        OnePassJoinsLines(s[1..]);
        if s[0] == '\r' || s[0] == '\n' {
          JoinEmptyLineFirst(UniversalLines(s[1..]));
        } else {
          JoinLongerFirstLine(s[0], UniversalLines(s[1..]));
        }
      }
    }
  }

  lemma {:induction false} JoinSeparates(a: string, ra: string, b: string, rb: string)
    requires Lacks(a, '\n') && Lacks(b, '\n')
    requires a + ['\n'] + ra == b + ['\n'] + rb
    ensures a == b && ra == rb
  {
    var whole := a + ['\n'] + ra;
    assert whole[|a|] == '\n' && whole[|b|] == '\n';
    assert forall k | 0 <= k < |a| :: whole[k] == a[k] && whole[k] in a;
    assert forall k | 0 <= k < |b| :: whole[k] == b[k] && whole[k] in b;
    assert |a| == |b|;
    assert a == whole[..|a|] == b;
    assert ra == whole[|a| + 1..] == rb;
  }

  lemma JoinShowsSeparator(lines: seq<string>)
    requires lines != []
    ensures |lines| > 1 ==> !Lacks(JoinLines(lines), '\n')
  {
    if |lines| > 1 {
      assert JoinLines(lines)[|lines[0]|] == '\n';
    }
  }

  /** Joining is injective on equally nonempty lists of LF-free lines. */
  lemma {:induction false} JoinInjective(a: seq<string>, b: seq<string>)
    requires a != [] && b != []
    requires forall l | l in a :: Lacks(l, '\n')
    requires forall l | l in b :: Lacks(l, '\n')
    requires JoinLines(a) == JoinLines(b)
    ensures a == b
  {
    JoinShowsSeparator(a);
    JoinShowsSeparator(b);
    assert a[0] in a && b[0] in b;
    if |a| == 1 {
      assert b == [b[0]];
    } else {
      JoinSeparates(a[0], JoinLines(a[1..]), b[0], JoinLines(b[1..]));
      JoinInjective(a[1..], b[1..]);
      assert a == [a[0]] + a[1..] && b == [b[0]] + b[1..];
    }
  }

  /** Two bodies normalize alike exactly when they have the same lines, whatever line
      endings either of them uses. */
  lemma NormalizeEqualIffSameLines(a: string, b: string)
    ensures NormalizeBody(a) == NormalizeBody(b) <==> UniversalLines(a) == UniversalLines(b)
  {
    NormalizeIsOnePass(a);
    NormalizeIsOnePass(b);
    OnePassJoinsLines(a);
    OnePassJoinsLines(b);
    if NormalizeBody(a) == NormalizeBody(b) {
      JoinInjective(UniversalLines(a), UniversalLines(b));
    }
  }

  /** Normalization distributes over a seam that does not split a CRLF. */
  lemma {:induction false} NormalizeConcat(a: string, b: string)
    requires a == [] || b == [] || a[|a| - 1] != '\r' || b[0] != '\n'
    ensures NormalizeBody(a + b) == NormalizeBody(a) + NormalizeBody(b)
  {
    NormalizeIsOnePass(a + b);
    NormalizeIsOnePass(a);
    NormalizeIsOnePass(b);
    OnePassConcat(a, b);
  }

  lemma {:induction false} OnePassConcat(a: string, b: string)
    requires a == [] || b == [] || a[|a| - 1] != '\r' || b[0] != '\n'
    ensures OnePass(a + b) == OnePass(a) + OnePass(b)
  {
    if a == [] {
      assert a + b == b;
    } else if a[0] == '\r' && |a| > 1 && a[1] == '\n' {
      assert (a + b)[2..] == a[2..] + b;
      OnePassConcat(a[2..], b);
    } else {
      assert (a + b)[1..] == a[1..] + b;
      OnePassConcat(a[1..], b);
    }
  }

  // ---- Changed-file scope ----

  /** Python's `str.isspace` on one character. */
  predicate IsSpace(c: char) {
    var n := c as int;
    || 9 <= n <= 13 || 28 <= n <= 32 || n == 0x85 || n == 0xA0 || n == 0x1680
    || 0x2000 <= n <= 0x200A || n == 0x2028 || n == 0x2029 || n == 0x202F
    || n == 0x205F || n == 0x3000
  }

  function Strip(s: string): string {
    if s == [] then []
    else if IsSpace(s[0]) then Strip(s[1..])
    else if IsSpace(s[|s| - 1]) then Strip(s[..|s| - 1])
    else s
  }

  function NormalizePath(path: string): string {
    Replace(Strip(path), "\\", "/")
  }

  /** The insertion-ordered key list of the dict the source fills. */
  function NormalizeChangedFiles(files: seq<string>): seq<string> {
    if files == [] then []
    else
      var front := NormalizeChangedFiles(files[..|files| - 1]);
      var path := NormalizePath(files[|files| - 1]);
      if path == [] || path in front then front else front + [path]
  }

  method CollectChangedFiles(files: seq<string>) returns (normalized: seq<string>)
    ensures normalized == NormalizeChangedFiles(files)
  {
    normalized := [];
    for i := 0 to |files|
      invariant normalized == NormalizeChangedFiles(files[..i])
    {
      var path := NormalizePath(files[i]);
      assert files[..i + 1][..i] == files[..i];
      if path != [] && path !in normalized {
        normalized := normalized + [path];
      }
    }
    assert files[..|files|] == files;
  }

  lemma {:induction false} StripEnds(s: string)
    ensures Strip(s) != [] ==> !IsSpace(Strip(s)[0]) && !IsSpace(Strip(s)[|Strip(s)| - 1])
    ensures forall c | c in Strip(s) :: c in s
  {
    if s != [] {
      if IsSpace(s[0]) { StripEnds(s[1..]); }
      else if IsSpace(s[|s| - 1]) { StripEnds(s[..|s| - 1]); }
    }
  }

  lemma {:induction false} ReplaceOneByOne(s: string, from: char, to: char)
    ensures |Replace(s, [from], [to])| == |s|
    ensures forall i | 0 <= i < |s| ::
      Replace(s, [from], [to])[i] == if s[i] == from then to else s[i]
  {
    if s != [] {
      ReplaceOneByOne(s[1..], from, to);
      assert s[..1] == [s[0]];
      var rest := Replace(s[1..], [from], [to]);
      assert Replace(s, [from], [to]) == [if s[0] == from then to else s[0]] + rest;
    }
  }

  lemma NormalizePathFixed(path: string)
    ensures NormalizePath(NormalizePath(path)) == NormalizePath(path)
    ensures Lacks(path, '\n') ==> Lacks(NormalizePath(path), '\n')
  {
    var stripped := Strip(path);
    StripEnds(path);
    ReplaceOneByOne(stripped, '\\', '/');
    var p := NormalizePath(path);
    assert forall i | 0 <= i < |p| :: IsSpace(p[i]) <==> IsSpace(stripped[i]);
    assert Strip(p) == p;
    ReplaceOneByOne(p, '\\', '/');
    assert forall i | 0 <= i < |p| :: p[i] != '\\';
  }

  /** `p` is the nonempty normal form of a listed file. */
  ghost predicate Names(files: seq<string>, p: string) {
    p != [] && exists f :: f in files && NormalizePath(f) == p
  }

  /** The scope lists each nonempty normalized path once. */
  lemma {:induction false} ScopeElements(files: seq<string>)
    ensures NoRepeats(NormalizeChangedFiles(files))
    ensures [] !in NormalizeChangedFiles(files)
    ensures forall p :: p in NormalizeChangedFiles(files) <==> Names(files, p)
  {
    if files != [] {
      var last := files[|files| - 1];
      ScopeElements(files[..|files| - 1]);
      assert files == files[..|files| - 1] + [last];
      forall p ensures p in NormalizeChangedFiles(files) <==> Names(files, p) {
        if p != [] && p == NormalizePath(last) { assert last in files; }
      }
    }
  }

  lemma {:induction false} ScopeOfNormal(files: seq<string>)
    requires NoRepeats(files) && [] !in files
    requires forall f | f in files :: NormalizePath(f) == f
    ensures NormalizeChangedFiles(files) == files
  {
    if files != [] {
      var front := files[..|files| - 1];
      assert files == front + [files[|files| - 1]];
      ScopeOfNormal(front);
    }
  }

  lemma ScopeIdempotent(files: seq<string>)
    ensures NormalizeChangedFiles(NormalizeChangedFiles(files)) == NormalizeChangedFiles(files)
  {
    ScopeElements(files);
    var scope := NormalizeChangedFiles(files);
    forall p | p in scope ensures NormalizePath(p) == p {
      var f :| f in files && NormalizePath(f) == p;
      NormalizePathFixed(f);
    }
    ScopeOfNormal(scope);
  }

  ghost predicate LineFree(files: seq<string>) {
    forall f | f in files :: Lacks(f, '\n')
  }

  ghost predicate Injective(sha: string -> string) {
    forall a, b :: sha(a) == sha(b) ==> a == b
  }

  function BodyHash(sha: string -> string, body: string): string {
    sha(NormalizeBody(body))
  }

  function ChangedScopeHash(sha: string -> string, files: seq<string>): string {
    sha(JoinLines(NormalizeChangedFiles(files)))
  }

  /** The lines of `s`, ended by LF only. */
  function Lines(s: string): (lines: seq<string>)
    ensures lines != []
  {
    if s == [] then [[]]
    else if s[0] == '\n' then [[]] + Lines(s[1..])
    else [[s[0]] + Lines(s[1..])[0]] + Lines(s[1..])[1..]
  }

  lemma {:induction false} LinesAreLineFree(s: string)
    ensures LineFree(Lines(s))
  {
    if s != [] {
      var rest := Lines(s[1..]);
      LinesAreLineFree(s[1..]);
      assert rest[0] in rest;
    }
  }

  /** The lines of all paths of a scope, one after the other. */
  function ScopeLines(scope: seq<string>): (lines: seq<string>)
    ensures scope != [] ==> lines != []
  {
    if scope == [] then [] else Lines(scope[0]) + ScopeLines(scope[1..])
  }

  lemma {:induction false} ScopeLinesAreLineFree(scope: seq<string>)
    ensures LineFree(ScopeLines(scope))
  {
    if scope != [] {
      LinesAreLineFree(scope[0]);
      ScopeLinesAreLineFree(scope[1..]);
    }
  }

  lemma {:induction false} JoinOfLines(s: string)
    ensures JoinLines(Lines(s)) == s
  {
    if s != [] {
      JoinOfLines(s[1..]);
      if s[0] == '\n' { JoinEmptyLineFirst(Lines(s[1..])); } else { JoinLongerFirstLine(s[0], Lines(s[1..])); }
    }
  }

  lemma {:induction false} JoinConcat(a: seq<string>, b: seq<string>)
    requires a != [] && b != []
    ensures JoinLines(a + b) == JoinLines(a) + ['\n'] + JoinLines(b)
  {
    if |a| == 1 {
      assert (a + b)[1..] == b;
    } else {
      assert (a + b)[1..] == a[1..] + b;
      JoinConcat(a[1..], b);
    }
  }

  /** Joining paths joins all their lines. */
  lemma {:induction false} JoinOfScope(scope: seq<string>)
    ensures JoinLines(ScopeLines(scope)) == JoinLines(scope)
  {
    if scope != [] {
      JoinOfLines(scope[0]);
      JoinOfScope(scope[1..]);
      if |scope| == 1 {
        assert Lines(scope[0]) + [] == Lines(scope[0]);
      } else {
        JoinConcat(Lines(scope[0]), ScopeLines(scope[1..]));
      }
    }
  }

  lemma JoinNonempty(scope: seq<string>)
    requires scope != [] && [] !in scope
    ensures JoinLines(scope) != []
  {
    assert scope[0] in scope;
  }

  /** Equal joins of scopes are equal lines. */
  lemma JoinTellsLines(a: seq<string>, b: seq<string>)
    requires [] !in a && [] !in b
    ensures JoinLines(a) == JoinLines(b) <==> ScopeLines(a) == ScopeLines(b)
  {
    JoinOfScope(a);
    JoinOfScope(b);
    if a != [] { JoinNonempty(a); }
    if b != [] { JoinNonempty(b); }
    ScopeLinesAreLineFree(a);
    ScopeLinesAreLineFree(b);
    if JoinLines(a) == JoinLines(b) && a != [] && b != [] {
      JoinInjective(ScopeLines(a), ScopeLines(b));
    }
  }

  /** With a collision-free hash, two scopes have one hash exactly when the lines of their
      normalized paths, all in a row, are the same. */
  lemma ScopeHashExact(sha: string -> string, a: seq<string>, b: seq<string>)
    requires Injective(sha)
    ensures ChangedScopeHash(sha, a) == ChangedScopeHash(sha, b)
      <==> ScopeLines(NormalizeChangedFiles(a)) == ScopeLines(NormalizeChangedFiles(b))
  {
    ScopeElements(a);
    ScopeElements(b);
    JoinTellsLines(NormalizeChangedFiles(a), NormalizeChangedFiles(b));
  }

  lemma {:induction false} LineOfLineFree(s: string)
    requires Lacks(s, '\n')
    ensures Lines(s) == [s]
  {
    if s != [] {
      LineOfLineFree(s[1..]);
      assert s == [s[0]] + s[1..];
    }
  }

  lemma {:induction false} LineFreeScopeLines(scope: seq<string>)
    requires LineFree(scope)
    ensures ScopeLines(scope) == scope
  {
    if scope != [] {
      assert scope[0] in scope;
      LineOfLineFree(scope[0]);
      LineFreeScopeLines(scope[1..]);
      assert scope == [scope[0]] + scope[1..];
    }
  }

  lemma NormalLineFree(files: seq<string>)
    requires LineFree(files)
    ensures LineFree(NormalizeChangedFiles(files))
  {
    ScopeElements(files);
    forall p | p in NormalizeChangedFiles(files) ensures Lacks(p, '\n') {
      var f :| f in files && NormalizePath(f) == p;
      NormalizePathFixed(f);
    }
  }

  /** The newline join keeps a scope apart from every other newline-free scope. */
  lemma ScopeJoinInjective(a: seq<string>, b: seq<string>)
    requires LineFree(a) && LineFree(b)
    requires JoinLines(NormalizeChangedFiles(a)) == JoinLines(NormalizeChangedFiles(b))
    ensures NormalizeChangedFiles(a) == NormalizeChangedFiles(b)
  {
    var x, y := NormalizeChangedFiles(a), NormalizeChangedFiles(b);
    ScopeElements(a);
    ScopeElements(b);
    NormalLineFree(a);
    NormalLineFree(b);
    JoinTellsLines(x, y);
    LineFreeScopeLines(x);
    LineFreeScopeLines(y);
  }

  lemma ScopeHashDeterminesScope(sha: string -> string, a: seq<string>, b: seq<string>)
    requires Injective(sha) && LineFree(a) && LineFree(b)
    ensures ChangedScopeHash(sha, a) == ChangedScopeHash(sha, b)
      <==> NormalizeChangedFiles(a) == NormalizeChangedFiles(b)
  {
    ScopeHashExact(sha, a, b);
    NormalLineFree(a);
    NormalLineFree(b);
    LineFreeScopeLines(NormalizeChangedFiles(a));
    LineFreeScopeLines(NormalizeChangedFiles(b));
  }

  /** Newline-freedom is needed: one path holding a newline hashes like two paths. */
  lemma ScopeHashConfusesNewlines(sha: string -> string)
    ensures ChangedScopeHash(sha, ["a\nb"]) == ChangedScopeHash(sha, ["a", "b"])
    ensures NormalizeChangedFiles(["a\nb"]) == ["a\nb"]
    ensures NormalizeChangedFiles(["a", "b"]) == ["a", "b"]
  {
    assert forall p: string :: Lacks(p, '\\') ==> Replace(p, "\\", "/") == p by {
      forall p: string | Lacks(p, '\\') ensures Replace(p, "\\", "/") == p {
        ReplaceOneByOne(p, '\\', '/');
      }
    }
    assert NormalizePath("a\nb") == "a\nb" && NormalizePath("a") == "a" && NormalizePath("b") == "b";
    ScopeOfNormal(["a\nb"]);
    ScopeOfNormal(["a", "b"]);
    assert ["a", "b"][1..] == ["b"];
    assert JoinLines(["a", "b"]) == "a" + "\n" + "b" == "a\nb";
  }
}
