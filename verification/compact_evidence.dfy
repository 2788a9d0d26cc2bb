/** Rendering compact policy evidence: evaluate, render, hash the rendered body, bind the
    hash, evaluate and render again, and demand that the hash is still the same. */
module CompactEvidence {
  import opened Envelope
  import opened Json
  import opened Options
  import opened Policy
  import opened Text

  /** How the parts of inputs and results that are not governed hashes become JSON, and how
      JSON becomes text. */
  datatype Codec = Codec(
    dumps: Json -> string,
    identity: Identity -> map<string, Json>,
    run: CheckRun -> map<string, Json>,
    input: Input -> map<string, Json>,
    result: Result -> map<string, Json>)

  function HashJson(hash: Option<string>): Json {
    if hash.Some? then Str(hash.value) else Null
  }

  function IdentityJson(codec: Codec, x: Identity): Json {
    Obj(codec.identity(x.(bodyHash := None))[HASH := HashJson(x.bodyHash)])
  }

  function RunJson(codec: Codec, r: CheckRun): Json {
    Obj(codec.run(r.(bodyHash := None))[HASH := HashJson(r.bodyHash)])
  }

  function RunsJson(codec: Codec, runs: seq<CheckRun>): Json {
    Arr(seq(|runs|, i requires 0 <= i < |runs| => RunJson(codec, runs[i])))
  }

  function BlankState(x: Identity): Identity { x.(bodyHash := None) }

  function InputJson(codec: Codec, i: Input): Json {
    Obj(codec.input(i.(state := BlankState(i.state), runs := []))
          [STATE := IdentityJson(codec, i.state)][RUNS := RunsJson(codec, i.runs)])
  }

  function ResultJson(codec: Codec, r: Result): Json {
    Obj(codec.result(r.(state := BlankState(r.state)))[STATE := IdentityJson(codec, r.state)])
  }

  /** The caller's remarks. */
  datatype Remarks = Remarks(delta: string, validation: Json, live: Json)

  function Head(remarks: Remarks): map<string, Json> {
    map["kind" := Str("compact_policy_evidence"),
        "schema_version" := Str("recordstracker.evidence-reuse-validation-impact.v1"),
        "delta" := Str(remarks.delta),
        "validation_newly_performed" := remarks.validation,
        "live_evidence_recollected" := remarks.live]
  }

  function EnvelopeJson(codec: Codec, i: Input, r: Result, remarks: Remarks): Json {
    Obj(Head(remarks)[INPUT := InputJson(codec, i)][RESULT := ResultJson(codec, r)])
  }

  const HEADING := "## Validation impact and evidence delta\n\n- Decision: "

  function Decision(r: Result): string { if r.ready then "ready" else "blocked" }

  function AfterDecision(remarks: Remarks): string {
    "\n- Delta: " + remarks.delta + "\n- Policy version: 1.0.3\n- Compact evidence envelope:\n\n```json\n"
  }

  const FENCE := "\n```\n"

  /** A body whose compact envelope has been located: the text before it, the envelope, the
      text after it. */
  datatype Body = Body(before: string, envelope: Json, after: string)

  /** `body_prefix + compact_policy_section(...) + body_suffix` */
  ghost function Rendered(
      codec: Codec, book: Rulebook, i: Input, remarks: Remarks, prefix: string, suffix: string): Body
  {
    var r := Evaluation(book, i);
    Body(prefix + (HEADING + Decision(r) + AfterDecision(remarks)),
         EnvelopeJson(codec, i, r, remarks), FENCE + suffix)
  }

  function BodyText(codec: Codec, b: Body): string { b.before + codec.dumps(b.envelope) + b.after }

  /** `canonical_compact_body`: everything normalized, the governed hashes nulled. */
  function CanonicalText(codec: Codec, b: Body): string
    requires b.envelope.Obj?
  {
    NormalizeBody(b.before) + codec.dumps(GovernedNull(b.envelope)) + NormalizeBody(b.after)
  }

  ghost function Digest(
      codec: Codec, book: Rulebook, i: Input, remarks: Remarks, prefix: string, suffix: string): string
  {
    book.sha(CanonicalText(codec, Rendered(codec, book, i, remarks, prefix, suffix)))
  }

  /** The input with its own and its runs' body hash set. */
  function Bound(i: Input, digest: string): Input {
    i.(state := i.state.(bodyHash := Some(digest)),
       runs := seq(|i.runs|, k requires 0 <= k < |i.runs| => i.runs[k].(bodyHash := Some(digest))))
  }

  /** `render_compact_policy_evidence` does not report "did not stabilize". */
  ghost predicate Stabilizes(codec: Codec, book: Rulebook, i: Input, remarks: Remarks, prefix: string, suffix: string) {
    var digest := Digest(codec, book, i, remarks, prefix, suffix);
    Digest(codec, book, Bound(i, digest), remarks, prefix, suffix) == digest
  }

  // ---- The JSON of a bound input ----

  lemma BindIdentity(codec: Codec, x: Identity, digest: string)
    ensures SetHash(IdentityJson(codec, x), digest) == IdentityJson(codec, x.(bodyHash := Some(digest)))
    ensures NullHash(IdentityJson(codec, x)) == IdentityJson(codec, BlankState(x))
  {
    var base := codec.identity(BlankState(x));
    assert base[HASH := HashJson(x.bodyHash)][HASH := Str(digest)] == base[HASH := Str(digest)];
    assert base[HASH := HashJson(x.bodyHash)][HASH := Null] == base[HASH := Null];
  }

  lemma BindRun(codec: Codec, r: CheckRun, digest: string)
    ensures SetHash(RunJson(codec, r), digest) == RunJson(codec, r.(bodyHash := Some(digest)))
    ensures Has(RunJson(codec, r), HASH)
  {
    var base := codec.run(r.(bodyHash := None));
    assert base[HASH := HashJson(r.bodyHash)][HASH := Str(digest)] == base[HASH := Str(digest)];
  }

  /** Binding the typed input and binding its JSON are the same thing, and the JSON of a
      schema-valid input has all its governed fields. */
  lemma BindCommutes(codec: Codec, i: Input, digest: string)
    ensures Bind(InputJson(codec, i), digest) == InputJson(codec, Bound(i, digest))
    ensures GovernedFieldsPresent(InputJson(codec, i))
  {
    KeysDiffer();
    var base := codec.input(i.(state := BlankState(i.state), runs := []));
    var b := Bound(i, digest);
    BindIdentity(codec, i.state, digest);
    var runs := RunsJson(codec, i.runs);
    forall k | 0 <= k < |i.runs|
      ensures SetHash(RunJson(codec, i.runs[k]), digest) == RunJson(codec, b.runs[k])
      ensures Has(RunJson(codec, i.runs[k]), HASH)
    {
      BindRun(codec, i.runs[k], digest);
    }
    assert SetHashes(runs.items, digest) == RunsJson(codec, b.runs).items;
    var s, t := IdentityJson(codec, i.state), IdentityJson(codec, b.state);
    assert base[STATE := s][RUNS := runs][STATE := t][RUNS := RunsJson(codec, b.runs)]
        == base[STATE := t][RUNS := RunsJson(codec, b.runs)];
  }

  lemma NullResult(codec: Codec, r: Result)
    ensures NullState(ResultJson(codec, r)) == ResultJson(codec, r.(state := BlankState(r.state)))
  {
    BindIdentity(codec, r.state, []);
    var base := codec.result(r.(state := BlankState(r.state)));
    var s, t := IdentityJson(codec, r.state), IdentityJson(codec, BlankState(r.state));
    assert base[STATE := s][STATE := t] == base[STATE := t];
  }

  /** Two results that differ at most in the current body hash. */
  ghost predicate SameButHash(r: Result, s: Result) {
    r.(state := BlankState(r.state)) == s.(state := BlankState(s.state))
  }

  ghost predicate InjectiveDumps(codec: Codec) {
    forall a, b :: codec.dumps(a) == codec.dumps(b) ==> a == b
  }

  /** Different blanked results have different JSON. */
  ghost predicate FaithfulResults(codec: Codec) {
    forall r, s :: ResultJson(codec, r) == ResultJson(codec, s) ==> r == s
  }

  function CanonicalJson(head: map<string, Json>, input: Json, result: Json): Json {
    Obj(head[INPUT := input][RESULT := result])
  }

  lemma NullEnvelope(head: map<string, Json>, input: Json, result: Json)
    requires input.Obj? && result.Obj?
    ensures GovernedNull(CanonicalJson(head, input, result)) == CanonicalJson(head, NullInput(input), NullState(result))
  {
    KeysDiffer();
    var a, b := NullInput(input), NullState(result);
    assert head[INPUT := input][RESULT := result][INPUT := a][RESULT := b] == head[INPUT := a][RESULT := b];
  }

  /** The canonical envelope of an input and a result. */
  lemma CanonicalEnvelope(codec: Codec, i: Input, r: Result, remarks: Remarks)
    ensures GovernedNull(EnvelopeJson(codec, i, r, remarks))
      == CanonicalJson(Head(remarks), NullInput(InputJson(codec, i)),
                       ResultJson(codec, r.(state := BlankState(r.state))))
  {
    NullEnvelope(Head(remarks), InputJson(codec, i), ResultJson(codec, r));
    NullResult(codec, r);
  }

  /** Binding leaves the canonical envelope alone if it leaves the result alone. */
  lemma CanonicalEnvelopeKept(codec: Codec, i: Input, digest: string, r: Result, s: Result, remarks: Remarks)
    requires SameButHash(r, s)
    ensures GovernedNull(EnvelopeJson(codec, i, r, remarks))
      == GovernedNull(EnvelopeJson(codec, Bound(i, digest), s, remarks))
  {
    CanonicalEnvelope(codec, i, r, remarks);
    CanonicalEnvelope(codec, Bound(i, digest), s, remarks);
    BindCommutes(codec, i, digest);
    BindInvisible(InputJson(codec, i), digest);
  }

  lemma CanonicalEnvelopeTells(codec: Codec, i: Input, j: Input, r: Result, s: Result, remarks: Remarks)
    requires FaithfulResults(codec)
    requires GovernedNull(EnvelopeJson(codec, i, r, remarks)) == GovernedNull(EnvelopeJson(codec, j, s, remarks))
    ensures SameButHash(r, s)
  {
    var x := ResultJson(codec, r.(state := BlankState(r.state)));
    var y := ResultJson(codec, s.(state := BlankState(s.state)));
    CanonicalEnvelope(codec, i, r, remarks);
    CanonicalEnvelope(codec, j, s, remarks);
    assert Head(remarks)[INPUT := NullInput(InputJson(codec, i))][RESULT := x][RESULT] == x;
    assert Head(remarks)[INPUT := NullInput(InputJson(codec, j))][RESULT := y][RESULT] == y;
  }

  // ---- The text around the envelope ----

  /** The canonical text with its one variable word and its one variable tree set apart. */
  function Pieces(codec: Codec, remarks: Remarks, prefix: string, suffix: string, word: string, tree: Json): string {
    NormalizeBody(prefix + HEADING)
    + (word + (NormalizeBody(AfterDecision(remarks)) + (codec.dumps(tree) + NormalizeBody(FENCE + suffix))))
  }

  lemma NormalizeMiddle(p: string, word: string, rest: string)
    requires p != [] && p[|p| - 1] != '\r' && word != [] && Lacks(word, '\r')
    ensures NormalizeBody(p + (word + rest)) == NormalizeBody(p) + (word + NormalizeBody(rest))
  {
    NormalizationContract(word);
    assert word[|word| - 1] in word;
    NormalizeConcat(word, rest);
    NormalizeConcat(p, word + rest);
  }

  lemma RegroupPieces(h: string, w: string, a: string, t: string, f: string)
    ensures (h + (w + a)) + t + f == h + (w + (a + (t + f)))
  {
  }

  lemma BodyPieces(codec: Codec, remarks: Remarks, prefix: string, suffix: string, word: string, tree: Json)
    requires word == "ready" || word == "blocked"
    ensures NormalizeBody(prefix + (HEADING + word + AfterDecision(remarks)))
            + codec.dumps(tree) + NormalizeBody(FENCE + suffix)
      == Pieces(codec, remarks, prefix, suffix, word, tree)
  {
    var after := AfterDecision(remarks);
    assert prefix + (HEADING + word + after) == (prefix + HEADING) + (word + after);
    NormalizeMiddle(prefix + HEADING, word, after);
    RegroupPieces(NormalizeBody(prefix + HEADING), word, NormalizeBody(after), codec.dumps(tree),
                  NormalizeBody(FENCE + suffix));
  }

  lemma CanonicalPieces(codec: Codec, book: Rulebook, i: Input, remarks: Remarks, prefix: string, suffix: string)
    ensures CanonicalText(codec, Rendered(codec, book, i, remarks, prefix, suffix))
      == Pieces(codec, remarks, prefix, suffix, Decision(Evaluation(book, i)),
                GovernedNull(EnvelopeJson(codec, i, Evaluation(book, i), remarks)))
  {
    BodyPieces(codec, remarks, prefix, suffix, Decision(Evaluation(book, i)),
               GovernedNull(EnvelopeJson(codec, i, Evaluation(book, i), remarks)));
  }

  lemma CancelPrefix(p: string, a: string, b: string)
    requires p + a == p + b
    ensures a == b
  {
    assert a == (p + a)[|p|..] == (p + b)[|p|..] == b;
  }

  lemma CancelSuffix(a: string, b: string, f: string)
    requires a + f == b + f
    ensures a == b
  {
    assert |a| == |a + f| - |f| == |b|;
    assert a == (a + f)[..|a|] == (b + f)[..|b|] == b;
  }

  /** Equal canonical texts have equal decisions and equal canonical trees. */
  lemma PiecesTell(codec: Codec, remarks: Remarks, prefix: string, suffix: string,
                   r: Result, s: Result, x: Json, y: Json)
    requires InjectiveDumps(codec)
    requires Pieces(codec, remarks, prefix, suffix, Decision(r), x)
      == Pieces(codec, remarks, prefix, suffix, Decision(s), y)
    ensures r.ready == s.ready && x == y
  {
    var a, f := NormalizeBody(AfterDecision(remarks)), NormalizeBody(FENCE + suffix);
    var u, v := a + (codec.dumps(x) + f), a + (codec.dumps(y) + f);
    CancelPrefix(NormalizeBody(prefix + HEADING), Decision(r) + u, Decision(s) + v);
    assert (Decision(r) + u)[0] == Decision(r)[0] && (Decision(s) + v)[0] == Decision(s)[0];
    assert r.ready == s.ready;
    CancelPrefix(Decision(r), u, v);
    CancelPrefix(a, codec.dumps(x) + f, codec.dumps(y) + f);
    CancelSuffix(codec.dumps(x), codec.dumps(y), f);
  }

  /** The hash stabilizes exactly when binding it changes the policy result in nothing but the
      bound hash. */
  lemma StabilizesIffResultKept(
      codec: Codec, book: Rulebook, i: Input, remarks: Remarks, prefix: string, suffix: string)
    ensures var bound := Bound(i, Digest(codec, book, i, remarks, prefix, suffix));
      SameButHash(Evaluation(book, i), Evaluation(book, bound)) ==> Stabilizes(codec, book, i, remarks, prefix, suffix)
    ensures Injective(book.sha) && InjectiveDumps(codec) && FaithfulResults(codec) ==>
      var bound := Bound(i, Digest(codec, book, i, remarks, prefix, suffix));
      Stabilizes(codec, book, i, remarks, prefix, suffix) ==> SameButHash(Evaluation(book, i), Evaluation(book, bound))
  {
    var digest := Digest(codec, book, i, remarks, prefix, suffix);
    var bound := Bound(i, digest);
    var r, s := Evaluation(book, i), Evaluation(book, bound);
    CanonicalPieces(codec, book, i, remarks, prefix, suffix);
    CanonicalPieces(codec, book, bound, remarks, prefix, suffix);
    if SameButHash(r, s) {
      CanonicalEnvelopeKept(codec, i, digest, r, s, remarks);
    }
    if Injective(book.sha) && InjectiveDumps(codec) && FaithfulResults(codec)
       && Stabilizes(codec, book, i, remarks, prefix, suffix) {
      PiecesTell(codec, remarks, prefix, suffix, r, s,
                 GovernedNull(EnvelopeJson(codec, i, r, remarks)),
                 GovernedNull(EnvelopeJson(codec, bound, s, remarks)));
      CanonicalEnvelopeTells(codec, i, bound, r, s, remarks);
    }
  }

  /** Normalizing a rendered body normalizes the text around the envelope and leaves the
      envelope's text alone, since JSON text escapes control characters. */
  lemma BodyNormalizes(codec: Codec, b: Body)
    requires b.before != [] && b.before[|b.before| - 1] != '\r' && Lacks(codec.dumps(b.envelope), '\r')
    ensures NormalizeBody(BodyText(codec, b))
      == NormalizeBody(b.before) + codec.dumps(b.envelope) + NormalizeBody(b.after)
  {
    var text := codec.dumps(b.envelope);
    NormalizationContract(text);
    assert text != [] ==> text[|text| - 1] in text;
    NormalizeConcat(b.before, text);
    assert (b.before + text)[|b.before + text| - 1]
        == if text == [] then b.before[|b.before| - 1] else text[|text| - 1];
    NormalizeConcat(b.before + text, b.after);
  }
}
