/** The self-referential compact envelope: a body that contains the hash of itself. */
module Envelope {
  import opened Json

  const INPUT := "policy_input"
  const RESULT := "policy_result"
  const STATE := "repository_state"
  const RUNS := "required_check_runs"
  const HASH := "pr_body_hash"

  lemma KeysDiffer()
    ensures INPUT != RESULT && STATE != RUNS
  {
    assert |INPUT| == 12 && |RESULT| == 13 && |STATE| == 16 && |RUNS| == 19;
  }

  function NullHash(item: Json): Json {
    if Has(item, HASH) then Put(item, HASH, Null) else item
  }

  function SetHash(item: Json, digest: string): Json {
    if item.Obj? then Put(item, HASH, Str(digest)) else item
  }

  function NullHashes(items: seq<Json>): seq<Json> {
    seq(|items|, i requires 0 <= i < |items| => NullHash(items[i]))
  }

  function SetHashes(items: seq<Json>, digest: string): seq<Json> {
    seq(|items|, i requires 0 <= i < |items| => SetHash(items[i], digest))
  }

  function NullState(container: Json): Json {
    if container.Obj? && Has(Get(container, STATE), HASH)
    then Put(container, STATE, NullHash(Get(container, STATE))) else container
  }

  function NullRuns(container: Json): Json {
    if Get(container, RUNS).Arr? then Put(container, RUNS, Arr(NullHashes(Get(container, RUNS).items)))
    else container
  }

  /** The policy input with its governed hashes nulled. */
  function NullInput(input: Json): Json { NullRuns(NullState(input)) }

  /** `_governed_body_hashes_as_null` */
  function GovernedNull(envelope: Json): Json
    requires envelope.Obj?
  {
    var a := if Get(envelope, INPUT).Obj? then Put(envelope, INPUT, NullInput(Get(envelope, INPUT))) else envelope;
    if Get(a, RESULT).Obj? then Put(a, RESULT, NullState(Get(a, RESULT))) else a
  }

  /** `bind_compact_policy_body_hash`, given the digest of the body. */
  function Bind(input: Json, digest: string): Json
    requires input.Obj?
  {
    var a := if Get(input, STATE).Obj? then Put(input, STATE, SetHash(Get(input, STATE), digest)) else input;
    if Get(a, RUNS).Arr? then Put(a, RUNS, Arr(SetHashes(Get(a, RUNS).items, digest))) else a
  }

  /** The in-place walk over the deep copy. */
  method NullGovernedHashes(envelope: Json) returns (canonical: Json)
    requires envelope.Obj?
    ensures canonical == GovernedNull(envelope)
  {
    KeysDiffer();
    canonical := envelope;
    var names := [INPUT, RESULT];
    for i := 0 to |names|
      invariant canonical.Obj?
      invariant i == 0 ==> canonical == envelope
      invariant i == 1 ==>
        canonical
        == if Get(envelope, INPUT).Obj? then Put(envelope, INPUT, NullInput(Get(envelope, INPUT))) else envelope
      invariant i == 2 ==> canonical == GovernedNull(envelope)
    {
      var container := Get(canonical, names[i]);
      if container.Obj? {
        container := NullState(container);
        if names[i] == INPUT && Get(container, RUNS).Arr? {
          var nulled := NullEach(Get(container, RUNS).items);
          container := Put(container, RUNS, Arr(nulled));
        }
        canonical := Put(canonical, names[i], container);
      }
    }
  }

  method NullEach(runs: seq<Json>) returns (nulled: seq<Json>)
    ensures nulled == NullHashes(runs)
  {
    nulled := [];
    for i := 0 to |runs|
      invariant nulled == NullHashes(runs)[..i]
    {
      nulled := nulled + [NullHash(runs[i])];
    }
  }

  method BindEach(policyInput: Json, digest: string) returns (bound: Json)
    requires policyInput.Obj?
    ensures bound == Bind(policyInput, digest)
  {
    bound := policyInput;
    if Get(bound, STATE).Obj? {
      bound := Put(bound, STATE, SetHash(Get(bound, STATE), digest));
    }
    var runs := Get(bound, RUNS);
    if runs.Arr? {
      var items: seq<Json> := [];
      for i := 0 to |runs.items|
        invariant items == SetHashes(runs.items, digest)[..i]
      {
        items := items + [SetHash(runs.items[i], digest)];
      }
      assert items == SetHashes(runs.items, digest);
      bound := Put(bound, RUNS, Arr(items));
    }
  }

  // ---- What nulling and binding do to arbitrary JSON ----

  lemma NullHashIdempotent(item: Json)
    ensures NullHash(NullHash(item)) == NullHash(item)
  {
    if Has(item, HASH) { assert item.fields[HASH := Null][HASH := Null] == item.fields[HASH := Null]; }
  }

  lemma NullHashesIdempotent(items: seq<Json>)
    ensures NullHashes(NullHashes(items)) == NullHashes(items)
  {
    forall i | 0 <= i < |items| ensures NullHash(NullHash(items[i])) == NullHash(items[i]) {
      NullHashIdempotent(items[i]);
    }
  }

  lemma PutTwice(value: Json, key: string, a: Json, b: Json)
    requires value.Obj?
    ensures Put(Put(value, key, a), key, b) == Put(value, key, b)
    ensures Has(value, key) && Get(value, key) == a ==> Put(value, key, a) == value
  {
    assert value.fields[key := a][key := b] == value.fields[key := b];
  }

  lemma PutSwaps(value: Json, k: string, l: string, a: Json, b: Json)
    requires value.Obj? && k != l
    ensures Put(Put(value, k, a), l, b) == Put(Put(value, l, b), k, a)
  {
    assert value.fields[k := a][l := b] == value.fields[l := b][k := a];
  }

  lemma NullInputIdempotent(input: Json)
    ensures NullInput(NullInput(input)) == NullInput(input)
    ensures NullState(NullState(input)) == NullState(input)
  {
    KeysDiffer();
    NullHashIdempotent(Get(input, STATE));
    var s := NullState(input);
    if input.Obj? && Has(Get(input, STATE), HASH) {
      PutTwice(input, STATE, NullHash(Get(input, STATE)), NullHash(Get(input, STATE)));
    }
    if Get(s, RUNS).Arr? {
      NullHashesIdempotent(Get(s, RUNS).items);
      var r := NullRuns(s);
      assert Get(r, STATE) == Get(s, STATE);
      if Has(Get(s, STATE), HASH) {
        PutSwaps(s, RUNS, STATE, Get(r, RUNS), NullHash(Get(s, STATE)));
        PutTwice(s, STATE, NullHash(Get(s, STATE)), NullHash(Get(s, STATE)));
      }
      assert NullState(r) == r;
      PutTwice(s, RUNS, Get(r, RUNS), Get(r, RUNS));
    }
  }

  /** Canonicalizing twice nulls nothing new, and touches no other field of the envelope. */
  lemma GovernedNullIdempotent(envelope: Json)
    requires envelope.Obj?
    ensures GovernedNull(GovernedNull(envelope)) == GovernedNull(envelope)
    ensures forall key | key != INPUT && key != RESULT ::
      Get(GovernedNull(envelope), key) == Get(envelope, key)
  {
    KeysDiffer();
    var n := GovernedNull(envelope);
    NullInputIdempotent(Get(envelope, INPUT));
    NullInputIdempotent(Get(envelope, RESULT));
    if Get(envelope, INPUT).Obj? {
      assert Get(n, INPUT) == NullInput(Get(envelope, INPUT));
      PutTwice(n, INPUT, Get(n, INPUT), Get(n, INPUT));
    }
    if Get(envelope, RESULT).Obj? {
      assert Get(n, RESULT) == NullState(Get(envelope, RESULT));
      PutTwice(n, RESULT, Get(n, RESULT), Get(n, RESULT));
    }
  }

  /** Every governed hash field of the input is already there. */
  ghost predicate GovernedFieldsPresent(input: Json) {
    && (Get(input, STATE).Obj? ==> Has(Get(input, STATE), HASH))
    && (Get(input, RUNS).Arr? ==> forall run | run in Get(input, RUNS).items && run.Obj? :: Has(run, HASH))
  }

  lemma SetThenNull(item: Json, digest: string)
    ensures NullHash(SetHash(item, digest)) == NullHash(item) <==> item.Obj? ==> Has(item, HASH)
  {
    if item.Obj? { PutTwice(item, HASH, Str(digest), Null); }
  }

  lemma SetThenNullEach(items: seq<Json>, digest: string)
    ensures NullHashes(SetHashes(items, digest)) == NullHashes(items)
      <==> forall run | run in items && run.Obj? :: Has(run, HASH)
  {
    forall i | 0 <= i < |items|
      ensures NullHash(SetHash(items[i], digest)) == NullHash(items[i]) <==> items[i].Obj? ==> Has(items[i], HASH)
    {
      SetThenNull(items[i], digest);
    }
    if NullHashes(SetHashes(items, digest)) == NullHashes(items) {
      forall run | run in items && run.Obj? ensures Has(run, HASH) {
        var i :| 0 <= i < |items| && items[i] == run;
        assert NullHashes(SetHashes(items, digest))[i] == NullHashes(items)[i];
      }
    }
  }

  lemma BindReads(input: Json, digest: string)
    requires input.Obj?
    ensures var b := Bind(input, digest);
      && b.Obj?
      && Get(b, STATE) == SetHash(Get(input, STATE), digest)
      && Get(b, RUNS)
         == (if Get(input, RUNS).Arr? then Arr(SetHashes(Get(input, RUNS).items, digest)) else Get(input, RUNS))
      && (forall key | key != STATE && key != RUNS :: Has(b, key) == Has(input, key) && Get(b, key) == Get(input, key))
      && Has(b, STATE) == Has(input, STATE) && Has(b, RUNS) == Has(input, RUNS)
  {
    KeysDiffer();
  }

  lemma NullInputReads(input: Json)
    requires input.Obj?
    ensures var n := NullInput(input);
      && n.Obj?
      && Get(n, STATE) == NullHash(Get(input, STATE))
      && Get(n, RUNS) == (if Get(input, RUNS).Arr? then Arr(NullHashes(Get(input, RUNS).items)) else Get(input, RUNS))
      && (forall key | key != STATE && key != RUNS :: Has(n, key) == Has(input, key) && Get(n, key) == Get(input, key))
      && Has(n, STATE) == Has(input, STATE) && Has(n, RUNS) == Has(input, RUNS)
  {
    KeysDiffer();
  }

  lemma SameReads(a: Json, b: Json)
    requires a.Obj? && b.Obj?
    requires forall key :: Has(a, key) == Has(b, key) && Get(a, key) == Get(b, key)
    ensures a == b
  {
    assert forall key :: key in a.fields <==> Has(a, key);
    assert forall key :: key in b.fields <==> Has(b, key);
    forall key | key in a.fields ensures key in b.fields && a.fields[key] == b.fields[key] {
      assert Has(b, key) && Get(a, key) == Get(b, key);
    }
    assert a.fields == b.fields;
  }

  /** Binding a digest is invisible in the canonical form exactly when every governed hash
      field was present before. */
  lemma BindInvisible(input: Json, digest: string)
    requires input.Obj?
    ensures NullInput(Bind(input, digest)) == NullInput(input) <==> GovernedFieldsPresent(input)
  {
    var b := Bind(input, digest);
    BindReads(input, digest);
    NullInputReads(input);
    NullInputReads(b);
    SetThenNull(Get(input, STATE), digest);
    if Get(input, RUNS).Arr? { SetThenNullEach(Get(input, RUNS).items, digest); }
    if GovernedFieldsPresent(input) {
      SameReads(NullInput(b), NullInput(input));
    }
  }
}
