/** Stable insertion sort over an arbitrary order, and the fact that a sorted
    sequence is determined by its contents.  This is what makes the results of
    the source's `sorted(...)` calls independent of collection order. */
module Ordering {

  ghost predicate TotalOrder<T(!new)>(le: (T, T) -> bool) {
    && (forall x, y :: le(x, y) || le(y, x))
    && (forall x, y, z :: le(x, y) && le(y, z) ==> le(x, z))
  }

  ghost predicate SortedBy<T>(s: seq<T>, le: (T, T) -> bool) {
    forall i, j | 0 <= i < j < |s| :: le(s[i], s[j])
  }

  /** No two different elements of `s` are ties for `le`. */
  ghost predicate TieFree<T>(s: seq<T>, le: (T, T) -> bool) {
    forall x, y | x in s && y in s && le(x, y) && le(y, x) :: x == y
  }

  function Insert<T>(x: T, s: seq<T>, le: (T, T) -> bool): seq<T> {
    if s == [] || le(x, s[0]) then [x] + s
    else [s[0]] + Insert(x, s[1..], le)
  }

  function Sort<T>(s: seq<T>, le: (T, T) -> bool): seq<T> {
    if s == [] then [] else Insert(s[0], Sort(s[1..], le), le)
  }

  lemma {:induction false} InsertContents<T>(x: T, s: seq<T>, le: (T, T) -> bool)
    ensures multiset(Insert(x, s, le)) == multiset{x} + multiset(s)
  {
    if s != [] {
      InsertContents(x, s[1..], le);
      assert s == [s[0]] + s[1..];
    }
  }

  lemma {:induction false} InsertKeeps<T(!new)>(x: T, s: seq<T>, le: (T, T) -> bool)
    requires TotalOrder(le) && SortedBy(s, le)
    ensures SortedBy(Insert(x, s, le), le)
  {
    if s != [] && !le(x, s[0]) {
      InsertKeeps(x, s[1..], le);
      InsertContents(x, s[1..], le);
      SortedCons(s[0], Insert(x, s[1..], le), le, s[1..], x);
    }
  }

  lemma SortedCons<T(!new)>(head: T, rest: seq<T>, le: (T, T) -> bool, tail: seq<T>, x: T)
    requires SortedBy(rest, le) && multiset(rest) == multiset{x} + multiset(tail)
    requires le(head, x) && forall i | 0 <= i < |tail| :: le(head, tail[i])
    ensures SortedBy([head] + rest, le)
  {
    forall k | 0 <= k < |rest| ensures le(head, rest[k]) {
      assert rest[k] in multiset(rest);
      assert rest[k] == x || rest[k] in tail;
    }
  }

  lemma {:induction false} SortCorrect<T(!new)>(s: seq<T>, le: (T, T) -> bool)
    requires TotalOrder(le)
    ensures SortedBy(Sort(s, le), le)
    ensures multiset(Sort(s, le)) == multiset(s)
    ensures |Sort(s, le)| == |s|
    ensures forall x :: x in Sort(s, le) <==> x in s
  {
    if s != [] {
      SortCorrect(s[1..], le);
      InsertKeeps(s[0], Sort(s[1..], le), le);
      InsertContents(s[0], Sort(s[1..], le), le);
      assert s == [s[0]] + s[1..];
    }
    SameContents(Sort(s, le), s);
  }

  lemma SameContents<T>(a: seq<T>, b: seq<T>)
    requires multiset(a) == multiset(b)
    ensures |a| == |b| && forall x :: x in a <==> x in b
  {
    assert |multiset(a)| == |a| && |multiset(b)| == |b|;
    forall x ensures x in a <==> x in b {
      assert x in multiset(a) <==> x in multiset(b);
    }
  }

  /** The head of a sorted sequence is below every element. */
  lemma HeadIsLeast<T(!new)>(a: seq<T>, x: T, le: (T, T) -> bool)
    requires TotalOrder(le) && SortedBy(a, le) && x in multiset(a)
    ensures a != [] && le(a[0], x)
  {
    assert x in a;
    var i :| 0 <= i < |a| && a[i] == x;
    assert le(a[0], a[0]);
  }

  /** Dropping the head keeps a sequence sorted and free of ties. */
  lemma TailKeeps<T(!new)>(a: seq<T>, le: (T, T) -> bool)
    requires a != []
    ensures multiset(a[1..]) == multiset(a) - multiset{a[0]}
    ensures SortedBy(a, le) ==> SortedBy(a[1..], le)
    ensures TieFree(a, le) ==> TieFree(a[1..], le)
  {
    assert a == [a[0]] + a[1..];
    assert forall x | x in a[1..] :: x in a;
  }

  lemma SameHead<T(!new)>(a: seq<T>, b: seq<T>, le: (T, T) -> bool)
    requires TotalOrder(le) && SortedBy(a, le) && SortedBy(b, le)
    requires multiset(a) == multiset(b) && TieFree(a, le) && a != []
    ensures b != [] && a[0] == b[0]
  {
    assert a[0] in multiset(b);
    HeadIsLeast(b, a[0], le);
    assert b[0] in multiset(a);
    HeadIsLeast(a, b[0], le);
    assert a[0] in a && b[0] in a;
  }

  lemma EmptyContents<T>(b: seq<T>)
    requires multiset(b) == multiset{}
    ensures b == []
  {
    assert |b| == |multiset(b)|;
  }

  /** A place where `x` stands, and what is left without it. */
  lemma RemoveOne<T>(s: seq<T>, x: T) returns (front: seq<T>, back: seq<T>)
    requires x in multiset(s)
    ensures s == front + [x] + back
    ensures multiset(front + back) == multiset(s) - multiset{x}
  {
    var i :| 0 <= i < |s| && s[i] == x;
    front, back := s[..i], s[i + 1..];
    assert s == front + [x] + back;
  }

  /** Sorted arrangements of the same elements agree in their heads, and their tails are again
      sorted arrangements of the same elements. */
  lemma Peel<T(!new)>(a: seq<T>, b: seq<T>, le: (T, T) -> bool)
    requires TotalOrder(le) && SortedBy(a, le) && SortedBy(b, le)
    requires multiset(a) == multiset(b) && TieFree(a, le) && a != []
    ensures b != [] && a[0] == b[0]
    ensures SortedBy(a[1..], le) && SortedBy(b[1..], le)
    ensures multiset(a[1..]) == multiset(b[1..]) && TieFree(a[1..], le)
  {
    SameHead(a, b, le);
    TailKeeps(a, le);
    TailKeeps(b, le);
  }

  /** Two sorted arrangements of the same elements are the same sequence. */
  lemma {:induction false} SortedUnique<T(!new)>(a: seq<T>, b: seq<T>, le: (T, T) -> bool)
    requires TotalOrder(le) && SortedBy(a, le) && SortedBy(b, le)
    requires multiset(a) == multiset(b) && TieFree(a, le)
    ensures a == b
  {
    if a == [] {
      EmptyContents(b);
    } else {
      Peel(a, b, le);
      SortedUnique(a[1..], b[1..], le);
      assert a == [a[0]] + a[1..] && b == [b[0]] + b[1..];
    }
  }

  /** Sorting forgets the order its input arrived in. */
  lemma SortPermutation<T(!new)>(a: seq<T>, b: seq<T>, le: (T, T) -> bool)
    requires TotalOrder(le) && multiset(a) == multiset(b) && TieFree(a, le)
    ensures Sort(a, le) == Sort(b, le)
  {
    SortCorrect(a, le);
    SortCorrect(b, le);
    SortedUnique(Sort(a, le), Sort(b, le), le);
  }

  /** A stable sort leaves a sorted sequence alone. */
  lemma {:induction false} SortFixesSorted<T>(s: seq<T>, le: (T, T) -> bool)
    requires SortedBy(s, le)
    ensures Sort(s, le) == s
  {
    if s != [] {
      SortFixesSorted(s[1..], le);
      assert s == [s[0]] + s[1..];
    }
  }

  // ---- Ties ----

  predicate TiesWith<T>(x: T, y: T, le: (T, T) -> bool) { le(x, y) && le(y, x) }

  /** The elements that tie with `x`, in order. */
  function Ties<T>(s: seq<T>, x: T, le: (T, T) -> bool): seq<T> {
    if s == [] then [] else (if TiesWith(s[0], x, le) then [s[0]] else []) + Ties(s[1..], x, le)
  }

  lemma {:induction false} InsertKeepsTies<T(!new)>(y: T, s: seq<T>, x: T, le: (T, T) -> bool)
    requires TotalOrder(le)
    ensures Ties(Insert(y, s, le), x, le) == Ties([y] + s, x, le)
  {
    assert ([y] + s)[1..] == s;
    if s != [] && !le(y, s[0]) {
      InsertKeepsTies(y, s[1..], x, le);
      var rest := Insert(y, s[1..], le);
      assert ([s[0]] + rest)[1..] == rest;
      assert ([y] + s[1..])[1..] == s[1..];
      assert TiesWith(y, x, le) ==> !TiesWith(s[0], x, le);
    }
  }

  /** Sorting leaves ties in the order they came in. */
  lemma {:induction false} SortKeepsTies<T(!new)>(s: seq<T>, x: T, le: (T, T) -> bool)
    requires TotalOrder(le)
    ensures Ties(Sort(s, le), x, le) == Ties(s, x, le)
  {
    if s != [] {
      SortKeepsTies(s[1..], x, le);
      InsertKeepsTies(s[0], Sort(s[1..], le), x, le);
      assert ([s[0]] + Sort(s[1..], le))[1..] == Sort(s[1..], le);
    }
  }

  ghost predicate SameElements<T(!new)>(a: seq<T>, b: seq<T>) {
    forall x :: x in a <==> x in b
  }

  ghost predicate NoRepeats<T>(s: seq<T>) {
    forall i, j | 0 <= i < j < |s| :: s[i] != s[j]
  }

  /** Keeps the first occurrence of every element. */
  function Distinct<T(==)>(s: seq<T>): seq<T> {
    if s == [] then []
    else
      var front := Distinct(s[..|s| - 1]);
      if s[|s| - 1] in front then front else front + [s[|s| - 1]]
  }

  lemma {:induction false} DistinctElements<T>(s: seq<T>)
    ensures NoRepeats(Distinct(s))
    ensures forall x :: x in Distinct(s) <==> x in s
  {
    if s != [] {
      DistinctElements(s[..|s| - 1]);
      assert s == s[..|s| - 1] + [s[|s| - 1]];
    }
  }

  lemma {:induction false} NoRepeatsCounts<T>(s: seq<T>)
    requires NoRepeats(s)
    ensures forall x :: multiset(s)[x] == if x in s then 1 else 0
  {
    if s != [] {
      assert s == [s[0]] + s[1..];
      NoRepeatsCounts(s[1..]);
    }
  }

  lemma PairCounts<T>(s: seq<T>, i: nat, j: nat)
    requires i < j < |s| && s[i] == s[j]
    ensures multiset(s)[s[i]] >= 2
  {
    assert s == s[..j] + [s[j]] + s[j + 1..];
    assert s[i] in s[..j];
  }

  /** Repeat-free sequences with the same elements are permutations of each other. */
  lemma SameElementsPermute<T>(a: seq<T>, b: seq<T>)
    requires NoRepeats(a) && NoRepeats(b)
    requires forall x :: x in a <==> x in b
    ensures multiset(a) == multiset(b)
  {
    NoRepeatsCounts(a);
    NoRepeatsCounts(b);
  }

  /** Python's code-point order on strings. */
  predicate StringLe(a: string, b: string) {
    a == [] || (b != [] && (a[0] < b[0] || (a[0] == b[0] && StringLe(a[1..], b[1..]))))
  }

  lemma {:induction false} StringLeTotal(a: string, b: string)
    ensures StringLe(a, b) || StringLe(b, a)
    ensures StringLe(a, b) && StringLe(b, a) ==> a == b
  {
    if a != [] && b != [] {
      StringLeTotal(a[1..], b[1..]);
      assert a == [a[0]] + a[1..] && b == [b[0]] + b[1..];
    }
  }

  lemma {:induction false} StringLeTransitive(a: string, b: string, c: string)
    requires StringLe(a, b) && StringLe(b, c)
    ensures StringLe(a, c)
  {
    if a != [] && b != [] && c != [] && a[0] == b[0] == c[0] {
      StringLeTransitive(a[1..], b[1..], c[1..]);
    }
  }

  lemma StringOrder()
    ensures TotalOrder(StringLe)
    ensures forall a, b :: StringLe(a, b) && StringLe(b, a) ==> a == b
  {
    forall a, b ensures StringLe(a, b) || StringLe(b, a) { StringLeTotal(a, b); }
    forall a, b, c | StringLe(a, b) && StringLe(b, c) ensures StringLe(a, c) {
      StringLeTransitive(a, b, c);
    }
    forall a, b | StringLe(a, b) && StringLe(b, a) ensures a == b { StringLeTotal(a, b); }
  }

  /** Python's `sorted(set(xs))`. */
  function SortedSet(xs: seq<string>): seq<string> {
    Sort(Distinct(xs), StringLe)
  }

  lemma SortedSetDependsOnElements(a: seq<string>, b: seq<string>)
    requires forall x :: x in a <==> x in b
    ensures SortedSet(a) == SortedSet(b)
  {
    StringOrder();
    DistinctElements(a);
    DistinctElements(b);
    SameElementsPermute(Distinct(a), Distinct(b));
    assert TieFree(Distinct(a), StringLe);
    SortPermutation(Distinct(a), Distinct(b), StringLe);
  }

  lemma SortedSetElements(xs: seq<string>)
    ensures forall x :: x in SortedSet(xs) <==> x in xs
  {
    StringOrder();
    DistinctElements(xs);
    SortCorrect(Distinct(xs), StringLe);
  }

  ghost predicate Ascending(s: seq<int>) { forall i, j | 0 <= i < j < |s| :: s[i] < s[j] }

  predicate IntLe(a: int, b: int) { a <= b }

  /** Python's `sorted(set(xs))` on integers. */
  function SortedInts(xs: seq<int>): seq<int> {
    Sort(Distinct(xs), IntLe)
  }

  lemma SortedIntsElements(xs: seq<int>)
    ensures Ascending(SortedInts(xs))
    ensures forall x :: x in SortedInts(xs) <==> x in xs
  {
    var d, s := Distinct(xs), SortedInts(xs);
    DistinctElements(xs);
    SortCorrect(d, IntLe);
    NoRepeatsCounts(d);
    forall i, j | 0 <= i < j < |s| ensures s[i] < s[j] {
      if s[i] == s[j] {
        PairCounts(s, i, j);
      }
    }
  }
}
