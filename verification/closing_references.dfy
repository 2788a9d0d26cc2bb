/** Collecting the closing references of a pull request page by page, all or nothing. */
module ClosingReferences {
  import opened Closure
  import opened Options
  import opened Ordering

  const MAX_PAGES := 20

  /** The answer to one page request; a node is its number, `None` when that is not an integer. */
  datatype PageReply =
    | Failed
    | Malformed
    | Page(nodes: seq<Option<int>>, hasNext: bool, endCursor: Option<string>)

  /** What the service answers to the i-th request. */
  type Pages = nat -> PageReply

  /** The nodes of the first `k` replies. */
  function Nodes(pages: Pages, k: nat): seq<Option<int>> {
    if k == 0 then []
    else Nodes(pages, k - 1) + if pages(k - 1).Page? then pages(k - 1).nodes else []
  }

  /** The cursor sent with request `i`. */
  function CursorAt(pages: Pages, i: nat): Option<string> {
    if i > 0 && pages(i - 1).Page? then pages(i - 1).endCursor else None
  }

  ghost predicate DistinctIssues(nodes: seq<Option<int>>) {
    NoRepeats(nodes) && forall n | n in nodes :: IssueNumber(n).Some?
  }

  /** The first `k` replies are pages whose nodes are distinct issue numbers. */
  ghost predicate Clean(pages: Pages, k: nat) {
    (forall i: nat | i < k :: pages(i).Page?) && DistinctIssues(Nodes(pages, k))
  }

  /** Page `i` announces a further page under a usable new cursor. */
  predicate Advances(pages: Pages, i: nat) {
    pages(i).Page? && pages(i).hasNext && Usable(pages(i).endCursor, CursorAt(pages, i))
  }

  predicate Usable(next: Option<string>, cursor: Option<string>) {
    next.Some? && next.value != "" && next != cursor
  }

  /** A run that is still going when request `k` is sent. */
  ghost predicate Reaches(pages: Pages, k: nat) {
    Clean(pages, k) && forall i: nat | i < k :: Advances(pages, i)
  }

  /** Page `k` is the last of a complete collection. */
  ghost predicate LastPage(pages: Pages, k: nat) {
    Reaches(pages, k) && Clean(pages, k + 1) && !pages(k).hasNext
  }

  function Value(n: Option<int>): int { if n.Some? then n.value else 0 }

  function Values(nodes: seq<Option<int>>): (values: seq<int>)
    ensures |values| == |nodes| && forall i | 0 <= i < |nodes| :: values[i] == Value(nodes[i])
  {
    seq(|nodes|, i requires 0 <= i < |nodes| => Value(nodes[i]))
  }

  /** Why request `k` ends the run without a result. */
  ghost predicate FailsAt(pages: Pages, k: nat, failure: Failure) {
    && Reaches(pages, k)
    && match failure
       case RequestFailed => pages(k).Failed?
       case MalformedReply => pages(k).Malformed?
       case InvalidReference => pages(k).Page? && !Clean(pages, k + 1)
       case BadCursor => Clean(pages, k + 1) && pages(k).hasNext && !Usable(pages(k).endCursor, CursorAt(pages, k))
       case PageLimit => k == MAX_PAGES
  }

  /** One page's nodes, added one by one to those already seen; `None` at the first bad one. */
  method AddNodes(soFar: seq<Option<int>>, seen: set<int>, nodes: seq<Option<int>>)
    returns (result: Option<(seq<Option<int>>, set<int>)>)
    requires DistinctIssues(soFar) && forall n :: n in seen <==> Some(n) in soFar
    ensures result.Some? <==> DistinctIssues(soFar + nodes)
    ensures result.Some? ==> result.value.0 == soFar + nodes
    ensures result.Some? ==> forall n :: n in result.value.1 <==> Some(n) in soFar + nodes
  {
    var all, known := soFar, seen;
    for i := 0 to |nodes|
      invariant all == soFar + nodes[..i] && DistinctIssues(all)
      invariant forall n :: n in known <==> Some(n) in all
    {
      var number := IssueNumber(nodes[i]);
      if number.None? || number.value in known {
        NotDistinct(all, nodes[i], nodes[i + 1..]);
        assert soFar + nodes == all + [nodes[i]] + nodes[i + 1..];
        return None;
      }
      assert soFar + nodes[..i + 1] == all + [nodes[i]];
      all, known := all + [nodes[i]], known + {number.value};
    }
    assert nodes[..|nodes|] == nodes;
    return Some((all, known));
  }

  lemma NotDistinct(front: seq<Option<int>>, n: Option<int>, back: seq<Option<int>>)
    requires IssueNumber(n).None? || n in front
    ensures !DistinctIssues(front + [n] + back)
  {
    var all := front + [n] + back;
    assert all[|front|] == n;
    if n in front {
      var i :| 0 <= i < |front| && front[i] == n;
      assert all[i] == all[|front|];
    }
  }

  /** `closing_issues`: the whole list, or a failure and no partial result. */
  method ClosingIssues(pages: Pages) returns (r: Collected<seq<int>>)
    ensures r.Collected? ==>
      exists k: nat :: k < MAX_PAGES && LastPage(pages, k) && r.value == Values(Nodes(pages, k + 1))
    ensures r.NotCollected? ==> exists k: nat :: k <= MAX_PAGES && FailsAt(pages, k, r.failure)
    ensures r.Collected? <==> exists k: nat :: k < MAX_PAGES && LastPage(pages, k)
  {
    var result: seq<Option<int>>, seen: set<int> := [], {};
    var cursor: Option<string> := None;
    for k: int := 0 to MAX_PAGES
      invariant Reaches(pages, k) && result == Nodes(pages, k) && cursor == CursorAt(pages, k)
      invariant forall n :: n in seen <==> Some(n) in result
    {
      var reply := pages(k);
      if reply.Failed? {
        assert FailsAt(pages, k, RequestFailed);
        NoLastPage(pages, k, RequestFailed);
        return NotCollected(RequestFailed);
      }
      if reply.Malformed? {
        assert FailsAt(pages, k, MalformedReply);
        NoLastPage(pages, k, MalformedReply);
        return NotCollected(MalformedReply);
      }
      var added := AddNodes(result, seen, reply.nodes);
      assert Nodes(pages, k + 1) == result + reply.nodes;
      if added.None? {
        assert FailsAt(pages, k, InvalidReference);
        NoLastPage(pages, k, InvalidReference);
        return NotCollected(InvalidReference);
      }
      result, seen := added.value.0, added.value.1;
      if !reply.hasNext {
        assert LastPage(pages, k);
        return Collected(Values(result));
      }
      if !Usable(reply.endCursor, cursor) {
        assert FailsAt(pages, k, BadCursor);
        NoLastPage(pages, k, BadCursor);
        return NotCollected(BadCursor);
      }
      cursor := reply.endCursor;
    }
    assert FailsAt(pages, MAX_PAGES, PageLimit);
    NoLastPage(pages, MAX_PAGES, PageLimit);
    return NotCollected(PageLimit);
  }

  /** A collection has one last page, and a run that has one among its 20 requests does not fail. */
  lemma OneEnding(pages: Pages, k: nat, j: nat)
    requires LastPage(pages, k)
    ensures LastPage(pages, j) ==> j == k
    ensures k < MAX_PAGES ==> forall failure :: !FailsAt(pages, j, failure)
  {
    if j <= k {
      CleanPrefix(pages, j, k);
      if j < k {
        CleanPrefix(pages, j + 1, k);
        assert Advances(pages, j);
      }
    } else {
      assert !Advances(pages, k);
    }
  }

  lemma NoLastPage(pages: Pages, j: nat, failure: Failure)
    requires FailsAt(pages, j, failure)
    ensures forall k: nat | k < MAX_PAGES :: !LastPage(pages, k)
  {
    forall k: nat | k < MAX_PAGES ensures !LastPage(pages, k) {
      if LastPage(pages, k) { OneEnding(pages, k, j); }
    }
  }

  lemma {:induction false} CleanPrefix(pages: Pages, j: nat, k: nat)
    requires j <= k && Clean(pages, k)
    ensures Clean(pages, j)
  {
    if j < k {
      var shorter, longer := Nodes(pages, k - 1), Nodes(pages, k);
      assert longer[..|shorter|] == shorter;
      forall n | n in shorter ensures n in longer {
        var i :| 0 <= i < |shorter| && shorter[i] == n;
        assert longer[i] == n;
      }
      forall i, m | 0 <= i < m < |shorter| ensures shorter[i] != shorter[m] {
        assert longer[i] == shorter[i] && longer[m] == shorter[m];
      }
      CleanPrefix(pages, j, k - 1);
    }
  }
}
