/** Which test-called function leads to each function: a breadth-first search
    over the call graph, started from every tested function at once. */
module Reach {
  /** The functions defined and, for each, the names it calls in the order visited. */
  type Calls = map<string, seq<string>>

  /** How far a function is from a tested one, and the place of that one in the list. */
  datatype Rank = Rank(steps: nat, root: nat)

  predicate AtMost(a: Rank, b: Rank) { a.steps < b.steps || (a.steps == b.steps && a.root <= b.root) }

  function After(r: Rank): Rank { Rank(r.steps + 1, r.root) }

  /** `f` is reached from `root` in exactly `n` calls between defined functions. */
  ghost predicate ReachesIn(g: Calls, root: string, f: string, n: nat)
    decreases n
  {
    if n == 0 then f == root
    else f in g && exists mid :: mid in g && f in g[mid] && ReachesIn(g, root, mid, n - 1)
  }

  ghost predicate ReachedAt(g: Calls, tested: seq<string>, f: string, r: Rank) {
    r.root < |tested| && ReachesIn(g, tested[r.root], f, r.steps)
  }

  ghost predicate Reachable(g: Calls, tested: seq<string>, f: string) {
    exists r :: ReachedAt(g, tested, f, r)
  }

  /** `root` is the first listed of the tested functions nearest to `f`. */
  ghost predicate Nearest(g: Calls, tested: seq<string>, f: string, root: string) {
    exists r :: ReachedAt(g, tested, f, r) && root == tested[r.root]
      && forall other :: ReachedAt(g, tested, f, other) ==> AtMost(r, other)
  }

  /** Defined on exactly the reachable functions, each with its nearest tested one. */
  ghost predicate Answers(g: Calls, tested: seq<string>, reached: map<string, string>) {
    && (forall f :: f in reached <==> Reachable(g, tested, f))
    && (forall f :: f in reached ==> Nearest(g, tested, f, reached[f]))
  }

  ghost predicate Distinct(s: seq<string>) {
    forall i, j :: 0 <= i < j < |s| ==> s[i] != s[j]
  }

  // -------------------------------------------------------------------------
  // The search.
  // -------------------------------------------------------------------------

  /** Every entry names the tested function its rank says, at a distance that is real. */
  ghost predicate Sound(g: Calls, tested: seq<string>, reached: map<string, string>, rank: map<string, Rank>) {
    && reached.Keys == rank.Keys && reached.Keys <= g.Keys
    && forall f :: f in rank ==> ReachedAt(g, tested, f, rank[f]) && reached[f] == tested[rank[f].root]
  }

  /** The frontier holds, in rank order, the entries not yet expanded. */
  ghost predicate Ordered(frontier: seq<string>, done: set<string>, rank: map<string, Rank>) {
    && Distinct(frontier)
    && (forall f :: f in rank <==> f in done || f in frontier)
    && (forall f :: f in done ==> f !in frontier)
    && (forall i, j :: 0 <= i < j < |frontier| ==> AtMost(rank[frontier[i]], rank[frontier[j]]))
    && (forall d, i :: d in done && 0 <= i < |frontier| ==> AtMost(rank[d], rank[frontier[i]]))
  }

  /** No entry is ranked beyond `bound`. */
  ghost predicate Bounded(rank: map<string, Rank>, bound: Rank) {
    forall f :: f in rank ==> AtMost(rank[f], bound)
  }

  ghost predicate Expanded(g: Calls, rank: map<string, Rank>, d: string, upTo: nat)
    requires d in g && upTo <= |g[d]| && d in rank
  {
    forall k :: 0 <= k < upTo && g[d][k] in g ==> g[d][k] in rank && AtMost(rank[g[d][k]], After(rank[d]))
  }

  ghost predicate AllExpanded(g: Calls, done: set<string>, rank: map<string, Rank>) {
    forall d :: d in done ==> d in g && d in rank && Expanded(g, rank, d, |g[d]|)
  }

  ghost predicate RootsRanked(tested: seq<string>, rank: map<string, Rank>) {
    forall i :: 0 <= i < |tested| ==> tested[i] in rank && AtMost(rank[tested[i]], Rank(0, i))
  }

  lemma RanksCoverRuns(g: Calls, tested: seq<string>, rank: map<string, Rank>, f: string, r: Rank)
    requires RootsRanked(tested, rank) && AllExpanded(g, rank.Keys, rank) && ReachedAt(g, tested, f, r)
    ensures f in rank && AtMost(rank[f], r)
    decreases r.steps
  {
    if r.steps > 0 {
      var mid :| mid in g && f in g[mid] && ReachesIn(g, tested[r.root], mid, r.steps - 1);
      var before := Rank(r.steps - 1, r.root);
      assert ReachedAt(g, tested, mid, before);
      RanksCoverRuns(g, tested, rank, mid, before);
      var k :| 0 <= k < |g[mid]| && g[mid][k] == f;
      assert Expanded(g, rank, mid, |g[mid]|);
    }
  }

  /** `f` was taken off the frontier and its first `k` callees were looked at. */
  ghost predicate Expanding(g: Calls, tested: seq<string>, f: string, k: nat, frontier: seq<string>,
                            reached: map<string, string>, done: set<string>, rank: map<string, Rank>) {
    && Sound(g, tested, reached, rank) && Ordered(frontier, done, rank)
    && f in done && f in rank && f in g && k <= |g[f]| && Expanded(g, rank, f, k)
    && AllExpanded(g, done - {f}, rank) && RootsRanked(tested, rank) && Bounded(rank, After(rank[f]))
  }

  /** The state between two turns of the search. */
  ghost predicate Searching(g: Calls, tested: seq<string>, frontier: seq<string>,
                            reached: map<string, string>, done: set<string>, rank: map<string, Rank>) {
    && Sound(g, tested, reached, rank) && Ordered(frontier, done, rank)
    && AllExpanded(g, done, rank) && RootsRanked(tested, rank)
    && (frontier != [] ==> Bounded(rank, After(rank[frontier[0]])))
  }

  lemma ExpandingStep(g: Calls, tested: seq<string>, f: string, k: nat, frontier: seq<string>,
                      reached: map<string, string>, done: set<string>, rank: map<string, Rank>)
    requires Expanding(g, tested, f, k, frontier, reached, done, rank) && k < |g[f]|
    ensures f in reached && f in rank
    ensures var c := g[f][k];
      if c in g && c !in reached
      then Expanding(g, tested, f, k + 1, frontier + [c], reached[c := reached[f]], done, rank[c := After(rank[f])])
      else Expanding(g, tested, f, k + 1, frontier, reached, done, rank)
  {
    if g[f][k] in g && g[f][k] !in reached {
      Discover(g, tested, f, g[f][k], frontier, reached, done, rank);
      DiscoverKeeps(g, tested, f, k, done - {f}, rank);
    }
  }

  lemma ExpandingEnd(g: Calls, tested: seq<string>, f: string, frontier: seq<string>,
                     reached: map<string, string>, done: set<string>, rank: map<string, Rank>)
    requires f in g && Expanding(g, tested, f, |g[f]|, frontier, reached, done, rank)
    ensures Searching(g, tested, frontier, reached, done, rank)
  {
    if frontier != [] {
      assert AtMost(rank[f], rank[frontier[0]]);
      forall x | x in rank ensures AtMost(rank[x], After(rank[frontier[0]])) {
        assert AtMost(rank[x], After(rank[f]));
      }
    }
    assert AllExpanded(g, done, rank) by {
      forall d | d in done ensures d in g && d in rank && Expanded(g, rank, d, |g[d]|) {
        if d != f { assert d in done - {f}; }
      }
    }
  }

  lemma ExpandingStart(g: Calls, tested: seq<string>, frontier: seq<string>,
                       reached: map<string, string>, done: set<string>, rank: map<string, Rank>)
    requires Searching(g, tested, frontier, reached, done, rank) && frontier != []
    ensures frontier[0] in g && frontier[0] !in done
    ensures Expanding(g, tested, frontier[0], 0, frontier[1..], reached, done + {frontier[0]}, rank)
  {
    Pop(frontier, done, rank);
    assert done + {frontier[0]} - {frontier[0]} == done;
  }

  /** Expands `f`: each new callee joins the end of the frontier. */
  method Expand(g: Calls, tested: seq<string>, f: string, queue: seq<string>, found: map<string, string>,
                ghost done: set<string>, ghost ranks: map<string, Rank>)
    returns (frontier: seq<string>, reached: map<string, string>, ghost rank: map<string, Rank>)
    requires f in g && Expanding(g, tested, f, 0, queue, found, done, ranks)
    ensures Searching(g, tested, frontier, reached, done, rank)
  {
    hide Expanding, Searching;
    frontier, reached, rank := queue, found, ranks;
    var callees := g[f];
    for k := 0 to |callees|
      invariant Expanding(g, tested, f, k, frontier, reached, done, rank)
    {
      var callee := callees[k];
      ExpandingStep(g, tested, f, k, frontier, reached, done, rank);
      if callee in g && callee !in reached {
        rank := rank[callee := After(rank[f])];
        reached := reached[callee := reached[f]];
        frontier := frontier + [callee];
      }
    }
    ExpandingEnd(g, tested, f, frontier, reached, done, rank);
  }

  lemma Discover(g: Calls, tested: seq<string>, f: string, callee: string, frontier: seq<string>,
                 reached: map<string, string>, done: set<string>, rank: map<string, Rank>)
    requires Sound(g, tested, reached, rank) && Ordered(frontier, done, rank) && f in done && f in rank && f in g
    requires callee in g && callee in g[f] && callee !in reached && Bounded(rank, After(rank[f]))
    ensures Sound(g, tested, reached[callee := reached[f]], rank[callee := After(rank[f])])
    ensures Ordered(frontier + [callee], done, rank[callee := After(rank[f])])
  {
    assert ReachesIn(g, tested[rank[f].root], callee, rank[f].steps + 1);
    assert ReachedAt(g, tested, callee, After(rank[f]));
    DiscoverOrdered(f, callee, frontier, done, rank);
  }

  lemma DiscoverKeeps(g: Calls, tested: seq<string>, f: string, k: nat, done: set<string>, rank: map<string, Rank>)
    requires f in g && k < |g[f]| && f in rank && g[f][k] !in rank && Expanded(g, rank, f, k)
    requires AllExpanded(g, done, rank) && RootsRanked(tested, rank) && Bounded(rank, After(rank[f]))
    ensures var ranks := rank[g[f][k] := After(rank[f])];
      && Expanded(g, ranks, f, k + 1)
      && AllExpanded(g, done, ranks) && RootsRanked(tested, ranks) && Bounded(ranks, After(ranks[f]))
  {
    var ranks := rank[g[f][k] := After(rank[f])];
    forall d | d in done ensures d in g && d in ranks && Expanded(g, ranks, d, |g[d]|) {
      assert Expanded(g, rank, d, |g[d]|);
    }
  }

  lemma DiscoverOrdered(f: string, callee: string, frontier: seq<string>, done: set<string>, rank: map<string, Rank>)
    requires Ordered(frontier, done, rank) && f in rank && callee !in rank && Bounded(rank, After(rank[f]))
    ensures Ordered(frontier + [callee], done, rank[callee := After(rank[f])])
  {
    var longer, ranks := frontier + [callee], rank[callee := After(rank[f])];
    assert longer[|frontier|] == callee;
    assert forall i :: 0 <= i < |frontier| ==> longer[i] == frontier[i] && frontier[i] in rank;
    forall x ensures x in ranks <==> x in done || x in longer {}
  }

  function PlaceOf(tested: seq<string>, f: string): (i: nat)
    requires f in tested
    ensures i < |tested| && tested[i] == f
  {
    if tested[0] == f then 0 else 1 + PlaceOf(tested[1..], f)
  }

  /** Where the search starts: every tested function reaches itself. */
  ghost predicate AtStart(tested: seq<string>, reached: map<string, string>, rank: map<string, Rank>) {
    && Distinct(tested)
    && (forall f :: f in reached <==> f in tested)
    && (forall f :: f in rank <==> f in tested)
    && (forall f :: f in reached ==> reached[f] == f)
    && (forall i :: 0 <= i < |tested| ==> tested[i] in rank && rank[tested[i]] == Rank(0, i))
  }

  lemma StartSound(g: Calls, tested: seq<string>, reached: map<string, string>, rank: map<string, Rank>)
    requires AtStart(tested, reached, rank) && forall f :: f in tested ==> f in g
    ensures Sound(g, tested, reached, rank)
  {
    forall f | f in rank ensures ReachedAt(g, tested, f, rank[f]) && reached[f] == tested[rank[f].root] {
      var i :| 0 <= i < |tested| && tested[i] == f;
    }
    assert reached.Keys == rank.Keys;
  }

  lemma StartOrdered(tested: seq<string>, reached: map<string, string>, rank: map<string, Rank>)
    requires AtStart(tested, reached, rank)
    ensures Ordered(tested, {}, rank)
  {}

  lemma Start(g: Calls, tested: seq<string>, reached: map<string, string>, rank: map<string, Rank>)
    requires AtStart(tested, reached, rank) && forall f :: f in tested ==> f in g
    ensures Searching(g, tested, tested, reached, {}, rank)
  {
    StartSound(g, tested, reached, rank);
    StartOrdered(tested, reached, rank);
    forall f | f in rank && tested != [] ensures AtMost(rank[f], After(rank[tested[0]])) {
      var i :| 0 <= i < |tested| && tested[i] == f;
    }
  }

  lemma PlacesAtStart(tested: seq<string>, reached: map<string, string>, rank: map<string, Rank>)
    requires Distinct(tested)
    requires reached == map f | f in tested :: f
    requires rank == map f | f in tested :: Rank(0, PlaceOf(tested, f))
    ensures AtStart(tested, reached, rank)
  {
    forall i | 0 <= i < |tested| ensures tested[i] in rank && rank[tested[i]] == Rank(0, i) {
      assert PlaceOf(tested, tested[i]) == i;
    }
  }

  lemma Pop(frontier: seq<string>, done: set<string>, rank: map<string, Rank>)
    requires frontier != [] && Ordered(frontier, done, rank)
    ensures frontier[0] !in done && Ordered(frontier[1..], done + {frontier[0]}, rank)
  {
    var rest := frontier[1..];
    assert forall i :: 0 <= i < |rest| ==> rest[i] == frontier[i + 1];
    assert frontier == [frontier[0]] + rest;
  }

  lemma Finish(g: Calls, tested: seq<string>, reached: map<string, string>, done: set<string>, rank: map<string, Rank>)
    requires Searching(g, tested, [], reached, done, rank)
    ensures Answers(g, tested, reached)
  {
    assert rank.Keys == done;
    forall f, r | ReachedAt(g, tested, f, r) ensures f in rank && AtMost(rank[f], r) {
      RanksCoverRuns(g, tested, rank, f, r);
    }
  }

  /** Ends with exactly the functions reachable from tested ones, each mapped to
      the first listed of its nearest tested functions. */
  method ReachedFrom(g: Calls, tested: seq<string>) returns (reached: map<string, string>)
    requires Distinct(tested) && forall f :: f in tested ==> f in g
    ensures Answers(g, tested, reached)
  {
    reached := map f | f in tested :: f;
    var frontier := tested;
    ghost var done: set<string> := {};
    ghost var rank := map f | f in tested :: Rank(0, PlaceOf(tested, f));
    PlacesAtStart(tested, reached, rank);
    Start(g, tested, reached, rank);
    while frontier != []
      invariant Searching(g, tested, frontier, reached, done, rank)
      decreases g.Keys - done
    {
      hide Expanding, Searching;
      var here := frontier[0];
      ExpandingStart(g, tested, frontier, reached, done, rank);
      done := done + {here};
      frontier, reached, rank := Expand(g, tested, here, frontier[1..], reached, done, rank);
    }
    Finish(g, tested, reached, done, rank);
  }

  // -------------------------------------------------------------------------
  // Every run names the same function.
  // -------------------------------------------------------------------------

  /** The same functions making the same calls, visited in any order. */
  ghost predicate SameCalls(g: Calls, h: Calls) {
    g.Keys == h.Keys && forall f, c :: f in g ==> (c in g[f] <==> c in h[f])
  }

  lemma {:induction false} SameReach(g: Calls, h: Calls, root: string, f: string, n: nat)
    requires SameCalls(g, h) && ReachesIn(g, root, f, n)
    ensures ReachesIn(h, root, f, n)
    decreases n
  {
    if n > 0 {
      var mid :| mid in g && f in g[mid] && ReachesIn(g, root, mid, n - 1);
      SameReach(g, h, root, mid, n - 1);
      assert f in h[mid];
    }
  }

  lemma SameReachedAt(g: Calls, h: Calls, tested: seq<string>, f: string, r: Rank)
    requires SameCalls(g, h)
    ensures ReachedAt(g, tested, f, r) <==> ReachedAt(h, tested, f, r)
  {
    if ReachedAt(g, tested, f, r) { SameReach(g, h, tested[r.root], f, r.steps); }
    if ReachedAt(h, tested, f, r) { SameReach(h, g, tested[r.root], f, r.steps); }
  }

  lemma NearestUnique(g: Calls, tested: seq<string>, f: string, first: string, second: string)
    requires Nearest(g, tested, f, first) && Nearest(g, tested, f, second)
    ensures first == second
  {
    var r :| ReachedAt(g, tested, f, r) && first == tested[r.root]
      && forall other :: ReachedAt(g, tested, f, other) ==> AtMost(r, other);
    var q :| ReachedAt(g, tested, f, q) && second == tested[q.root]
      && forall other :: ReachedAt(g, tested, f, other) ==> AtMost(q, other);
    assert AtMost(r, q) && AtMost(q, r);
  }

  lemma SameNearest(g: Calls, h: Calls, tested: seq<string>, f: string, root: string)
    requires SameCalls(g, h) && Nearest(g, tested, f, root)
    ensures Nearest(h, tested, f, root)
  {
    forall r ensures ReachedAt(g, tested, f, r) <==> ReachedAt(h, tested, f, r) {
      SameReachedAt(g, h, tested, f, r);
    }
    var r :| ReachedAt(g, tested, f, r) && root == tested[r.root]
      && forall other :: ReachedAt(g, tested, f, other) ==> AtMost(r, other);
    assert ReachedAt(h, tested, f, r);
  }

  lemma SameReachable(g: Calls, h: Calls, tested: seq<string>, f: string)
    requires SameCalls(g, h) && Reachable(g, tested, f)
    ensures Reachable(h, tested, f)
  {
    var r :| ReachedAt(g, tested, f, r);
    SameReachedAt(g, h, tested, f, r);
  }

  /** Two runs over the same calls agree, in whatever order they visit callees. */
  lemma RunsAgree(g: Calls, h: Calls, tested: seq<string>, first: map<string, string>, second: map<string, string>)
    requires SameCalls(g, h) && Answers(g, tested, first) && Answers(h, tested, second)
    ensures first == second
  {
    hide Nearest, Reachable, SameCalls;
    SameCallsBack(g, h);
    forall f ensures f in first <==> f in second {
      if f in first { SameReachable(g, h, tested, f); }
      if f in second { SameReachable(h, g, tested, f); }
    }
    forall f | f in first ensures first[f] == second[f] {
      SameNearest(g, h, tested, f, first[f]);
      NearestUnique(h, tested, f, first[f], second[f]);
    }
  }

  lemma SameCallsBack(g: Calls, h: Calls)
    requires SameCalls(g, h)
    ensures SameCalls(h, g)
  {}
}
