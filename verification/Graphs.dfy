/** Finite directed graphs over step keys, as the compiler keeps them: a map from
    a key to the keys it waits for. A key without an entry waits for nothing. */
module Graphs {

  type Graph = map<string, seq<string>>

  function Successors(g: Graph, key: string): seq<string> {
    if key in g then g[key] else []
  }

  ghost predicate IsPath(g: Graph, p: seq<string>) {
    |p| > 0 && forall i, j :: 0 <= i < j < |p| && j == i + 1 ==> p[j] in Successors(g, p[i])
  }

  ghost predicate PathFromTo(g: Graph, p: seq<string>, a: string, b: string) {
    IsPath(g, p) && p[0] == a && p[|p| - 1] == b
  }

  ghost predicate Reaches(g: Graph, a: string, b: string) {
    exists p :: PathFromTo(g, p, a, b)
  }

  ghost predicate OnCycle(g: Graph, key: string) {
    exists p :: PathFromTo(g, p, key, key) && |p| > 1
  }

  /** Some cycle can be reached from one of the roots. */
  ghost predicate CycleFrom(g: Graph, roots: seq<string>) {
    exists r, k :: r in roots && Reaches(g, r, k) && OnCycle(g, k)
  }

  /** A ranking is closed under the edges of the graph and falls along each of them. */
  ghost predicate Ranks(g: Graph, rank: map<string, nat>) {
    forall k, n :: k in rank && n in Successors(g, k) ==> n in rank && rank[n] < rank[k]
  }

  /** One more than every rank given so far. */
  ghost function Above(rank: map<string, nat>): (n: nat)
    ensures forall k :: k in rank ==> rank[k] < n
  {
    if rank == map[] then 0
    else
      var k :| k in rank;
      var rest := Above(rank - {k});
      assert forall j :: j in rank && j != k ==> j in rank - {k} && rank[j] == (rank - {k})[j];
      if rank[k] < rest then rest else rank[k] + 1
  }

  ghost predicate Rankable(g: Graph, roots: seq<string>) {
    exists rank: map<string, nat> :: Ranks(g, rank) && forall r :: r in roots ==> r in rank
  }

  lemma ReachesSelf(g: Graph, a: string)
    ensures Reaches(g, a, a)
  {
    assert PathFromTo(g, [a], a, a);
  }

  lemma ReachesStep(g: Graph, a: string, b: string, c: string)
    requires Reaches(g, a, b) && c in Successors(g, b)
    ensures Reaches(g, a, c)
  {
    var p :| PathFromTo(g, p, a, b);
    assert PathFromTo(g, p + [c], a, c);
  }

  /** A set that holds the start and is closed under the edges holds all that is reached. */
  lemma {:induction false} ClosedSetHoldsPath(g: Graph, s: set<string>, p: seq<string>)
    requires IsPath(g, p) && p[0] in s
    requires forall k, n :: k in s && n in Successors(g, k) ==> n in s
    ensures forall i :: 0 <= i < |p| ==> p[i] in s
  {
    if |p| > 1 {
      assert p[1] in Successors(g, p[0]);
      ClosedSetHoldsPath(g, s, p[1..]);
      forall i | 0 <= i < |p| ensures p[i] in s {
        if i > 0 { assert p[i] == p[1..][i - 1]; }
      }
    }
  }

  /** Ranks fall by at least one for every edge of a path. */
  lemma {:induction false} RankFallsAlongPath(g: Graph, rank: map<string, nat>, p: seq<string>)
    requires Ranks(g, rank) && IsPath(g, p) && p[0] in rank
    ensures p[|p| - 1] in rank && rank[p[|p| - 1]] + |p| - 1 <= rank[p[0]]
  {
    if |p| > 1 {
      var q := p[..|p| - 1];
      RankFallsAlongPath(g, rank, q);
      assert q[|q| - 1] == p[|p| - 2];
    }
  }

  /** A graph with a ranking of the roots has no cycle that they reach. */
  lemma RankingExcludesCycles(g: Graph, roots: seq<string>)
    requires Rankable(g, roots)
    ensures !CycleFrom(g, roots)
  {
    if CycleFrom(g, roots) {
      var rank: map<string, nat> :| Ranks(g, rank) && forall r :: r in roots ==> r in rank;
      var r, k :| r in roots && Reaches(g, r, k) && OnCycle(g, k);
      var p :| PathFromTo(g, p, r, k);
      RankFallsAlongPath(g, rank, p);
      var c :| PathFromTo(g, c, k, k) && |c| > 1;
      RankFallsAlongPath(g, rank, c);
      assert false;
    }
  }

  /** A walk that never leaves a finite set repeats a node once it is longer than the set. */
  lemma {:induction false} LongWalkRepeats(s: set<string>, p: seq<string>)
    requires forall i :: 0 <= i < |p| ==> p[i] in s
    requires |p| > |s|
    ensures exists i, j :: 0 <= i < j < |p| && p[i] == p[j]
  {
    var last := p[|p| - 1];
    var front := p[..|p| - 1];
    if last in front {
      var i :| 0 <= i < |front| && front[i] == last;
      assert p[i] == p[|p| - 1];
    } else {
      forall i | 0 <= i < |front| ensures front[i] in s - {last} {
        assert front[i] == p[i];
      }
      LongWalkRepeats(s - {last}, front);
      var i, j :| 0 <= i < j < |front| && front[i] == front[j];
      assert p[i] == p[j];
    }
  }

  /** The key waits for a member of the set. */
  ghost predicate WaitsInside(g: Graph, s: set<string>, key: string) {
    exists m :: m in s && m in Successors(g, key)
  }

  lemma {:induction false} WalkInside(g: Graph, s: set<string>, start: string, n: nat) returns (p: seq<string>)
    requires start in s
    requires forall k {:trigger WaitsInside(g, s, k)} :: k in s ==> WaitsInside(g, s, k)
    ensures |p| == n + 1 && IsPath(g, p) && p[0] == start
    ensures forall i :: 0 <= i < |p| ==> p[i] in s
  {
    p := [start];
    if n > 0 {
      var q := WalkInside(g, s, start, n - 1);
      var last := q[|q| - 1];
      assert WaitsInside(g, s, last);
      var m :| m in s && m in Successors(g, last);
      p := q + [m];
    }
  }

  /** A nonempty finite set whose every member waits for another member holds a cycle. */
  lemma SelfFeedingSetHasCycle(g: Graph, s: set<string>)
    requires s != {}
    requires forall k {:trigger WaitsInside(g, s, k)} :: k in s ==> WaitsInside(g, s, k)
    ensures exists k :: k in s && OnCycle(g, k)
  {
    var start :| start in s;
    var p := WalkInside(g, s, start, |s|);
    LongWalkRepeats(s, p);
    var i, j :| 0 <= i < j < |p| && p[i] == p[j];
    var c := p[i..j + 1];
    assert PathFromTo(g, c, p[i], p[i]);
  }
}
