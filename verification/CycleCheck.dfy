/** The depth-first search that ends validateConcurrencyDependencies. */
module CycleCheck {
  import opened Graphs

  datatype Outcome = Acyclic | CycleAt(key: string)

  class Searcher {
    const dependencies: Graph
    var visiting: set<string>
    var visited: set<string>
    // Proof state: the finished keys with ranks that fall along every edge, and
    // every key the search can meet.
    ghost var rank: map<string, nat>
    ghost const nodes: set<string>

    constructor (dependencies: Graph, ghost roots: seq<string>)
      ensures Valid([]) && this.dependencies == dependencies
      ensures visiting == {} && visited == {}
      ensures forall r :: r in roots ==> r in nodes
    {
      this.dependencies := dependencies;
      visiting, visited := {}, {};
      rank := map[];
      nodes := (set r | r in roots) + dependencies.Keys +
               (set k, n | k in dependencies && n in dependencies[k] :: n);
    }

    /** The keys being visited are the nodes of a path, in order. */
    ghost predicate Valid(stack: seq<string>)
      reads this
    {
      && (forall k, n :: k in nodes && n in Successors(dependencies, k) ==> n in nodes)
      && (forall k :: k in visiting <==> k in stack)
      && (|stack| > 0 ==> IsPath(dependencies, stack))
      && visiting <= nodes
      && rank.Keys == visited
      && Ranks(dependencies, rank)
    }

    method Visit(key: string, ghost stack: seq<string>) returns (r: Outcome)
      requires Valid(stack) && key in nodes
      requires |stack| > 0 ==> key in Successors(dependencies, stack[|stack| - 1])
      modifies this
      ensures r.Acyclic? ==> Valid(stack) && visiting == old(visiting)
      ensures r.Acyclic? ==> old(visited) <= visited && key in visited
      ensures r.CycleAt? ==> OnCycle(dependencies, r.key)
      ensures r.CycleAt? ==> Reaches(dependencies, if |stack| > 0 then stack[0] else key, r.key)
      decreases nodes - visiting
    {
      hide Successors, IsPath, Reaches, OnCycle, Ranks;
      ghost var path := stack + [key];
      ExtendStack(dependencies, stack, key);
      if key in visiting {
        return CycleAt(key);
      }
      if key in visited {
        return Acyclic;
      }
      visiting := visiting + {key};
      var needs := Successors(dependencies, key);
      for i := 0 to |needs|
        invariant Valid(path) && visiting == old(visiting) + {key}
        invariant old(visited) <= visited
        invariant forall j :: 0 <= j < i ==> needs[j] in visited
      {
        var inner := Visit(needs[i], path);
        if inner.CycleAt? {
          return inner;
        }
      }
      visiting := visiting - {key};
      assert key !in stack;
      if key !in visited {
        RankAbove(dependencies, rank, key);
        rank := rank[key := Above(rank)];
      }
      visited := visited + {key};
      return Acyclic;
    }

    /** Visits every key of the upload in order; the verdict is exact. */
    method Search(order: seq<string>) returns (r: Outcome)
      requires Valid([]) && visiting == {} && visited == {}
      requires forall k :: k in order ==> k in nodes
      modifies this
      ensures r.Acyclic? <==> Rankable(dependencies, order)
      ensures r.CycleAt? <==> CycleFrom(dependencies, order)
      ensures r.CycleAt? ==> OnCycle(dependencies, r.key)
    {
      for i := 0 to |order|
        invariant Valid([]) && visiting == {}
        invariant forall j :: 0 <= j < i ==> order[j] in visited
      {
        var inner := Visit(order[i], []);
        if inner.CycleAt? {
          assert CycleFrom(dependencies, order);
          if Rankable(dependencies, order) { RankingExcludesCycles(dependencies, order); }
          return inner;
        }
      }
      assert forall k :: k in order ==> k in rank;
      RankingExcludesCycles(dependencies, order);
      return Acyclic;
    }
  }

  /** The stack of keys being visited is a path; meeting one of them again closes a cycle. */
  lemma ExtendStack(g: Graph, stack: seq<string>, key: string)
    requires |stack| > 0 ==> IsPath(g, stack) && key in Successors(g, stack[|stack| - 1])
    ensures IsPath(g, stack + [key])
    ensures Reaches(g, (stack + [key])[0], key)
    ensures key in stack ==> OnCycle(g, key)
  {
    var path := stack + [key];
    assert PathFromTo(g, path, path[0], key);
    if key in stack {
      var i :| 0 <= i < |stack| && stack[i] == key;
      assert PathFromTo(g, path[i..], key, key);
    }
  }

  lemma RankAbove(g: Graph, rank: map<string, nat>, key: string)
    requires Ranks(g, rank) && key !in rank
    requires forall n :: n in Successors(g, key) ==> n in rank
    ensures Ranks(g, rank[key := Above(rank)])
  {
  }
}
