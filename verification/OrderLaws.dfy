/** What orderJobs accepts and returns, said with the jobs' own dependencies; and in which order gates are collected. */
module OrderLaws {
  import opened Graphs
  import opened Pipelines
  import opened Ordering
  import opened JobOrder
  import opened GatePreparation

  /** The job with key a lists b among its dependencies. */
  predicate Lists(input: seq<Job>, a: string, b: string) {
    exists j :: j in input && j.key == a && b in j.dependencies
  }

  /** Each key is that of a job that needs the next. */
  ghost predicate NeedChain(input: seq<Job>, p: seq<string>) {
    |p| > 1 && forall i, j :: 0 <= i < j < |p| && j == i + 1 ==> Lists(input, p[i], p[j])
  }

  lemma NeedsOf(input: seq<Job>, j: Job)
    requires DistinctKeys(input) && j in input
    ensures forall b :: b in Successors(NeedsGraph(ByKey(input)), j.key) <==> b in j.dependencies
  {
    hide ByKey, DistinctKeys, Normalized;
    FiledJobs(input);
    NormalizedExactly(j);
    SameMultiset(Normalized(j).dependencies, j.dependencies);
  }

  lemma NeedsExactly(input: seq<Job>, a: string, b: string)
    requires DistinctKeys(input)
    ensures b in Successors(NeedsGraph(ByKey(input)), a) <==> Lists(input, a, b)
  {
    hide ByKey, DistinctKeys, Normalized;
    FiledJobs(input);
    if j :| j in input && j.key == a { SuccessorsOf(input, j, a, b); }
  }

  lemma SuccessorsOf(input: seq<Job>, j: Job, a: string, b: string)
    requires DistinctKeys(input) && j in input && j.key == a
    ensures b in Successors(NeedsGraph(ByKey(input)), a) <==> Lists(input, a, b)
  {
    hide ByKey, Successors, NeedsGraph;
    NeedsOf(input, j);
    forall k | k in input && k.key == a ensures k == j {
      var m :| 0 <= m < |input| && input[m] == k;
      var n :| 0 <= n < |input| && input[n] == j;
    }
  }

  /** Needs have no cycle exactly if no chain of jobs, each needing the next, leads back to where it began. */
  lemma AcyclicExactly(input: seq<Job>)
    requires DistinctKeys(input)
    ensures AcyclicNeeds(input) <==> forall p :: NeedChain(input, p) ==> p[0] != p[|p| - 1]
  {
    hide ByKey, DistinctKeys, Normalized, Successors, NeedsGraph, Lists;
    var g := NeedsGraph(ByKey(input));
    forall a, b ensures b in Successors(g, a) <==> Lists(input, a, b) { NeedsExactly(input, a, b); }
    if !AcyclicNeeds(input) {
      var k :| k in ByKey(input) && OnCycle(g, k);
      var p :| PathFromTo(g, p, k, k) && |p| > 1;
      assert NeedChain(input, p);
    }
    if p :| NeedChain(input, p) && p[0] == p[|p| - 1] {
      assert PathFromTo(g, p, p[0], p[0]);
      assert Lists(input, p[0], p[1]);
      ListerIsFiled(input, p[0], p[1]);
    }
  }

  lemma ListerIsFiled(input: seq<Job>, a: string, b: string)
    requires DistinctKeys(input) && Lists(input, a, b)
    ensures a in ByKey(input)
  {
    hide ByKey;
    FiledJobs(input);
  }

  /** In an accepted order every job comes after the jobs of the upload that it needs. */
  lemma NeedsComeFirst(compilerStep: string, input: seq<Job>, existing: set<string>, r: Result<seq<Job>>, n: nat,
                       d: string) returns (m: nat)
    requires OrderedAs(compilerStep, input, existing, r) && r.Ok? && n < |r.value|
    requires d in r.value[n].dependencies && exists j :: j in input && j.key == d
    ensures m < n && r.value[m].key == d
  {
    hide ByKey, ValidJob, Normalized, AcyclicNeeds, DistinctDigests, Distinct;
    var order, g := KeysOf(r.value), NeedsGraph(ByKey(input));
    assert r.value[n] in r.value;
    var i :| i in input && r.value[n] == Normalized(i);
    NormalKeys(i);
    assert d in i.dependencies && d in KeySet(input);
    NeedsOf(input, i);
    assert d in order[..n];
    m :| 0 <= m < n && order[..n][m] == d;
  }

  lemma NormalKeys(j: Job)
    ensures Normalized(j).key == j.key && forall d :: d in Normalized(j).dependencies <==> d in j.dependencies
  {
    NormalizedExactly(j);
    SameMultiset(Normalized(j).dependencies, j.dependencies);
  }

  // ----- gates in the order of their declarations -----

  /** The places of the declarations at which the scopes are first named. */
  ghost predicate Introduces(ds: seq<Declaration>, ids: seq<string>, at: seq<nat>) {
    && |at| == |ids|
    && (forall x, y :: 0 <= x < y < |at| ==> at[x] < at[y])
    && (forall x :: 0 <= x < |at| ==> at[x] < |ds| && ds[at[x]].gate.id == ids[x])
    && (forall x, k :: 0 <= x < |at| && 0 <= k < at[x] ==> ds[k].gate.id != ids[x])
    && forall k :: 0 <= k < |ds| ==> ds[k].gate.id in ids
  }

  lemma {:induction false} FirstsIntroduce(ds: seq<Declaration>) returns (at: seq<nat>)
    ensures Introduces(ds, FirstDeclared(ds), at)
  {
    hide Introduces, DeclaredIds;
    if ds == [] {
      at := [];
      NoneNamed();
    } else {
      var front, last := ds[..|ds| - 1], ds[|ds| - 1];
      assert ds == front + [last];
      at := FirstsIntroduce(front);
      if last.gate.id in DeclaredIds(front) {
        NamedAgain(front, last, FirstDeclared(front), at);
        assert FirstDeclared(ds) == FirstDeclared(front);
      } else {
        NewlyNamed(front, last, FirstDeclared(front), at);
        at := at + [|front|];
      }
    }
  }

  lemma NoneNamed()
    ensures Introduces([], [], [])
  {
  }

  lemma NamedAgain(front: seq<Declaration>, last: Declaration, ids: seq<string>, at: seq<nat>)
    requires Introduces(front, ids, at) && last.gate.id in DeclaredIds(front)
    ensures Introduces(front + [last], ids, at)
  {
    var d :| d in front && d.gate.id == last.gate.id;
    var k :| 0 <= k < |front| && front[k] == d;
    assert last.gate.id in ids;
  }

  lemma NewlyNamed(front: seq<Declaration>, last: Declaration, ids: seq<string>, at: seq<nat>)
    requires Introduces(front, ids, at) && last.gate.id !in DeclaredIds(front)
    ensures Introduces(front + [last], ids + [last.gate.id], at + [|front|])
  {
    forall k | 0 <= k < |front| ensures front[k].gate.id != last.gate.id { assert front[k] in front; }
  }

  lemma {:induction false} QueueOfFirst(ds: seq<Declaration>, id: string, n: nat)
    requires n < |ds| && ds[n].gate.id == id && forall k :: 0 <= k < n ==> ds[k].gate.id != id
    ensures FirstQueue(ds, id) == ds[n].queue
  {
    var last := |ds| - 1;
    if n < last {
      assert ds[..last][n] in ds[..last];
      QueueOfFirst(ds[..last], id, n);
    } else {
      assert forall d :: d in ds[..last] ==> d.gate.id != id;
    }
  }

  /** The jobs at the places where the scope is named, in order. */
  ghost predicate Joins(ds: seq<Declaration>, id: string, members: seq<string>, at: seq<nat>) {
    && |at| == |members|
    && (forall x, y :: 0 <= x < y < |at| ==> at[x] < at[y])
    && (forall x :: 0 <= x < |at| ==> at[x] < |ds| && ds[at[x]].gate.id == id && ds[at[x]].job == members[x])
    && forall k :: 0 <= k < |ds| && ds[k].gate.id == id ==> k in at
  }

  lemma {:induction false} MembersJoin(ds: seq<Declaration>, id: string) returns (at: seq<nat>)
    ensures Joins(ds, id, MemberKeys(ds, id), at)
  {
    if ds == [] {
      at := [];
    } else {
      var front, last := ds[..|ds| - 1], ds[|ds| - 1];
      assert ds == front + [last];
      at := MembersJoin(front, id);
      if last.gate.id == id { at := at + [|front|]; }
    }
  }

  /** The gates come in the order in which the jobs first name them; a gate has the group, the scope around it and
      the queue of the job that names it first; all who name it agree on the rest. */
  lemma GatesInOrder(jobs: seq<Job>, gates: seq<PreparedGate>, indexes: map<string, nat>) returns (at: seq<nat>)
    requires Collected(Declarations(jobs), gates, indexes)
    ensures var ds := Declarations(jobs);
            && |at| == |gates|
            && (forall x, y :: 0 <= x < y < |at| ==> at[x] < at[y])
            && forall x :: 0 <= x < |gates| ==>
                 && at[x] < |ds| && ds[at[x]].gate.id == gates[x].id && ds[at[x]].gate.group == gates[x].group
                 && ds[at[x]].parent == gates[x].parentID && ds[at[x]].queue == gates[x].queue
                 && (forall k :: 0 <= k < at[x] ==> ds[k].gate.id != gates[x].id)
                 && forall k :: 0 <= k < |ds| && ds[k].gate.id == gates[x].id ==>
                      && ds[k].gate.group == gates[x].group && ds[k].parent == gates[x].parentID
                      && ds[k].gate.cancelInProgress == gates[x].cancelInProgress
  {
    hide Declarations, MemberKeys, FirstQueue, FirstDeclared, ParentsPrecede;
    var ds := Declarations(jobs);
    at := FirstsIntroduce(ds);
    forall x | 0 <= x < |gates| ensures ds[at[x]].queue == gates[x].queue { QueueOfFirst(ds, gates[x].id, at[x]); }
  }
}
