/** validateConcurrencyDependencies: the graph of dependencies and queue order of an
    upload, and the verdict that it can be ordered. */
module QueueCheck {
  import opened Graphs
  import opened Pipelines
  import opened Uploads
  import opened GatePreparation
  import opened StepNeeds
  import opened CycleCheck

  // ----- the entries of the queues -----

  function OpenKeys(gates: seq<PreparedGate>): map<string, string> {
    if gates == [] then map[]
    else
      var last := gates[|gates| - 1];
      OpenKeys(gates[..|gates| - 1])[last.id := last.openKey]
  }

  function OpenEntry(w: PreparedWorkflow, x: nat, compilerStep: string): Step
    requires x < |w.gates|
  {
    var gate := w.gates[x];
    Step(gate.openKey, gate.group, OpenNeeds(ScopeOf(w, gate, OpenKeys(w.gates[..x]), compilerStep),
      gate.prerequisites))
  }

  function CloseEntry(w: PreparedWorkflow, x: nat): Step
    requires x < |w.gates|
  {
    Step(w.gates[x].closeKey, w.gates[x].group, CloseNeeds(w, w.gates[x]))
  }

  function JobEntry(w: PreparedWorkflow, n: nat, compilerStep: string): Step
    requires n < |w.jobs|
  {
    Step(w.jobs[n].key, w.jobs[n].concurrencyGroup, JobNeeds(w, w.jobs[n], OpenKeys(w.gates), compilerStep))
  }

  function WorkflowGateEntries(w: PreparedWorkflow, openNeeds: seq<Dependency>, compilerStep: string): seq<Step> {
    if w.gate.None? then []
    else [Step(w.gateOpenKey, w.gate.value.group, openNeeds),
          Step(w.gateCloseKey, w.gate.value.group, WorkflowCloseNeeds(w, compilerStep))]
  }

  function GateEntries(w: PreparedWorkflow, n: nat, compilerStep: string): (es: seq<Step>)
    requires n <= |w.gates|
    ensures |es| == 2 * n
  {
    if n == 0 then []
    else GateEntries(w, n - 1, compilerStep) + [OpenEntry(w, n - 1, compilerStep), CloseEntry(w, n - 1)]
  }

  function JobEntries(w: PreparedWorkflow, n: nat, compilerStep: string): (es: seq<Step>)
    requires n <= |w.jobs|
    ensures |es| == n
  {
    if n == 0 then [] else JobEntries(w, n - 1, compilerStep) + [JobEntry(w, n - 1, compilerStep)]
  }

  /** The opening step of the workflow's own gate is checked without dependencies. */
  function Entries(w: PreparedWorkflow, compilerStep: string): seq<Step> {
    WorkflowGateEntries(w, [], compilerStep) + GateEntries(w, |w.gates|, compilerStep) +
      JobEntries(w, |w.jobs|, compilerStep)
  }

  function AllEntries(ws: seq<PreparedWorkflow>, compilerStep: string): seq<Step> {
    if ws == [] then []
    else AllEntries(ws[..|ws| - 1], compilerStep) + Entries(ws[|ws| - 1], compilerStep)
  }

  // ----- the graph -----

  /** The entry that is last in the group so far. */
  function Prior(entries: seq<Step>, group: string): string {
    if entries == [] then ""
    else if entries[|entries| - 1].group == group then entries[|entries| - 1].key
    else Prior(entries[..|entries| - 1], group)
  }

  function NeedKeys(needs: seq<Dependency>): (keys: seq<string>)
    ensures |keys| == |needs| && forall i :: 0 <= i < |needs| ==> keys[i] == needs[i].step
  {
    seq(|needs|, i requires 0 <= i < |needs| => needs[i].step)
  }

  function Awaited(entries: seq<Step>, i: nat): seq<string>
    requires i < |entries|
  {
    NeedKeys(entries[i].needs) +
    if entries[i].group != "" && Prior(entries[..i], entries[i].group) != ""
    then [Prior(entries[..i], entries[i].group)]
    else []
  }

  ghost predicate NamedSteps(entries: seq<Step>) {
    DistinctSteps(entries) && forall i :: 0 <= i < |entries| ==> entries[i].key != ""
  }

  class Queues {
    var dependencies: Graph
    var previous: map<string, string>
    var order: seq<string>
    ghost var entries: seq<Step>

    constructor ()
      ensures Valid() && entries == []
    {
      dependencies, previous, order, entries := map[], map[], [], [];
    }

    ghost predicate Valid()
      reads this
    {
      && |order| == |entries| && NamedSteps(entries)
      && (forall i :: 0 <= i < |entries| ==> order[i] == entries[i].key)
      && (forall k :: k in dependencies <==> k in order)
      && (forall i :: 0 <= i < |entries| ==>
            entries[i].key in dependencies && dependencies[entries[i].key] == Awaited(entries, i))
      && (forall group :: group != "" ==> Lookup(previous, group) == Prior(entries, group))
    }

    method Add(key: string, group: string, needs: seq<Dependency>)
      requires Valid() && NamedSteps(entries + [Step(key, group, needs)])
      modifies this
      ensures Valid() && entries == old(entries) + [Step(key, group, needs)]
    {
      hide Prior;
      ghost var grown := entries + [Step(key, group, needs)];
      Grow(entries, Step(key, group, needs));
      order := order + [key];
      var awaited := [];
      for i := 0 to |needs|
        invariant awaited == NeedKeys(needs[..i])
      {
        awaited := awaited + [needs[i].step];
      }
      assert needs[..|needs|] == needs;
      if group != "" {
        var prior := Lookup(previous, group);
        if prior != "" {
          awaited := awaited + [prior];
        }
        previous := previous[group := key];
      }
      dependencies := dependencies[key := awaited];
      entries := grown;
    }
  }

  lemma Grow(entries: seq<Step>, e: Step)
    requires NamedSteps(entries + [e])
    ensures var grown := entries + [e];
            && NamedSteps(entries)
            && (forall i :: 0 <= i < |entries| ==>
              entries[i].key != e.key && grown[i] == entries[i] && Awaited(grown, i) == Awaited(entries, i))
            && Awaited(grown, |entries|) ==
                 NeedKeys(e.needs) + (if e.group != "" && Prior(entries, e.group) != "" then [Prior(entries, e.group)]
                   else [])
            && (forall group :: Prior(grown, group) == if e.group == group then e.key else Prior(entries, group))
  {
    hide NeedKeys, Prior, Awaited, NamedSteps;
    var grown := entries + [e];
    assert grown[|entries|] == e;
    assert grown[..|entries|] == entries;
    NamedPrefix(grown, |entries|);
    forall i | 0 <= i < |entries|
      ensures entries[i].key != e.key && grown[i] == entries[i] && Awaited(grown, i) == Awaited(entries, i)
    {
      DifferentKeys(grown, i, |entries|);
      assert grown[..i] == entries[..i];
      AwaitedSame(grown, entries, i);
    }
    AwaitedIs(grown, |entries|);
    forall group ensures Prior(grown, group) == if e.group == group then e.key else Prior(entries, group) {
      PriorIs(grown, group);
    }
  }

  lemma DifferentKeys(entries: seq<Step>, i: nat, j: nat)
    requires NamedSteps(entries) && i < j < |entries|
    ensures entries[i].key != entries[j].key
  {
  }

  lemma AwaitedSame(a: seq<Step>, b: seq<Step>, i: nat)
    requires i < |a| && i < |b| && a[i] == b[i] && a[..i] == b[..i]
    ensures Awaited(a, i) == Awaited(b, i)
  {
  }

  lemma AwaitedIs(a: seq<Step>, i: nat)
    requires i < |a|
    ensures var before := a[..i];
            Awaited(a, i) ==
              NeedKeys(a[i].needs) +
              (if a[i].group != "" && Prior(before, a[i].group) != "" then [Prior(before, a[i].group)] else [])
  {
  }

  lemma PriorIs(a: seq<Step>, group: string)
    requires a != []
    ensures Prior(a, group) == if a[|a| - 1].group == group then a[|a| - 1].key else Prior(a[..|a| - 1], group)
  {
  }

  // ----- what the verdict means -----

  /** Ranks under which every entry is above its needs and above the earlier entries of its group. */
  ghost predicate KeyRank(entries: seq<Step>, rank: map<string, nat>) {
    && (forall i :: 0 <= i < |entries| ==> entries[i].key in rank)
    && (forall i, d :: 0 <= i < |entries| && d in entries[i].needs ==>
      d.step in rank && rank[d.step] < rank[entries[i].key])
    && (forall i, j :: 0 <= i < j < |entries| && entries[i].group != "" && entries[i].group == entries[j].group ==>
          rank[entries[i].key] < rank[entries[j].key])
  }

  ghost predicate QueuesOrderable(entries: seq<Step>) {
    exists rank :: KeyRank(entries, rank)
  }

  lemma {:induction false} PriorIsLast(entries: seq<Step>, group: string)
    requires NamedSteps(entries)
    ensures Prior(entries, group) == "" <==> forall j :: 0 <= j < |entries| ==> entries[j].group != group
    ensures Prior(entries, group) != "" ==>
              exists j :: 0 <= j < |entries| && LastOf(entries, group, j)
  {
    if entries != [] {
      var front, last := entries[..|entries| - 1], |entries| - 1;
      if entries[last].group == group {
        assert LastOf(entries, group, last);
      } else {
        PriorIsLast(front, group);
        assert forall j :: 0 <= j < last ==> front[j] == entries[j];
        if Prior(front, group) != "" {
          var j :| 0 <= j < |front| && LastOf(front, group, j);
          assert LastOf(entries, group, j);
        }
      }
    }
  }

  /** The place j is the last in the group and its key is what Prior finds. */
  ghost predicate LastOf(entries: seq<Step>, group: string, j: nat)
    requires j < |entries|
  {
    && entries[j].group == group && entries[j].key == Prior(entries, group)
    && forall x :: j < x < |entries| ==> entries[x].group != group
  }

  lemma NamedPrefix(entries: seq<Step>, i: nat)
    requires NamedSteps(entries) && i <= |entries|
    ensures NamedSteps(entries[..i])
  {
  }

  ghost predicate LinksOf(entries: seq<Step>, g: Graph) {
    && NamedSteps(entries)
    && (forall i :: 0 <= i < |entries| ==> Successors(g, entries[i].key) == Awaited(entries, i))
    && (forall k :: k !in (set i | 0 <= i < |entries| :: entries[i].key) ==> Successors(g, k) == [])
  }

  lemma KeyRankRanksGraph(entries: seq<Step>, g: Graph, rank: map<string, nat>)
    requires LinksOf(entries, g) && KeyRank(entries, rank)
    ensures Ranks(g, rank)
  {
    hide Prior, Successors, NamedSteps;
    forall k, n | k in rank && n in Successors(g, k) ensures n in rank && rank[n] < rank[k] {
      assert k in (set i | 0 <= i < |entries| :: entries[i].key);
      var i :| 0 <= i < |entries| && entries[i].key == k;
      if n in NeedKeys(entries[i].needs) {
        var j :| 0 <= j < |entries[i].needs| && entries[i].needs[j].step == n;
        assert entries[i].needs[j] in entries[i].needs;
      } else {
        NamedPrefix(entries, i);
        PriorIsLast(entries[..i], entries[i].group);
        var j :| 0 <= j < i && LastOf(entries[..i], entries[i].group, j);
        assert entries[j] == entries[..i][j];
      }
    }
  }

  lemma PriorAwaited(entries: seq<Step>, i: nat) returns (j: int)
    requires NamedSteps(entries) && i < |entries| && entries[i].group != ""
    ensures -1 <= j < i
    ensures j >= 0 ==> entries[j].group == entries[i].group && entries[j].key in Awaited(entries, i)
    ensures forall x :: j < x < i ==> entries[x].group != entries[i].group
  {
    hide NamedSteps, NeedKeys;
    var front := entries[..i];
    NamedPrefix(entries, i);
    PriorIsLast(front, entries[i].group);
    assert forall x :: 0 <= x < i ==> front[x] == entries[x];
    j := -1;
    if Prior(front, entries[i].group) != "" {
      j :| 0 <= j < i && LastOf(front, entries[i].group, j);
    }
  }

  /** Queue order follows from the links between neighbours. */
  lemma {:induction false} GroupRanksRise(entries: seq<Step>, g: Graph, rank: map<string, nat>, i: nat, j: nat)
    requires LinksOf(entries, g) && Ranks(g, rank) && i < j < |entries|
    requires forall x :: 0 <= x < |entries| ==> entries[x].key in rank
    requires entries[i].group != "" && entries[i].group == entries[j].group
    ensures rank[entries[i].key] < rank[entries[j].key]
    decreases j
  {
    hide Awaited, Successors, NamedSteps;
    var p := PriorAwaited(entries, j);
    assert entries[p].key in Successors(g, entries[j].key);
    if i < p { GroupRanksRise(entries, g, rank, i, p); }
  }

  lemma GraphRankIsKeyRank(entries: seq<Step>, g: Graph, rank: map<string, nat>)
    requires LinksOf(entries, g) && Ranks(g, rank)
    requires forall x :: 0 <= x < |entries| ==> entries[x].key in rank
    ensures KeyRank(entries, rank)
  {
    hide Prior, Successors, NamedSteps;
    forall i, d | 0 <= i < |entries| && d in entries[i].needs
      ensures d.step in rank && rank[d.step] < rank[entries[i].key] {
      var n :| 0 <= n < |entries[i].needs| && entries[i].needs[n] == d;
      assert NeedKeys(entries[i].needs)[n] == d.step;
      assert d.step in Successors(g, entries[i].key);
    }
    forall i, j | 0 <= i < j < |entries| && entries[i].group != "" && entries[i].group == entries[j].group
      ensures rank[entries[i].key] < rank[entries[j].key]
    {
      GroupRanksRise(entries, g, rank, i, j);
    }
  }

  lemma RankableMeansOrderable(entries: seq<Step>, g: Graph, order: seq<string>)
    requires LinksOf(entries, g) && |order| == |entries|
    requires forall i :: 0 <= i < |entries| ==> order[i] == entries[i].key
    ensures Rankable(g, order) <==> QueuesOrderable(entries)
  {
    hide LinksOf, Ranks, KeyRank;
    if Rankable(g, order) {
      var rank: map<string, nat> :| Ranks(g, rank) && forall r :: r in order ==> r in rank;
      forall x | 0 <= x < |entries| ensures entries[x].key in rank { assert order[x] in order; }
      GraphRankIsKeyRank(entries, g, rank);
    }
    if QueuesOrderable(entries) {
      var rank :| KeyRank(entries, rank);
      KeyRankRanksGraph(entries, g, rank);
      assert forall r :: r in order ==> r in rank by { KeyRankCovers(entries, rank); }
    }
  }

  lemma KeyRankCovers(entries: seq<Step>, rank: map<string, nat>)
    requires KeyRank(entries, rank)
    ensures forall i :: 0 <= i < |entries| ==> entries[i].key in rank
  {
  }

  // ----- the check -----

  method AddWorkflow(q: Queues, w: PreparedWorkflow, compilerStep: string)
    requires q.Valid() && NamedSteps(q.entries + Entries(w, compilerStep))
    modifies q
    ensures q.Valid() && q.entries == old(q.entries) + Entries(w, compilerStep)
  {
    hide NamedSteps, OpenNeeds, CloseNeeds, JobNeeds, WorkflowCloseNeeds, ScopeOf, Queues.Valid, GateEntries,
      JobEntries;
    ghost var start := q.entries;
    ghost var all := q.entries + Entries(w, compilerStep);
    if w.gate.Some? {
      var needs := WorkflowCloseDependencies(w, compilerStep);
      NamedNext(all, q.entries, Step(w.gateOpenKey, w.gate.value.group, []));
      q.Add(w.gateOpenKey, w.gate.value.group, []);
      NamedNext(all, q.entries, Step(w.gateCloseKey, w.gate.value.group, needs));
      q.Add(w.gateCloseKey, w.gate.value.group, needs);
    }
    ghost var first := start + WorkflowGateEntries(w, [], compilerStep);
    assert q.entries == first;
    var openKeys := AddGates(q, w, compilerStep, all);
    AddJobs(q, w, openKeys, compilerStep, all);
  }

  lemma NamedNext(all: seq<Step>, entries: seq<Step>, e: Step)
    requires NamedSteps(all) && entries + [e] <= all
    ensures NamedSteps(entries + [e])
  {
    assert all[..|entries| + 1] == entries + [e];
    NamedPrefix(all, |entries| + 1);
  }

  method AddGates(q: Queues, w: PreparedWorkflow, compilerStep: string, ghost all: seq<Step>)
    returns (openKeys: map<string, string>)
    requires q.Valid() && NamedSteps(all) && q.entries + GateEntries(w, |w.gates|, compilerStep) <= all
    modifies q
    ensures q.Valid() && q.entries == old(q.entries) + GateEntries(w, |w.gates|, compilerStep)
    ensures openKeys == OpenKeys(w.gates)
  {
    hide NamedSteps, OpenNeeds, CloseNeeds, ScopeOf, Queues.Valid;
    openKeys := map[];
    ghost var first := q.entries;
    for x := 0 to |w.gates|
      invariant q.Valid() && openKeys == OpenKeys(w.gates[..x])
      invariant q.entries == first + GateEntries(w, x, compilerStep)
    {
      var gate := w.gates[x];
      GatesGrow(w, x, |w.gates|, compilerStep);
      var needs := OpenDependencies(w, gate, openKeys, compilerStep);
      assert q.entries + [OpenEntry(w, x, compilerStep)] <= all;
      NamedNext(all, q.entries, Step(gate.openKey, gate.group, needs));
      q.Add(gate.openKey, gate.group, needs);
      assert w.gates[..x + 1][..x] == w.gates[..x];
      openKeys := openKeys[gate.id := gate.openKey];
      needs := CloseDependencies(w, gate);
      NamedNext(all, q.entries, Step(gate.closeKey, gate.group, needs));
      q.Add(gate.closeKey, gate.group, needs);
    }
    assert w.gates[..|w.gates|] == w.gates;
  }

  lemma {:induction false} GatesGrow(w: PreparedWorkflow, x: nat, n: nat, compilerStep: string)
    requires x < n <= |w.gates|
    ensures GateEntries(w, x, compilerStep) + [OpenEntry(w, x, compilerStep), CloseEntry(w, x)] <=
        GateEntries(w, n, compilerStep)
  {
    if x < n - 1 { GatesGrow(w, x, n - 1, compilerStep); }
  }

  lemma {:induction false} JobsGrow(w: PreparedWorkflow, x: nat, n: nat, compilerStep: string)
    requires x < n <= |w.jobs|
    ensures JobEntries(w, x, compilerStep) + [JobEntry(w, x, compilerStep)] <= JobEntries(w, n, compilerStep)
  {
    if x < n - 1 { JobsGrow(w, x, n - 1, compilerStep); }
  }

  method AddJobs(q: Queues, w: PreparedWorkflow, openKeys: map<string, string>, compilerStep: string,
                 ghost all: seq<Step>)
    requires q.Valid() && NamedSteps(all) && q.entries + JobEntries(w, |w.jobs|, compilerStep) == all
    requires openKeys == OpenKeys(w.gates)
    modifies q
    ensures q.Valid() && q.entries == all
  {
    hide NamedSteps, JobNeeds, Queues.Valid;
    ghost var first := q.entries;
    for n := 0 to |w.jobs|
      invariant q.Valid() && q.entries == first + JobEntries(w, n, compilerStep)
    {
      var job := w.jobs[n];
      JobsGrow(w, n, |w.jobs|, compilerStep);
      var needs := JobDependencies(w, job, openKeys, compilerStep);
      assert q.entries + [JobEntry(w, n, compilerStep)] <= all;
      NamedNext(all, q.entries, Step(job.key, job.concurrencyGroup, needs));
      q.Add(job.key, job.concurrencyGroup, needs);
    }
  }

  /** Accepts exactly when dependencies and queue order together can be ranked; otherwise
      names a step on a cycle. */
  method ValidateConcurrency(ws: seq<PreparedWorkflow>, compilerStep: string) returns (r: Outcome)
    requires NamedSteps(AllEntries(ws, compilerStep))
    ensures r.Acyclic? <==> QueuesOrderable(AllEntries(ws, compilerStep))
  {
    hide NamedSteps, Entries, LinksOf, QueuesOrderable, Rankable;
    var q := new Queues();
    for n := 0 to |ws|
      invariant q.Valid() && q.entries == AllEntries(ws[..n], compilerStep)
    {
      assert ws[..n + 1][..n] == ws[..n];
      EntriesGrow(ws, n, compilerStep);
      AddWorkflow(q, ws[n], compilerStep);
    }
    assert ws[..|ws|] == ws;
    QueuesAreLinks(q);
    var search := new Searcher(q.dependencies, q.order);
    r := search.Search(q.order);
    RankableMeansOrderable(q.entries, q.dependencies, q.order);
  }

  lemma QueuesAreLinks(q: Queues)
    requires q.Valid()
    ensures LinksOf(q.entries, q.dependencies)
  {
    hide Awaited, NamedSteps;
    forall k | k in q.order ensures k in (set i | 0 <= i < |q.entries| :: q.entries[i].key) {
      var i :| 0 <= i < |q.order| && q.order[i] == k;
      assert q.entries[i].key == k;
    }
  }

  lemma {:induction false} EntriesGrow(ws: seq<PreparedWorkflow>, n: nat, compilerStep: string)
    requires n < |ws| && NamedSteps(AllEntries(ws, compilerStep))
    ensures NamedSteps(AllEntries(ws[..n], compilerStep) + Entries(ws[n], compilerStep))
    ensures AllEntries(ws[..n + 1], compilerStep) == AllEntries(ws[..n], compilerStep) + Entries(ws[n], compilerStep)
  {
    hide NamedSteps, Entries;
    assert ws[..n + 1][..n] == ws[..n];
    if n == |ws| - 1 {
      assert ws[..n + 1] == ws;
    } else {
      var front := ws[..|ws| - 1];
      var all := AllEntries(ws, compilerStep);
      assert AllEntries(front, compilerStep) == all[..|AllEntries(front, compilerStep)|];
      NamedPrefix(all, |AllEntries(front, compilerStep)|);
      EntriesGrow(front, n, compilerStep);
      assert front[..n] == ws[..n] && front[n] == ws[n];
    }
  }
}
