/** What each step of a prepared workflow waits for. */
module StepNeeds {
  import opened Pipelines
  import opened Uploads
  import opened GatePreparation

  /** A workflow after its jobs were ordered and its gates were prepared and given keys. */
  datatype PreparedWorkflow = PreparedWorkflow(
    groupKey: string, failure: bool, skipReason: string, ungrouped: bool, aggregate: bool,
    gate: Option<ConcurrencyGate>, gateOpenKey: string, gateCloseKey: string,
    approvalGates: seq<ApprovalGate>, jobs: seq<Job>, gates: seq<PreparedGate>)

  function Lookup(m: map<string, string>, key: string): string {
    if key in m then m[key] else ""
  }

  function Strict(step: string): seq<Dependency> {
    if step == "" then [] else [Dependency(step, false)]
  }

  /** The compiler step, for steps that carry the dependency themselves. */
  function CompilerNeed(w: PreparedWorkflow, compilerStep: string): seq<Dependency> {
    if !w.aggregate || w.ungrouped then Strict(compilerStep) else []
  }

  // ----- the opening step of a reusable-workflow gate -----

  /** The scope first, then each prerequisite that is not yet named, allowed to fail. */
  function OpenNeeds(scope: string, prerequisites: seq<string>): seq<Dependency> {
    if prerequisites == [] then Strict(scope)
    else
      var front, last := OpenNeeds(scope, prerequisites[..|prerequisites| - 1]), prerequisites[|prerequisites| - 1];
      if last == "" || last == scope || last in prerequisites[..|prerequisites| - 1] then front
      else front + [Dependency(last, true)]
  }

  /** The enclosing scope is needed strictly, the prerequisites loosely, each key once. */
  lemma {:induction false} OpenNeedsExactly(scope: string, prerequisites: seq<string>)
    ensures forall d :: d in OpenNeeds(scope, prerequisites) <==>
              d.step != "" && if d.allowFailure then d.step in prerequisites && d.step != scope else d.step == scope
    ensures forall i, j :: 0 <= i < j < |OpenNeeds(scope, prerequisites)| ==>
              OpenNeeds(scope, prerequisites)[i].step != OpenNeeds(scope, prerequisites)[j].step
  {
    if prerequisites != [] {
      var before, last := prerequisites[..|prerequisites| - 1], prerequisites[|prerequisites| - 1];
      OpenNeedsExactly(scope, before);
      assert prerequisites == before + [last];
      var front := OpenNeeds(scope, before);
      forall i | 0 <= i < |front| ensures front[i].step == scope || front[i].step in before {
        assert front[i] in front;
      }
    }
  }

  function ScopeOf(w: PreparedWorkflow, gate: PreparedGate, openKeys: map<string, string>,
                   compilerStep: string): string {
    if gate.parentID != "" then Lookup(openKeys, gate.parentID)
    else if w.gateOpenKey != "" then w.gateOpenKey
    else if !w.aggregate || w.ungrouped then compilerStep
    else ""
  }

  /** The list that add builds up: a step is entered once, and never without a key. */
  method Add(seen: set<string>, dependencies: seq<Dependency>, step: string, allowFailure: bool)
    returns (seen': set<string>, dependencies': seq<Dependency>)
    ensures dependencies' == if step != "" && step !in seen then dependencies + [Dependency(step, allowFailure)]
        else dependencies
    ensures seen' == if step != "" then seen + {step} else seen
  {
    seen', dependencies' := seen, dependencies;
    if step != "" && step !in seen {
      seen' := seen + {step};
      dependencies' := dependencies + [Dependency(step, allowFailure)];
    }
  }

  method AddPrerequisites(ghost scope: string, before: set<string>, first: seq<Dependency>, keys: seq<string>)
    returns (dependencies: seq<Dependency>)
    requires first == Strict(scope) && before == if scope == "" then {} else {scope}
    ensures dependencies == OpenNeeds(scope, keys)
  {
    var seen := before;
    dependencies := first;
    for i := 0 to |keys|
      invariant dependencies == OpenNeeds(scope, keys[..i])
      invariant forall k :: k in seen <==> k != "" && (k == scope || k in keys[..i])
    {
      assert keys[..i + 1][..i] == keys[..i];
      seen, dependencies := Add(seen, dependencies, keys[i], true);
    }
    assert keys[..|keys|] == keys;
  }

  method OpenDependencies(w: PreparedWorkflow, gate: PreparedGate, openKeys: map<string, string>, compilerStep: string)
    returns (dependencies: seq<Dependency>)
    ensures dependencies == OpenNeeds(ScopeOf(w, gate, openKeys, compilerStep), gate.prerequisites)
  {
    var seen := {};
    dependencies := [];
    if gate.parentID != "" {
      seen, dependencies := Add(seen, dependencies, Lookup(openKeys, gate.parentID), false);
    } else if w.gateOpenKey != "" {
      seen, dependencies := Add(seen, dependencies, w.gateOpenKey, false);
    } else if !w.aggregate || w.ungrouped {
      seen, dependencies := Add(seen, dependencies, compilerStep, false);
    }
    ghost var scope := ScopeOf(w, gate, openKeys, compilerStep);
    assert dependencies == Strict(scope) && seen == (if scope == "" then {} else {scope});
    dependencies := AddPrerequisites(scope, seen, dependencies, gate.prerequisites);
  }

  // ----- closing steps -----

  function Tolerant(keys: seq<string>): (needs: seq<Dependency>)
    ensures |needs| == |keys|
    ensures forall d :: d in needs <==> d.allowFailure && d.step in keys
  {
    var needs := seq(|keys|, i requires 0 <= i < |keys| => Dependency(keys[i], true));
    assert forall i :: 0 <= i < |keys| ==> needs[i].step == keys[i] && needs[i] in needs;
    needs
  }

  /** The closing steps of the gates directly inside a scope. */
  function ChildCloses(gates: seq<PreparedGate>, parentID: string): seq<string> {
    if gates == [] then []
    else
      var last := gates[|gates| - 1];
      ChildCloses(gates[..|gates| - 1], parentID) + if last.parentID == parentID then [last.closeKey] else []
  }

  lemma {:induction false} ChildClosesExactly(gates: seq<PreparedGate>, parentID: string)
    ensures forall k :: k in ChildCloses(gates, parentID) <==>
        exists g :: g in gates && g.parentID == parentID && g.closeKey == k
  {
    if gates != [] {
      var front, last := gates[..|gates| - 1], gates[|gates| - 1];
      ChildClosesExactly(front, parentID);
      assert gates == front + [last];
    }
  }

  function CloseNeeds(w: PreparedWorkflow, gate: PreparedGate): seq<Dependency> {
    Tolerant(gate.members + ChildCloses(w.gates, gate.id))
  }

  method AddTolerant(before: seq<Dependency>, keys: seq<string>) returns (dependencies: seq<Dependency>)
    ensures dependencies == before + Tolerant(keys)
  {
    dependencies := before;
    for i := 0 to |keys|
      invariant dependencies == before + Tolerant(keys[..i])
    {
      dependencies := dependencies + [Dependency(keys[i], true)];
    }
    assert keys[..|keys|] == keys;
  }

  method CloseDependencies(w: PreparedWorkflow, gate: PreparedGate) returns (dependencies: seq<Dependency>)
    ensures dependencies == CloseNeeds(w, gate)
  {
    dependencies := AddTolerant([], gate.members);
    dependencies := AddChildCloses(w, gate.id, gate.members, dependencies);
  }

  /** Both closing steps end their list with the closing steps of the scopes inside. */
  method AddChildCloses(w: PreparedWorkflow, parentID: string, ghost keys: seq<string>, before: seq<Dependency>)
    returns (dependencies: seq<Dependency>)
    requires before == Tolerant(keys)
    ensures dependencies == Tolerant(keys + ChildCloses(w.gates, parentID))
  {
    dependencies := before;
    assert keys + ChildCloses(w.gates[..0], parentID) == keys;
    for i := 0 to |w.gates|
      invariant dependencies == Tolerant(keys + ChildCloses(w.gates[..i], parentID))
    {
      assert w.gates[..i + 1][..i] == w.gates[..i];
      if w.gates[i].parentID == parentID {
        dependencies := dependencies + [Dependency(w.gates[i].closeKey, true)];
      } else {
        assert ChildCloses(w.gates[..i + 1], parentID) == ChildCloses(w.gates[..i], parentID);
      }
    }
    assert w.gates[..|w.gates|] == w.gates;
  }

  function WorkflowCloseNeeds(w: PreparedWorkflow, compilerStep: string): seq<Dependency> {
    CompilerNeed(w, compilerStep) + Tolerant(KeysOf(w.jobs) + ChildCloses(w.gates, ""))
  }

  method WorkflowCloseDependencies(w: PreparedWorkflow, compilerStep: string) returns (dependencies: seq<Dependency>)
    ensures dependencies == WorkflowCloseNeeds(w, compilerStep)
  {
    var first := [];
    if (!w.aggregate || w.ungrouped) && compilerStep != "" {
      first := [Dependency(compilerStep, false)];
    }
    var rest := [];
    for i := 0 to |w.jobs|
      invariant rest == Tolerant(KeysOf(w.jobs[..i]))
    {
      rest := rest + [Dependency(w.jobs[i].key, true)];
    }
    assert w.jobs[..|w.jobs|] == w.jobs;
    rest := AddChildCloses(w, "", KeysOf(w.jobs), rest);
    dependencies := first + rest;
  }

  // ----- job steps -----

  function GateNeeds(gates: seq<ConcurrencyGate>, openKeys: map<string, string>): (needs: seq<Dependency>)
    ensures |needs| == |gates|
  {
    seq(|gates|, p requires 0 <= p < |gates| => Dependency(Lookup(openKeys, gates[p].id), false))
  }

  function JobNeeds(w: PreparedWorkflow, job: Job, openKeys: map<string, string>,
                    compilerStep: string): seq<Dependency> {
    CompilerNeed(w, compilerStep) +
    (if job.PreparationResult() then [] else Strict(w.gateOpenKey)) +
    Tolerant(job.dependencies) + GateNeeds(job.gates, openKeys) + Strict(job.approvalGate)
  }

  method AddGateNeeds(before: seq<Dependency>, gates: seq<ConcurrencyGate>, openKeys: map<string, string>)
    returns (dependencies: seq<Dependency>)
    ensures dependencies == before + GateNeeds(gates, openKeys)
  {
    dependencies := before;
    for p := 0 to |gates|
      invariant dependencies == before + GateNeeds(gates[..p], openKeys)
    {
      dependencies := dependencies + [Dependency(Lookup(openKeys, gates[p].id), false)];
    }
    assert gates[..|gates|] == gates;
  }

  method JobDependencies(w: PreparedWorkflow, job: Job, openKeys: map<string, string>, compilerStep: string)
    returns (dependencies: seq<Dependency>)
    ensures dependencies == JobNeeds(w, job, openKeys, compilerStep)
  {
    dependencies := [];
    if (!w.aggregate || w.ungrouped) && compilerStep != "" {
      dependencies := dependencies + [Dependency(compilerStep, false)];
    }
    if w.gateOpenKey != "" && !job.PreparationResult() {
      dependencies := dependencies + [Dependency(w.gateOpenKey, false)];
    }
    ghost var first := dependencies;
    dependencies := AddTolerant(dependencies, job.dependencies);
    dependencies := AddGateNeeds(dependencies, job.gates, openKeys);
    ghost var third := dependencies;
    if job.approvalGate != "" {
      dependencies := dependencies + [Dependency(job.approvalGate, false)];
    }
    assert first == CompilerNeed(w, compilerStep) + if job.PreparationResult() then [] else Strict(w.gateOpenKey);
    assert dependencies == third + Strict(job.approvalGate);
  }
}
