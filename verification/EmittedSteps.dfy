/** The steps emitWorkflow writes, and why they form a coherent upload. */
module EmittedSteps {
  import opened Pipelines
  import opened Uploads
  import opened GatePreparation
  import opened StepNeeds
  import opened QueueCheck

  // ----- the steps -----

  /** A failed workflow, or a skipped one of an aggregate, is a single step. */
  predicate Dropped(w: PreparedWorkflow) {
    w.failure || (w.skipReason != "" && w.aggregate)
  }

  /** A group around the steps makes all of them wait for the compiler step. */
  function Within(w: PreparedWorkflow, compilerStep: string, s: Step): Step {
    if w.aggregate && !w.ungrouped then s.(needs := Strict(compilerStep) + s.needs) else s
  }

  function ApprovalEntries(w: PreparedWorkflow, n: nat, compilerStep: string): (es: seq<Step>)
    requires n <= |w.approvalGates|
    ensures |es| == n
  {
    if n == 0 then []
    else ApprovalEntries(w, n - 1, compilerStep) + [Step(w.approvalGates[n - 1].key, "", Strict(compilerStep))]
  }

  function Inner(w: PreparedWorkflow, compilerStep: string): seq<Step> {
    WorkflowGateEntries(w, CompilerNeed(w, compilerStep), compilerStep) + GateEntries(w, |w.gates|, compilerStep) +
    JobEntries(w, |w.jobs|, compilerStep) + ApprovalEntries(w, |w.approvalGates|, compilerStep)
  }

  function Placed(w: PreparedWorkflow, compilerStep: string, steps: seq<Step>): (placed: seq<Step>)
    ensures |placed| == |steps|
    ensures forall i :: 0 <= i < |steps| ==> placed[i] == Within(w, compilerStep, steps[i])
  {
    seq(|steps|, i requires 0 <= i < |steps| => Within(w, compilerStep, steps[i]))
  }

  function Steps(w: PreparedWorkflow, compilerStep: string): seq<Step> {
    if Dropped(w) then [Step(w.groupKey, "", Strict(compilerStep))]
    else Placed(w, compilerStep, Inner(w, compilerStep))
  }

  function AllSteps(ws: seq<PreparedWorkflow>, compilerStep: string): seq<Step> {
    if ws == [] then [] else AllSteps(ws[..|ws| - 1], compilerStep) + Steps(ws[|ws| - 1], compilerStep)
  }

  // ----- the scopes -----

  function RunnableKeys(jobs: seq<Job>): seq<string> {
    if jobs == [] then []
    else RunnableKeys(jobs[..|jobs| - 1]) + if jobs[|jobs| - 1].PreparationResult() then [] else [jobs[|jobs| - 1].key]
  }

  lemma {:induction false} RunnableExactly(jobs: seq<Job>)
    ensures forall k :: k in RunnableKeys(jobs) <==> exists j :: j in jobs && j.key == k && !j.PreparationResult()
  {
    if jobs != [] {
      RunnableExactly(jobs[..|jobs| - 1]);
      assert jobs == jobs[..|jobs| - 1] + [jobs[|jobs| - 1]];
    }
  }

  function ParentOf(w: PreparedWorkflow, indexes: map<string, nat>, x: nat): Enclosing
    requires Indexed(w.gates, indexes) && ParentsPrecede(w.gates, indexes) && x < |w.gates|
  {
    if w.gates[x].parentID != "" then
      var y := indexes[w.gates[x].parentID];
      Inside(w.gates[y].openKey, w.gates[y].closeKey)
    else if w.gate.Some? then Inside(w.gateOpenKey, w.gateCloseKey)
    else Outermost
  }

  function GateScope(w: PreparedWorkflow, indexes: map<string, nat>, x: nat): Scope
    requires Indexed(w.gates, indexes) && ParentsPrecede(w.gates, indexes) && x < |w.gates|
  {
    var g := w.gates[x];
    Scope(g.openKey, g.closeKey, g.group, g.members, ParentOf(w, indexes, x))
  }

  function GateScopes(w: PreparedWorkflow, indexes: map<string, nat>, n: nat): seq<Scope>
    requires Indexed(w.gates, indexes) && ParentsPrecede(w.gates, indexes) && n <= |w.gates|
  {
    if n == 0 then [] else GateScopes(w, indexes, n - 1) + [GateScope(w, indexes, n - 1)]
  }

  function WorkflowScope(w: PreparedWorkflow): seq<Scope> {
    if w.gate.None? then []
    else [Scope(w.gateOpenKey, w.gateCloseKey, w.gate.value.group, RunnableKeys(w.jobs), Outermost)]
  }

  function Scopes(w: PreparedWorkflow, indexes: map<string, nat>): seq<Scope>
    requires Indexed(w.gates, indexes) && ParentsPrecede(w.gates, indexes)
  {
    if Dropped(w) then [] else WorkflowScope(w) + GateScopes(w, indexes, |w.gates|)
  }

  /** What preparation guarantees about one workflow. */
  ghost predicate WellPrepared(w: PreparedWorkflow, compilerStep: string, indexes: map<string, nat>) {
    && Collected(Declarations(w.jobs), w.gates, indexes)
    && Consistent(Declarations(w.jobs))
    && (w.gate.Some? ==> w.gate.value.group != "")
    && (w.gate.Some? <==> w.gateOpenKey != "")
    && (forall x :: 0 <= x < |w.gates| ==> w.gates[x].openKey != "" && w.gates[x].closeKey != "")
    && (forall j :: j in w.jobs ==> j.PreparationResult() ==> j.gates == [])
    && DistinctSteps(Steps(w, compilerStep))
    && DistinctSteps(Entries(w, compilerStep))
  }

  // ----- finding a step -----

  function GatesFrom(w: PreparedWorkflow): nat {
    if w.gate.None? then 0 else 2
  }

  lemma WhereSteps(w: PreparedWorkflow, compilerStep: string)
    requires !Dropped(w)
    ensures var s := Steps(w, compilerStep);
            var base := GatesFrom(w);
            && |s| == base + 2 * |w.gates| + |w.jobs| + |w.approvalGates|
            && (w.gate.Some? ==>
                  s[0] == Within(w, compilerStep, Step(w.gateOpenKey, w.gate.value.group,
                    CompilerNeed(w, compilerStep))) &&
                  s[1] == Within(w, compilerStep, Step(w.gateCloseKey, w.gate.value.group,
                    WorkflowCloseNeeds(w, compilerStep))))
  {
    hide WorkflowCloseNeeds, Within;
  }

  lemma GateAt(w: PreparedWorkflow, compilerStep: string, x: nat)
    requires !Dropped(w) && x < |w.gates|
    ensures var s := Steps(w, compilerStep);
            var o := GatesFrom(w) + 2 * x;
            && o + 1 < |s|
            && s[o] == Within(w, compilerStep, OpenEntry(w, x, compilerStep))
            && s[o + 1] == Within(w, compilerStep, CloseEntry(w, x))
  {
    hide WorkflowCloseNeeds, Within, OpenEntry, CloseEntry;
    GatesGrow(w, x, |w.gates|, compilerStep);
    var es := GateEntries(w, x, compilerStep) + [OpenEntry(w, x, compilerStep), CloseEntry(w, x)];
    assert es[2 * x] == OpenEntry(w, x, compilerStep) && es[2 * x + 1] == CloseEntry(w, x);
    assert Inner(w, compilerStep)[GatesFrom(w) + 2 * x] == GateEntries(w, |w.gates|, compilerStep)[2 * x];
    assert Inner(w, compilerStep)[GatesFrom(w) + 2 * x + 1] == GateEntries(w, |w.gates|, compilerStep)[2 * x + 1];
  }

  lemma JobAt(w: PreparedWorkflow, compilerStep: string, n: nat)
    requires !Dropped(w) && n < |w.jobs|
    ensures var s := Steps(w, compilerStep);
            var i := GatesFrom(w) + 2 * |w.gates| + n;
            i < |s| && s[i] == Within(w, compilerStep, JobEntry(w, n, compilerStep))
  {
    hide WorkflowCloseNeeds, Within, JobEntry;
    JobsGrow(w, n, |w.jobs|, compilerStep);
    var es := JobEntries(w, n, compilerStep) + [JobEntry(w, n, compilerStep)];
    assert es[n] == JobEntry(w, n, compilerStep);
    assert Inner(w, compilerStep)[GatesFrom(w) + 2 * |w.gates| + n] == JobEntries(w, |w.jobs|, compilerStep)[n];
  }

  lemma {:induction false} OpenKeyFound(gates: seq<PreparedGate>, indexes: map<string, nat>, n: nat, x: nat)
    requires Indexed(gates, indexes) && x < n <= |gates|
    ensures Lookup(OpenKeys(gates[..n]), gates[x].id) == gates[x].openKey
  {
    assert gates[..n][..n - 1] == gates[..n - 1] && gates[..n][n - 1] == gates[n - 1];
    if x < n - 1 {
      OpenKeyFound(gates, indexes, n - 1, x);
      assert indexes[gates[x].id] != indexes[gates[n - 1].id];
    }
  }

  // ----- the scopes of one workflow hold -----

  lemma WithinKeeps(w: PreparedWorkflow, compilerStep: string, s: Step)
    ensures var t := Within(w, compilerStep, s);
            && t.key == s.key && t.group == s.group
            && (forall k :: StrictlyNeeds(s, k) ==> StrictlyNeeds(t, k))
            && (forall k :: Needs(s, k) ==> Needs(t, k))
            && (forall k :: StrictlyNeeds(t, k) ==>
              StrictlyNeeds(s, k) || (w.aggregate && !w.ungrouped && k == compilerStep && k != ""))
            && (w.aggregate && !w.ungrouped && compilerStep != "" ==> StrictlyNeeds(t, compilerStep))
  {
    var t := Within(w, compilerStep, s);
    forall k | Needs(s, k) ensures Needs(t, k) {
      var d :| d in s.needs && d.step == k;
      assert d in t.needs;
    }
  }

  lemma MembersOf(w: PreparedWorkflow, compilerStep: string, indexes: map<string, nat>, x: nat, m: string)
    returns (n: nat, p: nat)
    requires WellPrepared(w, compilerStep, indexes) && x < |w.gates| && m in w.gates[x].members
    ensures n < |w.jobs| && w.jobs[n].key == m && p < |w.jobs[n].gates| && w.jobs[n].gates[p].id == w.gates[x].id
  {
    hide Consistent, FirstDeclared, DistinctSteps;
    var ds := Declarations(w.jobs);
    MemberDeclares(ds, w.gates[x].id, m);
    var d :| d in ds && d.job == m && d.gate.id == w.gates[x].id;
    n, p := DeclaredBy(w.jobs, d);
    OfGate(w.jobs[n], p);
  }

  /** A job inside a gate waits strictly for its opening step. */
  lemma JobNeedsOpen(w: PreparedWorkflow, compilerStep: string, indexes: map<string, nat>, n: nat, p: nat, x: nat)
    requires Indexed(w.gates, indexes) && x < |w.gates|
    requires n < |w.jobs| && p < |w.jobs[n].gates| && w.jobs[n].gates[p].id == w.gates[x].id
    ensures StrictlyNeeds(JobEntry(w, n, compilerStep), w.gates[x].openKey)
  {
    OpenKeyFound(w.gates, indexes, |w.gates|, x);
    assert w.gates[..|w.gates|] == w.gates;
    var needs := GateNeeds(w.jobs[n].gates, OpenKeys(w.gates));
    assert needs[p] == Dependency(w.gates[x].openKey, false);
    assert needs[p] in needs;
  }

  /** Every runnable job waits strictly for the workflow's own opening step. */
  lemma JobNeedsWorkflowOpen(w: PreparedWorkflow, compilerStep: string, n: nat)
    requires n < |w.jobs| && !w.jobs[n].PreparationResult() && w.gateOpenKey != ""
    ensures StrictlyNeeds(JobEntry(w, n, compilerStep), w.gateOpenKey)
  {
    hide Tolerant, GateNeeds;
    assert Dependency(w.gateOpenKey, false) in Strict(w.gateOpenKey);
  }

  lemma CloseNeedsMembers(w: PreparedWorkflow, x: nat)
    requires x < |w.gates|
    ensures forall m :: m in w.gates[x].members ==> Needs(CloseEntry(w, x), m)
    ensures forall g :: g in w.gates && g.parentID == w.gates[x].id ==> Needs(CloseEntry(w, x), g.closeKey)
    ensures forall k :: !StrictlyNeeds(CloseEntry(w, x), k)
  {
    hide Tolerant;
    ChildClosesExactly(w.gates, w.gates[x].id);
    var e := CloseEntry(w, x);
    forall k | k in w.gates[x].members || k in ChildCloses(w.gates, w.gates[x].id) ensures Needs(e, k) {
      assert Dependency(k, true) in e.needs;
    }
  }

  lemma WorkflowCloseNeedsAll(w: PreparedWorkflow, compilerStep: string, e: Step)
    requires e.needs == WorkflowCloseNeeds(w, compilerStep)
    ensures forall j :: j in w.jobs ==> Needs(e, j.key)
    ensures forall g :: g in w.gates && g.parentID == "" ==> Needs(e, g.closeKey)
    ensures forall k :: StrictlyNeeds(e, k) <==> Dependency(k, false) in CompilerNeed(w, compilerStep)
  {
    hide Tolerant, KeysOf, CompilerNeed;
    ChildClosesExactly(w.gates, "");
    forall j | j in w.jobs ensures Needs(e, j.key) {
      var i :| 0 <= i < |w.jobs| && w.jobs[i] == j;
      assert KeysOf(w.jobs)[i] == j.key;
      assert Dependency(j.key, true) in e.needs;
    }
    forall g | g in w.gates && g.parentID == "" ensures Needs(e, g.closeKey) {
      assert Dependency(g.closeKey, true) in e.needs;
    }
  }

  lemma SameKeySameStep(steps: seq<Step>, i: nat, j: nat)
    requires DistinctSteps(steps) && i < |steps| && j < |steps| && steps[i].key == steps[j].key
    ensures i == j
  {
  }

  lemma GateMembersHeld(w: PreparedWorkflow, compilerStep: string, indexes: map<string, nat>, x: nat, m: string)
    requires WellPrepared(w, compilerStep, indexes) && !Dropped(w) && x < |w.gates| && m in w.gates[x].members
    requires GatesFrom(w) + 2 * x + 1 < |Steps(w, compilerStep)|
    ensures MemberHeld(Steps(w, compilerStep), GatesFrom(w) + 2 * x, m)
    ensures m in StepKeys(Steps(w, compilerStep))
  {
    hide WellPrepared, Collected, Steps, Within, DistinctSteps, StrictlyNeeds, Needs, OpenEntry, CloseEntry, JobEntry,
      StepKeys;
    var s := Steps(w, compilerStep);
    PreparedParts(w, compilerStep, indexes);
    GateAt(w, compilerStep, x);
    var n, p := MembersOf(w, compilerStep, indexes, x, m);
    JobAt(w, compilerStep, n);
    JobNeedsOpen(w, compilerStep, indexes, n, p, x);
    CloseNeedsMembers(w, x);
    EntryKeys(w, x, n, compilerStep);
    WithinKeeps(w, compilerStep, JobEntry(w, n, compilerStep));
    WithinKeeps(w, compilerStep, CloseEntry(w, x));
    WithinKeeps(w, compilerStep, OpenEntry(w, x, compilerStep));
    KeyOfMember(s, GatesFrom(w) + 2 * |w.gates| + n);
    forall i | 0 <= i < |s| && s[i].key == m ensures StrictlyNeeds(s[i], w.gates[x].openKey) {
      SameKeySameStep(s, i, GatesFrom(w) + 2 * |w.gates| + n);
    }
  }

  lemma PreparedParts(w: PreparedWorkflow, compilerStep: string, indexes: map<string, nat>)
    requires WellPrepared(w, compilerStep, indexes)
    ensures Indexed(w.gates, indexes) && ParentsPrecede(w.gates, indexes)
    ensures DistinctSteps(Steps(w, compilerStep)) && DistinctSteps(Entries(w, compilerStep))
  {
    hide Indexed, ParentsPrecede, DistinctSteps;
  }

  lemma EntryKeys(w: PreparedWorkflow, x: nat, n: nat, compilerStep: string)
    requires x < |w.gates| && n < |w.jobs|
    ensures OpenEntry(w, x, compilerStep).key == w.gates[x].openKey
    ensures CloseEntry(w, x).key == w.gates[x].closeKey
    ensures JobEntry(w, n, compilerStep).key == w.jobs[n].key
  {
  }

  lemma OpenNeedsScope(w: PreparedWorkflow, compilerStep: string, x: nat, scope: string)
    requires x < |w.gates| && scope == ScopeOf(w, w.gates[x], OpenKeys(w.gates[..x]), compilerStep) && scope != ""
    ensures StrictlyNeeds(OpenEntry(w, x, compilerStep), scope)
  {
    hide ScopeOf, OpenNeeds;
    OpenNeedsExactly(scope, w.gates[x].prerequisites);
    assert Dependency(scope, false) in OpenNeeds(scope, w.gates[x].prerequisites);
  }

  /** The enclosing scope of a gate: its opening step is needed, and its closing step waits. */
  ghost predicate HeldBy(w: PreparedWorkflow, compilerStep: string, x: nat, open: string, close: string)
    requires x < |w.gates|
  {
    var steps := Steps(w, compilerStep);
    && StrictlyNeeds(Within(w, compilerStep, OpenEntry(w, x, compilerStep)), open)
    && close in StepKeys(steps)
    && forall i :: 0 <= i < |steps| && steps[i].key == close ==> Needs(steps[i], w.gates[x].closeKey)
  }

  lemma ParentHolds(w: PreparedWorkflow, compilerStep: string, indexes: map<string, nat>, x: nat)
    requires WellPrepared(w, compilerStep, indexes) && !Dropped(w) && x < |w.gates|
    requires Indexed(w.gates, indexes) && ParentsPrecede(w.gates, indexes)
    ensures var parent := ParentOf(w, indexes, x);
            parent.Inside? ==> HeldBy(w, compilerStep, x, parent.open, parent.close)
  {
    hide WellPrepared, HeldBy;
    if w.gates[x].parentID != "" {
      GateHolds(w, compilerStep, indexes, x, indexes[w.gates[x].parentID]);
    } else if w.gate.Some? {
      WorkflowHolds(w, compilerStep, indexes, x);
    }
  }

  lemma GateHolds(w: PreparedWorkflow, compilerStep: string, indexes: map<string, nat>, x: nat, y: nat)
    requires WellPrepared(w, compilerStep, indexes) && !Dropped(w) && y < x < |w.gates|
    requires Indexed(w.gates, indexes) && w.gates[x].parentID != "" && w.gates[y].id == w.gates[x].parentID
    ensures HeldBy(w, compilerStep, x, w.gates[y].openKey, w.gates[y].closeKey)
  {
    hide *;
    PreparedKeys(w, compilerStep, indexes);
    OpenNeedsParent(w, compilerStep, indexes, x, y);
    GateAt(w, compilerStep, y);
    ParentCloses(w, compilerStep, x, y);
    OnlyOne(Steps(w, compilerStep), GatesFrom(w) + 2 * y + 1, w.gates[y].closeKey, w.gates[x].closeKey);
    BothSides(w, compilerStep, x, w.gates[y].openKey, w.gates[y].closeKey);
  }

  lemma BothSides(w: PreparedWorkflow, compilerStep: string, x: nat, open: string, close: string)
    requires x < |w.gates| && StrictlyNeeds(Within(w, compilerStep, OpenEntry(w, x, compilerStep)), open)
    requires close in StepKeys(Steps(w, compilerStep))
    requires forall i :: 0 <= i < |Steps(w, compilerStep)| && Steps(w, compilerStep)[i].key == close ==>
               Needs(Steps(w, compilerStep)[i], w.gates[x].closeKey)
    ensures HeldBy(w, compilerStep, x, open, close)
  {
    hide Steps, Within, StrictlyNeeds, Needs, OpenEntry, StepKeys;
  }

  lemma OpenNeedsParent(w: PreparedWorkflow, compilerStep: string, indexes: map<string, nat>, x: nat, y: nat)
    requires Indexed(w.gates, indexes) && y < x < |w.gates| && w.gates[y].openKey != ""
    requires w.gates[x].parentID != "" && w.gates[y].id == w.gates[x].parentID
    ensures StrictlyNeeds(Within(w, compilerStep, OpenEntry(w, x, compilerStep)), w.gates[y].openKey)
  {
    hide Indexed, Within, StrictlyNeeds, Needs, OpenEntry, OpenKeys, Lookup;
    OpenKeyFound(w.gates, indexes, x, y);
    OpenNeedsScope(w, compilerStep, x, w.gates[y].openKey);
    WithinKeeps(w, compilerStep, OpenEntry(w, x, compilerStep));
  }

  lemma ParentCloses(w: PreparedWorkflow, compilerStep: string, x: nat, y: nat)
    requires y < |w.gates| && x < |w.gates| && w.gates[x].parentID == w.gates[y].id
    ensures var e := Within(w, compilerStep, CloseEntry(w, y));
            e.key == w.gates[y].closeKey && Needs(e, w.gates[x].closeKey)
  {
    hide Within, StrictlyNeeds, Needs, CloseEntry;
    CloseNeedsMembers(w, y);
    CloseEntryKey(w, y);
    WithinKeeps(w, compilerStep, CloseEntry(w, y));
  }

  /** What the step at one place needs is needed by every step of its key. */
  lemma OnlyOne(steps: seq<Step>, i: nat, key: string, needed: string)
    requires DistinctSteps(steps) && i < |steps| && steps[i].key == key && Needs(steps[i], needed)
    ensures key in StepKeys(steps)
    ensures forall j :: 0 <= j < |steps| && steps[j].key == key ==> Needs(steps[j], needed)
  {
    hide DistinctSteps, Needs;
    forall j | 0 <= j < |steps| && steps[j].key == key ensures Needs(steps[j], needed) {
      SameKeySameStep(steps, i, j);
    }
  }

  lemma WorkflowHolds(w: PreparedWorkflow, compilerStep: string, indexes: map<string, nat>, x: nat)
    requires WellPrepared(w, compilerStep, indexes) && !Dropped(w) && x < |w.gates| && w.gates[x].parentID == ""
    requires w.gate.Some?
    ensures HeldBy(w, compilerStep, x, w.gateOpenKey, w.gateCloseKey)
  {
    PreparedKeys(w, compilerStep, indexes);
    hide WellPrepared, Steps, Within, DistinctSteps, StrictlyNeeds, Needs, OpenEntry, StepKeys, WorkflowCloseNeeds;
    WithinKeeps(w, compilerStep, OpenEntry(w, x, compilerStep));
    OpenNeedsScope(w, compilerStep, x, w.gateOpenKey);
    WhereSteps(w, compilerStep);
    var e := Step(w.gateCloseKey, w.gate.value.group, WorkflowCloseNeeds(w, compilerStep));
    WorkflowCloseNeedsAll(w, compilerStep, e);
    WithinKeeps(w, compilerStep, e);
    OnlyOne(Steps(w, compilerStep), 1, w.gateCloseKey, w.gates[x].closeKey);
  }

  lemma PreparedKeys(w: PreparedWorkflow, compilerStep: string, indexes: map<string, nat>)
    requires WellPrepared(w, compilerStep, indexes)
    ensures DistinctSteps(Steps(w, compilerStep)) && (w.gate.Some? <==> w.gateOpenKey != "")
    ensures forall x :: 0 <= x < |w.gates| ==> w.gates[x].openKey != "" && w.gates[x].closeKey != ""
  {
    hide Collected, Consistent, DistinctSteps;
  }

  lemma CloseEntryKey(w: PreparedWorkflow, x: nat)
    requires x < |w.gates|
    ensures CloseEntry(w, x).key == w.gates[x].closeKey && CloseEntry(w, x).group == w.gates[x].group
  {
  }

  lemma GateGroupNamed(w: PreparedWorkflow, compilerStep: string, indexes: map<string, nat>, x: nat)
    requires WellPrepared(w, compilerStep, indexes) && x < |w.gates|
    ensures w.gates[x].group != ""
  {
    hide FirstDeclared, MemberKeys, FirstQueue, DistinctSteps;
    var ds := Declarations(w.jobs);
    assert w.gates[x].id in DeclaredIds(ds);
    var d :| d in ds && d.gate.id == w.gates[x].id;
    var i :| 0 <= i < |ds| && ds[i] == d;
    assert Agrees(w.gates[indexes[ds[i].gate.id]], ds[i]) && ValidDeclaration(ds[i]);
  }

  lemma GateScopeHolds(w: PreparedWorkflow, compilerStep: string, indexes: map<string, nat>, x: nat)
    requires WellPrepared(w, compilerStep, indexes) && !Dropped(w) && x < |w.gates|
    requires Indexed(w.gates, indexes) && ParentsPrecede(w.gates, indexes)
    ensures ScopeAt(Steps(w, compilerStep), GateScope(w, indexes, x), GatesFrom(w) + 2 * x)
    ensures forall m :: m in w.gates[x].members ==> m in StepKeys(Steps(w, compilerStep))
  {
    hide WellPrepared, Steps, Within, StrictlyNeeds, Needs, ParentOf, MemberHeld, StepKeys;
    GateAt(w, compilerStep, x);
    GateGroupNamed(w, compilerStep, indexes, x);
    ParentHolds(w, compilerStep, indexes, x);
    CloseNeedsMembers(w, x);
    CloseEntryKey(w, x);
    WithinKeeps(w, compilerStep, OpenEntry(w, x, compilerStep));
    WithinKeeps(w, compilerStep, CloseEntry(w, x));
    forall m | m in w.gates[x].members
      ensures MemberHeld(Steps(w, compilerStep), GatesFrom(w) + 2 * x, m) && m in StepKeys(Steps(w, compilerStep))
    {
      GateMembersHeld(w, compilerStep, indexes, x, m);
    }
  }

  lemma WorkflowScopeHolds(w: PreparedWorkflow, compilerStep: string, indexes: map<string, nat>)
    requires WellPrepared(w, compilerStep, indexes) && !Dropped(w) && w.gate.Some?
    ensures ScopeAt(Steps(w, compilerStep), WorkflowScope(w)[0], 0)
    ensures forall m :: m in RunnableKeys(w.jobs) ==> m in StepKeys(Steps(w, compilerStep))
  {
    hide Collected, Consistent, Steps, Within, DistinctSteps, StrictlyNeeds, Needs, JobEntry, StepKeys;
    var s := Steps(w, compilerStep);
    WhereSteps(w, compilerStep);
    var open := Step(w.gateOpenKey, w.gate.value.group, CompilerNeed(w, compilerStep));
    var close := Step(w.gateCloseKey, w.gate.value.group, WorkflowCloseNeeds(w, compilerStep));
    WorkflowCloseNeedsAll(w, compilerStep, close);
    OpenHasCompiler(open, CompilerNeed(w, compilerStep));
    WithinKeeps(w, compilerStep, open);
    WithinKeeps(w, compilerStep, close);
    RunnableExactly(w.jobs);
    forall m | m in RunnableKeys(w.jobs) ensures MemberHeld(s, 0, m) && m in StepKeys(s) {
      var j :| j in w.jobs && j.key == m && !j.PreparationResult();
      var n :| 0 <= n < |w.jobs| && w.jobs[n] == j;
      JobAt(w, compilerStep, n);
      JobEntryKey(w, n, compilerStep);
      JobNeedsWorkflowOpen(w, compilerStep, n);
      WithinKeeps(w, compilerStep, JobEntry(w, n, compilerStep));
      KeyOfMember(s, GatesFrom(w) + 2 * |w.gates| + n);
      forall i | 0 <= i < |s| && s[i].key == m ensures StrictlyNeeds(s[i], w.gateOpenKey) {
        SameKeySameStep(s, i, GatesFrom(w) + 2 * |w.gates| + n);
      }
    }
  }

  lemma OpenHasCompiler(open: Step, needs: seq<Dependency>)
    requires open.needs == needs
    ensures forall k :: Dependency(k, false) in needs ==> StrictlyNeeds(open, k)
  {
  }

  lemma JobEntryKey(w: PreparedWorkflow, n: nat, compilerStep: string)
    requires n < |w.jobs|
    ensures JobEntry(w, n, compilerStep).key == w.jobs[n].key
  {
  }

  lemma {:induction false} GateScopesAre(w: PreparedWorkflow, indexes: map<string, nat>, n: nat, s: Scope)
    returns (x: nat)
    requires Indexed(w.gates, indexes) && ParentsPrecede(w.gates, indexes) && n <= |w.gates|
    requires s in GateScopes(w, indexes, n)
    ensures x < n && s == GateScope(w, indexes, x)
  {
    hide GateScope;
    if s == GateScope(w, indexes, n - 1) { x := n - 1; } else { x := GateScopesAre(w, indexes, n - 1, s); }
  }

  /** Every scope of the workflow is laid out right among its steps. */
  lemma ScopesHold(w: PreparedWorkflow, compilerStep: string, indexes: map<string, nat>)
    requires WellPrepared(w, compilerStep, indexes)
    requires Indexed(w.gates, indexes) && ParentsPrecede(w.gates, indexes)
    ensures var steps := Steps(w, compilerStep);
            forall s :: s in Scopes(w, indexes) ==>
              && HasScope(steps, s)
              && (forall m :: m in s.members ==> m in StepKeys(steps))
              && (s.parent.Inside? ==> s.parent.close in StepKeys(steps))
  {
    hide WellPrepared, Steps, ScopeAt, StepKeys, GateScopes, Within;
    var steps := Steps(w, compilerStep);
    forall s | s in Scopes(w, indexes)
      ensures HasScope(steps, s) && (forall m :: m in s.members ==> m in StepKeys(steps))
      ensures s.parent.Inside? ==> s.parent.close in StepKeys(steps)
    {
      if s in WorkflowScope(w) {
        WorkflowScopeHolds(w, compilerStep, indexes);
      } else {
        var x := GateScopesAre(w, indexes, |w.gates|, s);
        GateScopeHolds(w, compilerStep, indexes, x);
        ParentHolds(w, compilerStep, indexes, x);
      }
    }
  }
}
