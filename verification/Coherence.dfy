/** What Emit accepts is a coherent upload whose dependencies all resolve. */
module Coherence {
  import opened Graphs
  import opened Pipelines
  import opened Claims
  import opened Uploads
  import opened GatePreparation
  import opened StepNeeds
  import opened QueueCheck
  import opened EmittedSteps
  import opened KeyRegister
  import opened Emission
  import opened Emit
  import JobOrder
  import Scheduler

  /** The workflows are prepared and their gates are indexed. */
  ghost predicate AllReady(ws: seq<PreparedWorkflow>, compilerStep: string, indexes: seq<map<string, nat>>) {
    && |ws| == |indexes|
    && forall i :: 0 <= i < |ws| ==>
         WellPrepared(ws[i], compilerStep, indexes[i]) && Indexed(ws[i].gates, indexes[i]) &&
           ParentsPrecede(ws[i].gates, indexes[i])
  }

  ghost function AllScopes(ws: seq<PreparedWorkflow>, compilerStep: string, indexes: seq<map<string, nat>>): seq<Scope>
    requires AllReady(ws, compilerStep, indexes)
  {
    if ws == [] then []
    else
      var last := |ws| - 1;
      AllScopes(ws[..last], compilerStep, indexes[..last]) + Scopes(ws[last], indexes[last])
  }

  lemma {:induction false} EachRegisteredOnce(ws: seq<PreparedWorkflow>, i: nat)
    requires Distinct(AllRegistered(ws)) && i < |ws|
    ensures Distinct(Registered(ws[i]))
  {
    hide Registered;
    var last := |ws| - 1;
    if i == last {
      PartOfDistinct(Registered(ws[last]), AllRegistered(ws));
    } else {
      PartOfDistinct(AllRegistered(ws[..last]), AllRegistered(ws));
      EachRegisteredOnce(ws[..last], i);
    }
  }

  lemma PrefixIsReady(c: Context, all: seq<Workflow>, ws: seq<PreparedWorkflow>, indexes: seq<map<string, nat>>)
    requires PreparedPrefix(c, all, ws, indexes)
    ensures AllReady(ws, c.compilerStep, indexes)
  {
    hide PreparedFrom, Registered, WellPrepared, GatesReady, Indexed, ParentsPrecede, AllRegistered;
    forall i | 0 <= i < |ws|
      ensures WellPrepared(ws[i], c.compilerStep, indexes[i]) && Indexed(ws[i].gates, indexes[i])
      ensures ParentsPrecede(ws[i].gates, indexes[i])
    {
      EachRegisteredOnce(ws, i);
      WorkflowIsReady(c, all[i], ws[i], indexes[i]);
    }
  }

  lemma WorkflowIsReady(c: Context, w: Workflow, p: PreparedWorkflow, indexes: map<string, nat>)
    requires PreparedFrom(c, w, p) && GatesReady(p, indexes) && Distinct(Registered(p))
    ensures WellPrepared(p, c.compilerStep, indexes) && Indexed(p.gates, indexes) && ParentsPrecede(p.gates, indexes)
  {
    hide PreparedFrom, Registered, Collected, Consistent, GroupsDiffer, PrerequisitesLifted, DistinctSteps, Steps,
      Entries;
    DistinctInWorkflow(p, c.compilerStep);
    CollectedParts(Declarations(p.jobs), p.gates, indexes);
    forall j | j in p.jobs && j.PreparationResult() ensures j.gates == [] {
      JobIsValid(c, w, p, j);
    }
  }

  // ----- scopes of several workflows -----

  ghost predicate Laid(steps: seq<Step>, s: Scope) {
    && HasScope(steps, s)
    && (forall m :: m in s.members ==> m in StepKeys(steps))
    && (s.parent.Inside? ==> s.parent.close in StepKeys(steps))
  }

  lemma LaidEarlier(built: seq<Step>, added: seq<Step>, s: Scope)
    requires Laid(built, s) && StepKeys(added) !! StepKeys(built)
    ensures Laid(built + added, s)
  {
    hide HasScope, StepKeys;
    OldScopeStays(built, added, s);
    AllKeys(built, added);
  }

  lemma LaidLater(built: seq<Step>, added: seq<Step>, s: Scope)
    requires Laid(added, s) && StepKeys(added) !! StepKeys(built)
    ensures Laid(built + added, s)
  {
    hide HasScope, StepKeys;
    NewScopeArrives(built, added, s);
    AllKeys(built, added);
  }

  lemma DistinctHalves(a: seq<Step>, b: seq<Step>)
    requires DistinctSteps(a + b)
    ensures DistinctSteps(a) && StepKeys(b) !! StepKeys(a)
  {
    var all := a + b;
    forall i, j | 0 <= i < j < |a| ensures a[i].key != a[j].key { assert all[i].key != all[j].key; }
    forall s, t | s in a && t in b ensures s.key != t.key {
      var i :| 0 <= i < |a| && a[i] == s;
      var j :| 0 <= j < |b| && b[j] == t;
      assert all[i].key != all[|a| + j].key;
    }
  }

  lemma {:induction false} AllScopesLaid(ws: seq<PreparedWorkflow>, compilerStep: string,
                                         indexes: seq<map<string, nat>>)
    requires AllReady(ws, compilerStep, indexes) && DistinctSteps(AllSteps(ws, compilerStep))
    ensures forall s :: s in AllScopes(ws, compilerStep, indexes) ==> Laid(AllSteps(ws, compilerStep), s)
  {
    hide WellPrepared, Indexed, ParentsPrecede, Steps, Scopes, DistinctSteps, Laid;
    if ws != [] {
      var last := |ws| - 1;
      var front := AllSteps(ws[..last], compilerStep);
      var added := Steps(ws[last], compilerStep);
      DistinctHalves(front, added);
      AllScopesLaid(ws[..last], compilerStep, indexes[..last]);
      LaidInWorkflow(ws[last], compilerStep, indexes[last]);
      forall s | s in AllScopes(ws, compilerStep, indexes) ensures Laid(AllSteps(ws, compilerStep), s) {
        if s in AllScopes(ws[..last], compilerStep, indexes[..last]) { LaidEarlier(front, added, s); }
          else { LaidLater(front, added, s); }
      }
    }
  }

  lemma LaidInWorkflow(w: PreparedWorkflow, compilerStep: string, indexes: map<string, nat>)
    requires WellPrepared(w, compilerStep, indexes) && Indexed(w.gates, indexes) && ParentsPrecede(w.gates, indexes)
    ensures forall s :: s in Scopes(w, indexes) ==> Laid(Steps(w, compilerStep), s)
  {
    hide WellPrepared, Indexed, ParentsPrecede, Steps, Scopes, HasScope, StepKeys;
    ScopesHold(w, compilerStep, indexes);
  }

  // ----- coherence -----

  ghost function UploadOf(c: Context, ws: seq<PreparedWorkflow>, indexes: seq<map<string, nat>>): Upload
    requires AllReady(ws, c.compilerStep, indexes)
  {
    Upload(AllSteps(ws, c.compilerStep), AllScopes(ws, c.compilerStep, indexes))
  }

  /** An accepted pipeline without keyless steps is a coherent upload. */
  lemma EmittedIsCoherent(p: Pipeline, c: Context, ws: seq<PreparedWorkflow>, indexes: seq<map<string, nat>>)
    requires Accepted(p, c, ws, indexes) && forall w :: w in ws ==> !Keyless(w)
    ensures AllReady(ws, c.compilerStep, indexes)
    ensures Coherent(UploadOf(c, ws, indexes))
    ensures c.compilerStep !in StepKeys(UploadOf(c, ws, indexes).steps)
  {
    hide ValidHeader, PreparedFrom, GatesReady, QueuesOrderable, AllEntries, AllRegistered, Orderable, DistinctSteps,
      AllReady, Follows;
    PrefixIsReady(c, p.All(), ws, indexes);
    RegisteredOnceEmittedOnce(ws, c.compilerStep);
    AllScopesLaid(ws, c.compilerStep, indexes);
    AllStepsFollow(ws, c.compilerStep);
    var steps := AllSteps(ws, c.compilerStep);
    NoCompilerKey(c, p.All(), ws, indexes);
    FollowersOrderable(steps, AllEntries(ws, c.compilerStep), c.compilerStep);
    CoherentFromParts(UploadOf(c, ws, indexes));
  }

  lemma CoherentFromParts(u: Upload)
    requires DistinctSteps(u.steps) && Orderable(u.steps) && forall s :: s in u.scopes ==> Laid(u.steps, s)
    ensures Coherent(u)
  {
    hide HasScope, StepKeys, Orderable, DistinctSteps;
  }

  lemma NoCompilerKey(c: Context, all: seq<Workflow>, ws: seq<PreparedWorkflow>, indexes: seq<map<string, nat>>)
    requires PreparedPrefix(c, all, ws, indexes) && forall w :: w in ws ==> !Keyless(w)
    ensures c.compilerStep !in StepKeys(AllSteps(ws, c.compilerStep))
    ensures forall i :: 0 <= i < |AllSteps(ws, c.compilerStep)| ==>
        AllSteps(ws, c.compilerStep)[i].key != c.compilerStep
  {
    hide PreparedFrom, GatesReady, AllRegistered, AllSteps, AllEntries;
    RegisteredOnceEmittedOnce(ws, c.compilerStep);
    RegisteredAreNamed(c, all, ws, indexes);
  }

  /** No registered key is empty. */
  lemma {:induction false} RegisteredAreNamed(c: Context, all: seq<Workflow>, ws: seq<PreparedWorkflow>,
                                              indexes: seq<map<string, nat>>)
    requires |ws| == |indexes| && |ws| <= |all|
    requires forall i :: 0 <= i < |ws| ==> PreparedFrom(c, all[i], ws[i]) && GatesReady(ws[i], indexes[i])
    ensures forall k :: k in AllRegistered(ws) ==> k != ""
  {
    hide PreparedFrom, GatesReady, Registered;
    if ws != [] {
      var last := |ws| - 1;
      RegisteredAreNamed(c, all, ws[..last], indexes[..last]);
      WorkflowKeysNamed(c, all[last], ws[last], indexes[last]);
    }
  }

  lemma WorkflowKeysNamed(c: Context, w: Workflow, p: PreparedWorkflow, indexes: map<string, nat>)
    requires PreparedFrom(c, w, p) && GatesReady(p, indexes)
    ensures forall k :: k in Registered(p) ==> k != ""
  {
    hide OrderedFrom, Collected, Consistent, GroupsDiffer, PrerequisitesLifted, GatePairs, ApprovalUsed;
    PairsNamed(p.gates);
    forall k | k in KeysOf(p.jobs) ensures k != "" {
      var n :| 0 <= n < |p.jobs| && p.jobs[n].key == k;
      JobIsValid(c, w, p, p.jobs[n]);
    }
    forall k | k in ApprovalKeys(p.approvalGates) ensures k != "" {
      var n :| 0 <= n < |p.approvalGates| && p.approvalGates[n].key == k;
      assert p.approvalGates[n] in w.approvalGates;
      assert ValidStepKey(k);
    }
  }

  lemma {:induction false} PairsNamed(gates: seq<PreparedGate>)
    requires forall x :: 0 <= x < |gates| ==> gates[x].openKey != "" && gates[x].closeKey != ""
    ensures forall k :: k in GatePairs(gates) ==> k != ""
  {
    if gates != [] { PairsNamed(gates[..|gates| - 1]); }
  }

  // ----- dependencies resolve -----

  /** The key belongs to the workflow's steps, to the build already, or to the compiler step. */
  ghost predicate Known(c: Context, steps: seq<Step>, key: string) {
    key in StepKeys(steps) || key in c.existing || (key == c.compilerStep && key != "")
  }

  ghost predicate Resolved(c: Context, steps: seq<Step>, needs: seq<Dependency>) {
    forall d :: d in needs ==> Known(c, steps, d.step)
  }

  lemma ResolvedJoin(c: Context, steps: seq<Step>, a: seq<Dependency>, b: seq<Dependency>)
    requires Resolved(c, steps, a) && Resolved(c, steps, b)
    ensures Resolved(c, steps, a + b)
  {
    hide Known;
  }

  lemma StrictResolved(c: Context, steps: seq<Step>, key: string)
    requires key == "" || Known(c, steps, key)
    ensures Resolved(c, steps, Strict(key))
  {
    hide Known;
  }

  lemma TolerantResolved(c: Context, steps: seq<Step>, keys: seq<string>)
    requires forall k :: k in keys ==> Known(c, steps, k)
    ensures Resolved(c, steps, Tolerant(keys))
  {
    hide Known;
  }

  lemma CompilerResolved(c: Context, steps: seq<Step>, w: PreparedWorkflow)
    ensures Resolved(c, steps, CompilerNeed(w, c.compilerStep)) && Resolved(c, steps, Strict(c.compilerStep))
  {
  }

  /** Every key that dependencies of the workflow use. */
  ghost predicate KeysKnown(c: Context, w: PreparedWorkflow, steps: seq<Step>) {
    && (forall j :: j in w.jobs ==> Known(c, steps, j.key))
    && (forall j, d :: j in w.jobs && d in j.dependencies ==> Known(c, steps, d))
    && (forall j :: j in w.jobs && j.approvalGate != "" ==> Known(c, steps, j.approvalGate))
    && (w.gate.Some? ==> Known(c, steps, w.gateOpenKey) && Known(c, steps, w.gateCloseKey))
    && (w.gate.None? ==> w.gateOpenKey == "")
    && (forall g :: g in w.gates ==> Known(c, steps, g.openKey) && Known(c, steps, g.closeKey))
  }

  lemma WorkflowKeysKnown(c: Context, w: Workflow, p: PreparedWorkflow, indexes: map<string, nat>)
    requires PreparedFrom(c, w, p) && GatesReady(p, indexes) && !Dropped(p)
    ensures KeysKnown(c, p, Steps(p, c.compilerStep))
  {
    hide OrderedFrom, Collected, Consistent, GroupsDiffer, PrerequisitesLifted, Steps, StepKeys, ApprovalUsed, KeysOf,
      ApprovalKeys, KeysIn, StepKeySeq;
    var steps := Steps(p, c.compilerStep);
    StepKeySeqOf(p, c.compilerStep);
    KeySeqIsKeys(steps);
    forall k | k in OwnGateKeys(p) || k in GatePairs(p.gates) || k in KeysOf(p.jobs) ||
        k in ApprovalKeys(p.approvalGates)
      ensures Known(c, steps, k)
    {
      assert k in StepKeySeq(steps);
    }
    PairsListed(p.gates);
    forall j | j in p.jobs ensures Known(c, steps, j.key) && forall d :: d in j.dependencies ==> Known(c, steps, d) {
      JobListed(p.jobs, j);
      JobIsValid(c, w, p, j);
    }
  }

  lemma JobListed(jobs: seq<Job>, j: Job)
    requires j in jobs
    ensures j.key in KeysOf(jobs) && forall k :: k in KeysIn(KeysOf(jobs)) ==> k in KeysOf(jobs)
  {
    var n :| 0 <= n < |jobs| && jobs[n] == j;
    assert KeysOf(jobs)[n] == j.key;
  }

  lemma {:induction false} PairsListed(gates: seq<PreparedGate>)
    ensures forall g :: g in gates ==> g.openKey in GatePairs(gates) && g.closeKey in GatePairs(gates)
  {
    if gates != [] {
      var front, last := gates[..|gates| - 1], gates[|gates| - 1];
      PairsListed(front);
      assert gates == front + [last];
      assert last.openKey in [last.openKey, last.closeKey] && last.closeKey in [last.openKey, last.closeKey];
    }
  }

  lemma PrerequisiteIsNeed(jobs: seq<Job>, gates: seq<PreparedGate>, x: nat, k: string) returns (j: Job)
    requires PrerequisitesLifted(jobs, gates) && x < |gates| && k in gates[x].prerequisites
    ensures j in jobs && k in j.dependencies
  {
    hide Distinct;
    var byKey :| Files(jobs, byKey) && LiftedAll(byKey, gates);
    assert Lifts(NeedsIn(byKey), gates[x].members, gates[x].prerequisites);
    var i :| 0 <= i < |gates[x].members| && k in Successors(NeedsIn(byKey), gates[x].members[i]);
    assert gates[x].members[i] in KeySet(jobs);
    j :| j in jobs && j.key == gates[x].members[i];
    var n :| 0 <= n < |jobs| && jobs[n] == j;
  }

  lemma OpenResolved(c: Context, w: PreparedWorkflow, steps: seq<Step>, indexes: map<string, nat>, x: nat)
    requires KeysKnown(c, w, steps) && Indexed(w.gates, indexes) && ParentsPrecede(w.gates, indexes) && x < |w.gates|
    requires PrerequisitesLifted(w.jobs, w.gates)
    ensures Resolved(c, steps, OpenEntry(w, x, c.compilerStep).needs)
  {
    hide Known, PrerequisitesLifted, OpenNeeds, OpenKeys;
    var g := w.gates[x];
    var scope := ScopeOf(w, g, OpenKeys(w.gates[..x]), c.compilerStep);
    OpenNeedsExactly(scope, g.prerequisites);
    if g.parentID != "" { OpenKeyFound(w.gates, indexes, x, indexes[g.parentID]); }
    assert scope != "" ==> Known(c, steps, scope) by { CompilerKnown(c, steps); }
    forall d | d in OpenNeeds(scope, g.prerequisites) ensures Known(c, steps, d.step) {
      if d.allowFailure { var j := PrerequisiteIsNeed(w.jobs, w.gates, x, d.step); }
    }
  }

  lemma CompilerKnown(c: Context, steps: seq<Step>)
    ensures c.compilerStep != "" ==> Known(c, steps, c.compilerStep)
  {
  }

  lemma MembersKnown(c: Context, w: PreparedWorkflow, steps: seq<Step>, indexes: map<string, nat>, x: nat)
    requires WellPrepared(w, c.compilerStep, indexes) && KeysKnown(c, w, steps) && x < |w.gates|
    ensures forall m :: m in w.gates[x].members ==> Known(c, steps, m)
  {
    hide WellPrepared, Known;
    forall m | m in w.gates[x].members ensures Known(c, steps, m) {
      var n, q := MembersOf(w, c.compilerStep, indexes, x, m);
      assert w.jobs[n] in w.jobs;
    }
  }

  lemma CloseResolved(c: Context, w: PreparedWorkflow, steps: seq<Step>, indexes: map<string, nat>, x: nat)
    requires WellPrepared(w, c.compilerStep, indexes) && KeysKnown(c, w, steps) && x < |w.gates|
    ensures Resolved(c, steps, CloseEntry(w, x).needs)
  {
    hide WellPrepared, Known;
    MembersKnown(c, w, steps, indexes, x);
    ChildClosesExactly(w.gates, w.gates[x].id);
    TolerantResolved(c, steps, w.gates[x].members + ChildCloses(w.gates, w.gates[x].id));
  }

  lemma WorkflowCloseResolved(c: Context, w: PreparedWorkflow, steps: seq<Step>)
    requires KeysKnown(c, w, steps)
    ensures Resolved(c, steps, WorkflowCloseNeeds(w, c.compilerStep))
  {
    hide Known, CompilerNeed;
    ChildClosesExactly(w.gates, "");
    forall k | k in KeysOf(w.jobs) ensures Known(c, steps, k) {
      var n :| 0 <= n < |w.jobs| && w.jobs[n].key == k;
      assert w.jobs[n] in w.jobs;
    }
    TolerantResolved(c, steps, KeysOf(w.jobs) + ChildCloses(w.gates, ""));
    CompilerResolved(c, steps, w);
    ResolvedJoin(c, steps, CompilerNeed(w, c.compilerStep), Tolerant(KeysOf(w.jobs) + ChildCloses(w.gates, "")));
  }

  /** Every gate a job names has an opening step. */
  lemma JobGatesFound(c: Context, w: PreparedWorkflow, steps: seq<Step>, indexes: map<string, nat>, n: nat)
    requires WellPrepared(w, c.compilerStep, indexes) && KeysKnown(c, w, steps) && n < |w.jobs|
    ensures Resolved(c, steps, GateNeeds(w.jobs[n].gates, OpenKeys(w.gates)))
  {
    hide Known, WellPrepared, OpenKeys, KeysKnown;
    var needs := GateNeeds(w.jobs[n].gates, OpenKeys(w.gates));
    forall d | d in needs ensures Known(c, steps, d.step) {
      var q :| 0 <= q < |needs| && needs[q] == d;
      JobGateFound(c, w, steps, indexes, n, q);
    }
  }

  lemma JobGateFound(c: Context, w: PreparedWorkflow, steps: seq<Step>, indexes: map<string, nat>, n: nat, q: nat)
    requires WellPrepared(w, c.compilerStep, indexes) && KeysKnown(c, w, steps) && n < |w.jobs| && q < |w.jobs[n].gates|
    ensures Known(c, steps, Lookup(OpenKeys(w.gates), w.jobs[n].gates[q].id))
  {
    hide Known, DistinctSteps, Consistent, OpenKeys, Collected, Lookup;
    CollectedParts(Declarations(w.jobs), w.gates, indexes);
    GateOf(w.jobs, w.gates, indexes, n, q);
    var x := indexes[w.jobs[n].gates[q].id];
    OpenKeyFound(w.gates, indexes, |w.gates|, x);
    assert w.gates[..|w.gates|] == w.gates;
    assert w.gates[x] in w.gates;
  }

  lemma JobResolved(c: Context, w: PreparedWorkflow, steps: seq<Step>, indexes: map<string, nat>, n: nat)
    requires WellPrepared(w, c.compilerStep, indexes) && KeysKnown(c, w, steps) && n < |w.jobs|
    ensures Resolved(c, steps, JobEntry(w, n, c.compilerStep).needs)
  {
    hide WellPrepared, Known, CompilerNeed, Strict, Tolerant, GateNeeds, Resolved, OpenKeys;
    var j := w.jobs[n];
    assert j in w.jobs;
    var a := CompilerNeed(w, c.compilerStep);
    var b := if j.PreparationResult() then [] else Strict(w.gateOpenKey);
    CompilerResolved(c, steps, w);
    StrictResolved(c, steps, w.gateOpenKey);
    assert Resolved(c, steps, []) by { NothingToResolve(c, steps); }
    TolerantResolved(c, steps, j.dependencies);
    JobGatesFound(c, w, steps, indexes, n);
    StrictResolved(c, steps, j.approvalGate);
    ResolvedJoin(c, steps, a, b);
    ResolvedJoin(c, steps, a + b, Tolerant(j.dependencies));
    ResolvedJoin(c, steps, a + b + Tolerant(j.dependencies), GateNeeds(j.gates, OpenKeys(w.gates)));
    ResolvedJoin(c, steps, a + b + Tolerant(j.dependencies) + GateNeeds(j.gates, OpenKeys(w.gates)),
      Strict(j.approvalGate));
  }

  lemma NothingToResolve(c: Context, steps: seq<Step>)
    ensures Resolved(c, steps, [])
  {
  }

  ghost predicate AllResolved(c: Context, steps: seq<Step>, these: seq<Step>) {
    forall s :: s in these ==> Resolved(c, steps, s.needs)
  }

  lemma {:induction false} GateEntriesResolved(c: Context, w: PreparedWorkflow, steps: seq<Step>,
                                               indexes: map<string, nat>, n: nat)
    requires WellPrepared(w, c.compilerStep, indexes) && KeysKnown(c, w, steps) && n <= |w.gates|
    requires PrerequisitesLifted(w.jobs, w.gates) && Indexed(w.gates, indexes) && ParentsPrecede(w.gates, indexes)
    ensures AllResolved(c, steps, GateEntries(w, n, c.compilerStep))
  {
    hide WellPrepared, KeysKnown, Resolved, PrerequisitesLifted, Indexed, ParentsPrecede, OpenEntry, CloseEntry;
    if n > 0 {
      GateEntriesResolved(c, w, steps, indexes, n - 1);
      OpenResolved(c, w, steps, indexes, n - 1);
      CloseResolved(c, w, steps, indexes, n - 1);
    }
  }

  lemma {:induction false} JobEntriesResolved(c: Context, w: PreparedWorkflow, steps: seq<Step>,
                                              indexes: map<string, nat>, n: nat)
    requires WellPrepared(w, c.compilerStep, indexes) && KeysKnown(c, w, steps) && n <= |w.jobs|
    ensures AllResolved(c, steps, JobEntries(w, n, c.compilerStep))
  {
    hide WellPrepared, KeysKnown, Resolved, JobEntry;
    if n > 0 {
      JobEntriesResolved(c, w, steps, indexes, n - 1);
      JobResolved(c, w, steps, indexes, n - 1);
    }
  }

  lemma {:induction false} ApprovalsResolved(c: Context, w: PreparedWorkflow, steps: seq<Step>, n: nat)
    requires n <= |w.approvalGates|
    ensures AllResolved(c, steps, ApprovalEntries(w, n, c.compilerStep))
  {
    hide Resolved;
    if n > 0 {
      ApprovalsResolved(c, w, steps, n - 1);
      CompilerResolved(c, steps, w);
    }
  }

  lemma OwnGateResolved(c: Context, w: PreparedWorkflow, steps: seq<Step>)
    requires KeysKnown(c, w, steps)
    ensures AllResolved(c, steps, WorkflowGateEntries(w, CompilerNeed(w, c.compilerStep), c.compilerStep))
  {
    hide KeysKnown, Resolved, CompilerNeed, WorkflowCloseNeeds;
    CompilerResolved(c, steps, w);
    WorkflowCloseResolved(c, w, steps);
  }

  lemma WorkflowResolved(c: Context, w: Workflow, p: PreparedWorkflow, indexes: map<string, nat>)
    requires PreparedFrom(c, w, p) && GatesReady(p, indexes)
    requires WellPrepared(p, c.compilerStep, indexes) && Indexed(p.gates, indexes) && ParentsPrecede(p.gates, indexes)
    ensures AllResolved(c, Steps(p, c.compilerStep), Steps(p, c.compilerStep))
  {
    hide PreparedFrom, Indexed, ParentsPrecede, WellPrepared, KeysKnown, Resolved, PrerequisitesLifted, Collected,
      Consistent, GroupsDiffer;
    hide WorkflowGateEntries, GateEntries, JobEntries, ApprovalEntries, CompilerNeed;
    var steps := Steps(p, c.compilerStep);
    CompilerResolved(c, steps, p);
    if !Dropped(p) {
      WorkflowKeysKnown(c, w, p, indexes);
      OwnGateResolved(c, p, steps);
      GateEntriesResolved(c, p, steps, indexes, |p.gates|);
      JobEntriesResolved(c, p, steps, indexes, |p.jobs|);
      ApprovalsResolved(c, p, steps, |p.approvalGates|);
      PlacedResolved(c, p, steps, Inner(p, c.compilerStep));
    }
  }

  lemma PlacedResolved(c: Context, p: PreparedWorkflow, steps: seq<Step>, inner: seq<Step>)
    requires AllResolved(c, steps, inner)
    ensures AllResolved(c, steps, Placed(p, c.compilerStep, inner))
  {
    hide Resolved;
    var placed := Placed(p, c.compilerStep, inner);
    forall s | s in placed ensures Resolved(c, steps, s.needs) {
      var i :| 0 <= i < |placed| && placed[i] == s;
      assert inner[i] in inner;
      CompilerResolved(c, steps, p);
      ResolvedJoin(c, steps, Strict(c.compilerStep), inner[i].needs);
    }
  }

  lemma ResolvedInMore(c: Context, steps: seq<Step>, more: seq<Step>, these: seq<Step>)
    requires AllResolved(c, steps, these) && StepKeys(steps) <= StepKeys(more)
    ensures AllResolved(c, more, these)
  {
    hide StepKeys;
    forall s, d | s in these && d in s.needs ensures Known(c, more, d.step) {
      assert Resolved(c, steps, s.needs);
    }
  }

  /** Each dependency is on an emitted step, a step of the build, or the compiler step. */
  lemma {:induction false} EmittedNeedsResolve(c: Context, all: seq<Workflow>, ws: seq<PreparedWorkflow>,
                                               indexes: seq<map<string, nat>>)
    requires |ws| <= |all| && AllReady(ws, c.compilerStep, indexes)
    requires forall i :: 0 <= i < |ws| ==> PreparedFrom(c, all[i], ws[i]) && GatesReady(ws[i], indexes[i])
    ensures AllResolved(c, AllSteps(ws, c.compilerStep), AllSteps(ws, c.compilerStep))
  {
    hide PreparedFrom, GatesReady, WellPrepared, Indexed, ParentsPrecede, Steps, AllResolved, StepKeys;
    var steps := AllSteps(ws, c.compilerStep);
    if ws == [] {
      assert AllResolved(c, [], []) by { NoSteps(c); }
    } else {
      var last := |ws| - 1;
      var front, added := AllSteps(ws[..last], c.compilerStep), Steps(ws[last], c.compilerStep);
      EmittedNeedsResolve(c, all, ws[..last], indexes[..last]);
      WorkflowResolved(c, all[last], ws[last], indexes[last]);
      AllKeys(front, added);
      ResolvedInMore(c, front, steps, front);
      ResolvedInMore(c, added, steps, added);
      BothResolved(c, steps, front, added);
    }
  }

  lemma NoSteps(c: Context)
    ensures AllResolved(c, [], [])
  {
  }

  lemma BothResolved(c: Context, steps: seq<Step>, a: seq<Step>, b: seq<Step>)
    requires AllResolved(c, steps, a) && AllResolved(c, steps, b)
    ensures AllResolved(c, steps, a + b)
  {
    hide Resolved;
  }

  // ----- meeting the scheduler -----

  /** An accepted pipeline may be appended to any build that has the compiler step and the
      existing steps but none of its keys: all results on runs then apply to it. */
  lemma EmittedIsAcceptable(p: Pipeline, c: Context, ws: seq<PreparedWorkflow>, indexes: seq<map<string, nat>>,
                            b: Scheduler.Build)
    requires Accepted(p, c, ws, indexes) && forall w :: w in ws ==> !Keyless(w)
    requires AllReady(ws, c.compilerStep, indexes)
    requires c.existing <= StepKeys(b.steps) && (c.compilerStep != "" ==> c.compilerStep in StepKeys(b.steps))
    requires StepKeys(AllSteps(ws, c.compilerStep)) !! StepKeys(b.steps)
    ensures Scheduler.Acceptable(b, UploadOf(c, ws, indexes))
  {
    hide ValidHeader, PreparedFrom, GatesReady, QueuesOrderable, AllSteps, Coherent, StepKeys, AllReady;
    EmittedIsCoherent(p, c, ws, indexes);
    EmittedNeedsResolve(c, p.All(), ws, indexes);
    var u := UploadOf(c, ws, indexes);
    forall i, d | 0 <= i < |u.steps| && d in u.steps[i].needs ensures d.step in StepKeys(b.steps) + StepKeys(u.steps) {
      assert u.steps[i] in u.steps;
      assert Resolved(c, u.steps, u.steps[i].needs);
    }
  }

  /** The condition on keys is exact: a keyless workflow emits a step whose key is empty. */
  lemma {:induction false} EmptyKeyExactly(c: Context, all: seq<Workflow>, ws: seq<PreparedWorkflow>,
                                           indexes: seq<map<string, nat>>)
    requires PreparedPrefix(c, all, ws, indexes)
    ensures "" in StepKeys(AllSteps(ws, c.compilerStep)) <==> exists w :: w in ws && Keyless(w)
  {
    hide PreparedFrom, GatesReady, AllRegistered, Steps, AllEntries, Keyless, StepKeys;
    if w :| w in ws && Keyless(w) {
      var i :| 0 <= i < |ws| && ws[i] == w;
      KeylessStep(ws, c.compilerStep, i);
    } else {
      RegisteredOnceEmittedOnce(ws, c.compilerStep);
      RegisteredAreNamed(c, all, ws, indexes);
    }
  }

  lemma {:induction false} KeylessStep(ws: seq<PreparedWorkflow>, compilerStep: string, i: nat)
    requires i < |ws| && Keyless(ws[i])
    ensures "" in StepKeys(AllSteps(ws, compilerStep))
  {
    hide StepKeys;
    var last := |ws| - 1;
    var front, added := AllSteps(ws[..last], compilerStep), Steps(ws[last], compilerStep);
    AllKeys(front, added);
    if i == last { KeyOfMember(added, 0); } else { KeylessStep(ws[..last], compilerStep, i); }
  }

  // ----- an empty key that Emit accepts -----

  const FAILED := Workflow("", true, "", false, None, [], [])
  const KEYLESS := Pipeline("", "p", true, [], [FAILED], None, [], [])

  /** The empty key is real: a deferred pipeline with a failed workflow is accepted, and its step has none. */
  lemma EmptyKeyIsAccepted(digest: string -> string) returns (ws: seq<PreparedWorkflow>, indexes: seq<map<string, nat>>)
    ensures Accepted(KEYLESS, ContextOf(KEYLESS, digest), ws, indexes)
    ensures "" in StepKeys(AllSteps(ws, KEYLESS.compilerStep))
  {
    hide GatesReady, PreparedFrom, Preparable, StepKeys, QueuesOrderable;
    var c := ContextOf(KEYLESS, digest);
    var w := PreparedWorkflow("", true, "", false, true, None, "", "", [], [], []);
    ws, indexes := [w], [map[]];
    NothingToPrepare(c, w, FAILED);
    NothingToQueue(w);
    assert ws[..0] == [];
    assert ValidHeader(KEYLESS) && KEYLESS.All() == [FAILED];
    assert AllRegistered(ws) == AllRegistered([]) + Registered(w) &&
      AllDigests(ws) == AllDigests([]) + PlannedDigests(w.jobs);
    assert AllPreparable(c, [FAILED], ws);
    KeylessStep(ws, "", 0);
  }

  lemma NothingToPrepare(c: Context, p: PreparedWorkflow, w: Workflow)
    requires c.deferred && c.aggregate && c.compilerStep == "" && w == FAILED
    requires p == PreparedWorkflow("", true, "", false, true, None, "", "", [], [], [])
    ensures PreparedFrom(c, w, p) && GatesReady(p, map[]) && Registered(p) == []
    ensures forall used, digests :: Preparable(c, w, used, digests)
  {
    hide OrderedFrom, PrerequisitesLifted, Gateable;
    NothingOrdered(c);
    NothingLifted();
    forall used, digests ensures Preparable(c, w, used, digests) {
      assert Suits(c, w, [], used, digests);
    }
  }

  lemma NothingOrdered(c: Context)
    ensures OrderedFrom(c, [], [])
  {
    var g := JobOrder.NeedsGraph(JobOrder.ByKey([]));
    assert JobOrder.IsOrder(g, KeySet([]), []);
    forall other | JobOrder.IsOrder(g, KeySet([]), other) ensures other == [] {
      JobOrder.OrderLength(KeySet([]), other);
    }
  }

  lemma NothingLifted()
    ensures PrerequisitesLifted([], []) && Files([], map[]) && Gateable([], map[])
  {
    assert Files([], map[]) && LiftedAll(map[], []);
  }

  lemma NothingToQueue(w: PreparedWorkflow)
    requires Dropped(w) && w.jobs == [] && w.gates == [] && w.gate.None? && w.approvalGates == []
    ensures QueuesOrderable(AllEntries([w], ""))
  {
    assert [w][..0] == [];
    assert KeyRank(AllEntries([w], ""), map[]);
  }
}
