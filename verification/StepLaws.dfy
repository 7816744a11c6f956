/** What each emitted step waits for, written out in terms of the workflow, and what that means in a run. */
module StepLaws {
  import opened Pipelines
  import opened Claims
  import opened Uploads
  import opened JobOrder
  import opened GatePreparation
  import opened StepNeeds
  import opened QueueCheck
  import opened EmittedSteps
  import opened KeyRegister
  import opened Emit
  import opened Coherence
  import Scheduler

  // ----- the laws -----

  /** The steps are inside a group, which waits for the compiler step on behalf of all. */
  predicate Grouped(w: PreparedWorkflow) {
    w.aggregate && !w.ungrouped
  }

  /** The compiler step, if it has a name, has to pass. */
  predicate AwaitsCompiler(compilerStep: string, d: Dependency) {
    compilerStep != "" && d == Dependency(compilerStep, false)
  }

  ghost predicate JobWaits(w: PreparedWorkflow, job: Job, compilerStep: string, d: Dependency) {
    || AwaitsCompiler(compilerStep, d)
    || (!job.failure && job.skipReason == "" && w.gate.Some? && d == Dependency(w.gateOpenKey, false))
    || (d.allowFailure && d.step in job.dependencies)
    || (exists g, q :: g in job.gates && q in w.gates && q.id == g.id && d == Dependency(q.openKey, false))
    || (job.approvalGate != "" && d == Dependency(job.approvalGate, false))
  }

  /** The key of the opening step of the scope around a gate, or of the compiler step outside all scopes. */
  ghost predicate IsScope(w: PreparedWorkflow, gate: PreparedGate, compilerStep: string, key: string) {
    if gate.parentID != "" then exists q :: q in w.gates && q.id == gate.parentID && key == q.openKey
    else if w.gate.Some? then key == w.gateOpenKey
    else !Grouped(w) && key == compilerStep && key != ""
  }

  ghost predicate OpenWaits(w: PreparedWorkflow, gate: PreparedGate, compilerStep: string, d: Dependency) {
    || (Grouped(w) && AwaitsCompiler(compilerStep, d))
    || (!d.allowFailure && IsScope(w, gate, compilerStep, d.step))
    || (d.allowFailure && d.step != "" && d.step in gate.prerequisites && !IsScope(w, gate, compilerStep, d.step))
  }

  ghost predicate CloseWaits(w: PreparedWorkflow, gate: PreparedGate, compilerStep: string, d: Dependency) {
    || (Grouped(w) && AwaitsCompiler(compilerStep, d))
    || (d.allowFailure && d.step in gate.members)
    || (d.allowFailure && exists q :: q in w.gates && q.parentID == gate.id && d.step == q.closeKey)
  }

  ghost predicate OwnCloseWaits(w: PreparedWorkflow, compilerStep: string, d: Dependency) {
    || AwaitsCompiler(compilerStep, d)
    || (d.allowFailure && exists j :: j in w.jobs && d.step == j.key)
    || (d.allowFailure && exists q :: q in w.gates && q.parentID == "" && d.step == q.closeKey)
  }

  ghost predicate IsJobStep(w: PreparedWorkflow, job: Job, compilerStep: string, s: Step) {
    && s.key == job.key && s.group == job.concurrencyGroup
    && forall d :: d in s.needs <==> JobWaits(w, job, compilerStep, d)
  }

  ghost predicate IsOpenStep(w: PreparedWorkflow, gate: PreparedGate, compilerStep: string, s: Step) {
    && s.key == gate.openKey && s.group == gate.group
    && forall d :: d in s.needs <==> OpenWaits(w, gate, compilerStep, d)
  }

  ghost predicate IsCloseStep(w: PreparedWorkflow, gate: PreparedGate, compilerStep: string, s: Step) {
    && s.key == gate.closeKey && s.group == gate.group
    && forall d :: d in s.needs <==> CloseWaits(w, gate, compilerStep, d)
  }

  /** A step that waits for the compiler step only. */
  ghost predicate IsFreeStep(key: string, group: string, compilerStep: string, s: Step) {
    && s.key == key && s.group == group
    && forall d :: d in s.needs <==> AwaitsCompiler(compilerStep, d)
  }

  ghost predicate IsOwnGate(w: PreparedWorkflow, compilerStep: string, open: Step, close: Step)
    requires w.gate.Some?
  {
    && IsFreeStep(w.gateOpenKey, w.gate.value.group, compilerStep, open)
    && close.key == w.gateCloseKey && close.group == w.gate.value.group
    && forall d :: d in close.needs <==> OwnCloseWaits(w, compilerStep, d)
  }

  /** The workflow's own gate, then the gates in their order, then the jobs, then the approval gates; of a failed
      workflow, and of a skipped one of an aggregate, a single step. */
  ghost predicate Lawful(w: PreparedWorkflow, compilerStep: string, steps: seq<Step>) {
    if w.failure || (w.skipReason != "" && w.aggregate) then
      |steps| == 1 && IsFreeStep(w.groupKey, "", compilerStep, steps[0])
    else
      var own := if w.gate.Some? then 2 else 0;
      var jobs := own + 2 * |w.gates|;
      && |steps| == jobs + |w.jobs| + |w.approvalGates|
      && (w.gate.Some? ==> IsOwnGate(w, compilerStep, steps[0], steps[1]))
      && (forall x :: 0 <= x < |w.gates| ==>
            && IsOpenStep(w, w.gates[x], compilerStep, steps[own + 2 * x])
            && IsCloseStep(w, w.gates[x], compilerStep, steps[own + 2 * x + 1]))
      && (forall n :: 0 <= n < |w.jobs| ==> IsJobStep(w, w.jobs[n], compilerStep, steps[jobs + n]))
      && (forall n :: 0 <= n < |w.approvalGates| ==>
            IsFreeStep(w.approvalGates[n].key, "", compilerStep, steps[jobs + |w.jobs| + n]))
  }

  // ----- the emitted steps obey them -----

  lemma WithinExactly(w: PreparedWorkflow, compilerStep: string, s: Step)
    ensures var t := Within(w, compilerStep, s);
            && t.key == s.key && t.group == s.group
            && forall d :: d in t.needs <==> d in s.needs || (Grouped(w) && AwaitsCompiler(compilerStep, d))
  {
  }

  lemma StrictExactly(step: string)
    ensures forall d :: d in Strict(step) <==> step != "" && d == Dependency(step, false)
  {
  }

  lemma CompilerExactly(w: PreparedWorkflow, compilerStep: string)
    ensures forall d :: d in CompilerNeed(w, compilerStep) <==> !Grouped(w) && AwaitsCompiler(compilerStep, d)
  {
  }

  /** Every scope a job names is among the gates. */
  ghost predicate GatesKnown(w: PreparedWorkflow, indexes: map<string, nat>, job: Job) {
    forall p :: 0 <= p < |job.gates| ==> job.gates[p].id in indexes
  }

  lemma GateNeedsExactly(w: PreparedWorkflow, indexes: map<string, nat>, job: Job)
    requires Indexed(w.gates, indexes) && GatesKnown(w, indexes, job)
    ensures forall d :: d in GateNeeds(job.gates, OpenKeys(w.gates)) <==>
              exists g, q :: g in job.gates && q in w.gates && q.id == g.id && d == Dependency(q.openKey, false)
  {
    hide OpenKeys, Lookup;
    var needs := GateNeeds(job.gates, OpenKeys(w.gates));
    assert w.gates[..|w.gates|] == w.gates;
    forall p | 0 <= p < |job.gates|
      ensures var q := w.gates[indexes[job.gates[p].id]];
              q in w.gates && q.id == job.gates[p].id && needs[p] == Dependency(q.openKey, false)
    {
      OpenKeyFound(w.gates, indexes, |w.gates|, indexes[job.gates[p].id]);
    }
    forall d | exists g, q :: g in job.gates && q in w.gates && q.id == g.id && d == Dependency(q.openKey, false)
      ensures d in needs
    {
      var g, q :| g in job.gates && q in w.gates && q.id == g.id && d == Dependency(q.openKey, false);
      var p :| 0 <= p < |job.gates| && job.gates[p] == g;
      OneGate(w.gates, indexes, q);
      assert needs[p] in needs;
    }
  }

  /** An ID is that of one gate. */
  lemma OneGate(gates: seq<PreparedGate>, indexes: map<string, nat>, q: PreparedGate)
    requires Indexed(gates, indexes) && q in gates
    ensures q.id in indexes && gates[indexes[q.id]] == q
  {
    var x :| 0 <= x < |gates| && gates[x] == q;
  }

  lemma JobStepIs(w: PreparedWorkflow, compilerStep: string, indexes: map<string, nat>, n: nat)
    requires Indexed(w.gates, indexes) && n < |w.jobs| && GatesKnown(w, indexes, w.jobs[n])
    requires w.gate.Some? <==> w.gateOpenKey != ""
    ensures IsJobStep(w, w.jobs[n], compilerStep, Within(w, compilerStep, JobEntry(w, n, compilerStep)))
  {
    hide Within, OpenKeys, GateNeeds, Strict, CompilerNeed, Grouped, Indexed, AwaitsCompiler;
    var job := w.jobs[n];
    WithinExactly(w, compilerStep, JobEntry(w, n, compilerStep));
    CompilerExactly(w, compilerStep);
    StrictExactly(w.gateOpenKey);
    StrictExactly(job.approvalGate);
    GateNeedsExactly(w, indexes, job);
  }

  lemma ScopeExactly(w: PreparedWorkflow, compilerStep: string, indexes: map<string, nat>, x: nat)
    requires Indexed(w.gates, indexes) && ParentsPrecede(w.gates, indexes) && x < |w.gates|
    requires w.gate.Some? <==> w.gateOpenKey != ""
    requires forall g :: g in w.gates ==> g.openKey != ""
    ensures var scope := ScopeOf(w, w.gates[x], OpenKeys(w.gates[..x]), compilerStep);
            forall k :: IsScope(w, w.gates[x], compilerStep, k) <==> k == scope && k != ""
  {
    hide OpenKeys, Lookup;
    var gate := w.gates[x];
    if gate.parentID != "" {
      var y := indexes[gate.parentID];
      OpenKeyFound(w.gates, indexes, x, y);
      assert w.gates[y] in w.gates;
      forall q | q in w.gates && q.id == gate.parentID ensures q == w.gates[y] {
        OneGate(w.gates, indexes, q);
      }
    }
  }

  lemma OpenStepIs(w: PreparedWorkflow, compilerStep: string, indexes: map<string, nat>, x: nat)
    requires Indexed(w.gates, indexes) && ParentsPrecede(w.gates, indexes) && x < |w.gates|
    requires w.gate.Some? <==> w.gateOpenKey != ""
    requires forall g :: g in w.gates ==> g.openKey != ""
    ensures IsOpenStep(w, w.gates[x], compilerStep, Within(w, compilerStep, OpenEntry(w, x, compilerStep)))
  {
    hide Within, OpenKeys, OpenNeeds, ScopeOf, IsScope, Grouped, Indexed, ParentsPrecede, AwaitsCompiler;
    var scope := ScopeOf(w, w.gates[x], OpenKeys(w.gates[..x]), compilerStep);
    ScopeExactly(w, compilerStep, indexes, x);
    OpenNeedsExactly(scope, w.gates[x].prerequisites);
    WithinExactly(w, compilerStep, OpenEntry(w, x, compilerStep));
  }

  lemma CloseStepIs(w: PreparedWorkflow, compilerStep: string, x: nat)
    requires x < |w.gates|
    ensures IsCloseStep(w, w.gates[x], compilerStep, Within(w, compilerStep, CloseEntry(w, x)))
  {
    hide Within, Grouped, AwaitsCompiler;
    ChildClosesExactly(w.gates, w.gates[x].id);
    WithinExactly(w, compilerStep, CloseEntry(w, x));
  }

  lemma OwnGateIs(w: PreparedWorkflow, compilerStep: string)
    requires w.gate.Some?
    ensures IsOwnGate(w, compilerStep,
                      Within(w, compilerStep, Step(w.gateOpenKey, w.gate.value.group, CompilerNeed(w, compilerStep))),
                      Within(w, compilerStep,
                             Step(w.gateCloseKey, w.gate.value.group, WorkflowCloseNeeds(w, compilerStep))))
  {
    hide Within, CompilerNeed, Grouped, AwaitsCompiler;
    CompilerExactly(w, compilerStep);
    ChildClosesExactly(w.gates, "");
    KeysExactly(w.jobs);
    WithinExactly(w, compilerStep, Step(w.gateOpenKey, w.gate.value.group, CompilerNeed(w, compilerStep)));
    WithinExactly(w, compilerStep, Step(w.gateCloseKey, w.gate.value.group, WorkflowCloseNeeds(w, compilerStep)));
  }

  lemma KeysExactly(jobs: seq<Job>)
    ensures forall k :: k in KeysOf(jobs) <==> exists j :: j in jobs && k == j.key
  {
    forall j | j in jobs ensures j.key in KeysOf(jobs) {
      JobListed(jobs, j);
    }
  }

  lemma FreeStepIs(w: PreparedWorkflow, compilerStep: string, key: string)
    ensures IsFreeStep(key, "", compilerStep, Within(w, compilerStep, Step(key, "", Strict(compilerStep))))
  {
    hide Within;
    StrictExactly(compilerStep);
    WithinExactly(w, compilerStep, Step(key, "", Strict(compilerStep)));
  }

  lemma {:induction false} ApprovalEntryAt(w: PreparedWorkflow, n: nat, m: nat, compilerStep: string)
    requires n < m <= |w.approvalGates|
    ensures ApprovalEntries(w, m, compilerStep)[n] == Step(w.approvalGates[n].key, "", Strict(compilerStep))
  {
    if n < m - 1 { ApprovalEntryAt(w, n, m - 1, compilerStep); }
  }

  lemma ApprovalAt(w: PreparedWorkflow, compilerStep: string, n: nat)
    requires !Dropped(w) && n < |w.approvalGates|
    ensures var s := Steps(w, compilerStep);
            var i := GatesFrom(w) + 2 * |w.gates| + |w.jobs| + n;
            && i < |s|
            && s[i] == Within(w, compilerStep, Step(w.approvalGates[n].key, "", Strict(compilerStep)))
  {
    hide WorkflowCloseNeeds, Within, Strict;
    ApprovalEntryAt(w, n, |w.approvalGates|, compilerStep);
    assert Inner(w, compilerStep)[GatesFrom(w) + 2 * |w.gates| + |w.jobs| + n] ==
           ApprovalEntries(w, |w.approvalGates|, compilerStep)[n];
  }

  /** Whatever a prepared workflow is, its steps obey the laws. */
  lemma StepsAreLawful(w: PreparedWorkflow, compilerStep: string, indexes: map<string, nat>)
    requires Indexed(w.gates, indexes) && ParentsPrecede(w.gates, indexes)
    requires w.gate.Some? <==> w.gateOpenKey != ""
    requires forall g :: g in w.gates ==> g.openKey != ""
    requires forall j :: j in w.jobs ==> GatesKnown(w, indexes, j)
    ensures Lawful(w, compilerStep, Steps(w, compilerStep))
  {
    hide Steps, Within, IsJobStep, IsOpenStep, IsCloseStep, IsOwnGate, IsFreeStep, Indexed, ParentsPrecede, GatesKnown,
      OpenEntry, CloseEntry, JobEntry, WorkflowCloseNeeds, Strict;
    if Dropped(w) {
      DroppedIs(w, compilerStep);
    } else {
      WhereSteps(w, compilerStep);
      if w.gate.Some? { OwnGateIs(w, compilerStep); }
      forall x | 0 <= x < |w.gates|
        ensures IsOpenStep(w, w.gates[x], compilerStep, Steps(w, compilerStep)[GatesFrom(w) + 2 * x])
        ensures IsCloseStep(w, w.gates[x], compilerStep, Steps(w, compilerStep)[GatesFrom(w) + 2 * x + 1])
      {
        GateAt(w, compilerStep, x);
        OpenStepIs(w, compilerStep, indexes, x);
        CloseStepIs(w, compilerStep, x);
      }
      forall n | 0 <= n < |w.jobs|
        ensures IsJobStep(w, w.jobs[n], compilerStep, Steps(w, compilerStep)[GatesFrom(w) + 2 * |w.gates| + n])
      {
        JobAt(w, compilerStep, n);
        JobStepIs(w, compilerStep, indexes, n);
      }
      forall n | 0 <= n < |w.approvalGates|
        ensures IsFreeStep(w.approvalGates[n].key, "", compilerStep,
                           Steps(w, compilerStep)[GatesFrom(w) + 2 * |w.gates| + |w.jobs| + n])
      {
        ApprovalAt(w, compilerStep, n);
        FreeStepIs(w, compilerStep, w.approvalGates[n].key);
      }
    }
  }

  lemma DroppedIs(w: PreparedWorkflow, compilerStep: string)
    requires Dropped(w)
    ensures |Steps(w, compilerStep)| == 1
    ensures IsFreeStep(w.groupKey, "", compilerStep, Steps(w, compilerStep)[0])
  {
    StrictExactly(compilerStep);
  }

  // ----- accepted pipelines -----

  lemma PreparedIsLawful(c: Context, w: Workflow, p: PreparedWorkflow, indexes: map<string, nat>)
    requires PreparedFrom(c, w, p) && GatesReady(p, indexes)
    ensures Lawful(p, c.compilerStep, Steps(p, c.compilerStep))
  {
    hide PreparedFrom, Lawful, Steps, Consistent, GroupsDiffer, PrerequisitesLifted, Collected, Indexed, ParentsPrecede;
    CollectedParts(Declarations(p.jobs), p.gates, indexes);
    forall j | j in p.jobs ensures GatesKnown(p, indexes, j) {
      var n :| 0 <= n < |p.jobs| && p.jobs[n] == j;
      forall q | 0 <= q < |j.gates| ensures j.gates[q].id in indexes {
        GateOf(p.jobs, p.gates, indexes, n, q);
      }
    }
    StepsAreLawful(p, c.compilerStep, indexes);
  }

  /** The output is that of the workflows one after the other. */
  ghost predicate LawfulOutput(ws: seq<PreparedWorkflow>, compilerStep: string, out: seq<Step>) {
    if ws == [] then out == []
    else
      exists k :: 0 <= k <= |out| && LawfulOutput(ws[..|ws| - 1], compilerStep, out[..k]) &&
        Lawful(ws[|ws| - 1], compilerStep, out[k..])
  }

  /** What Emit writes for an accepted pipeline obeys the laws, step by step. */
  lemma {:induction false} EmittedIsLawful(c: Context, all: seq<Workflow>, ws: seq<PreparedWorkflow>,
                                           indexes: seq<map<string, nat>>)
    requires |ws| == |indexes| && |ws| <= |all|
    requires forall i :: 0 <= i < |ws| ==> PreparedFrom(c, all[i], ws[i]) && GatesReady(ws[i], indexes[i])
    ensures LawfulOutput(ws, c.compilerStep, AllSteps(ws, c.compilerStep))
  {
    hide PreparedFrom, GatesReady, Lawful, Steps;
    if ws != [] {
      var last := |ws| - 1;
      var front, added := AllSteps(ws[..last], c.compilerStep), Steps(ws[last], c.compilerStep);
      EmittedIsLawful(c, all, ws[..last], indexes[..last]);
      PreparedIsLawful(c, all[last], ws[last], indexes[last]);
      var out := AllSteps(ws, c.compilerStep);
      assert out == front + added && out[..|front|] == front && out[|front|..] == added;
    }
  }

  lemma {:induction false} StepIsEmitted(ws: seq<PreparedWorkflow>, compilerStep: string, n: nat, s: Step)
    requires n < |ws| && s in Steps(ws[n], compilerStep)
    ensures s in AllSteps(ws, compilerStep)
  {
    hide Steps;
    var last := |ws| - 1;
    if n < last { StepIsEmitted(ws[..last], compilerStep, n, s); }
  }

  /** The authored job is emitted as a step of its own group that waits for exactly what the laws say. */
  lemma JobIsEmitted(c: Context, all: seq<Workflow>, ws: seq<PreparedWorkflow>, indexes: seq<map<string, nat>>,
                     n: nat, i: Job) returns (s: Step)
    requires PreparedPrefix(c, all, ws, indexes) && n < |ws| && i in all[n].jobs
    requires !ws[n].failure && !(ws[n].skipReason != "" && ws[n].aggregate)
    ensures s in AllSteps(ws, c.compilerStep) && IsJobStep(ws[n], i, c.compilerStep, s)
  {
    hide PreparedFrom, GatesReady, Steps, IsJobStep, AllRegistered, AllDigests;
    var w := ws[n];
    PreparedIsLawful(c, all[n], w, indexes[n]);
    var m := PreparedJob(c, all[n], w, i);
    s := Steps(w, c.compilerStep)[(if w.gate.Some? then 2 else 0) + 2 * |w.gates| + m];
    StepIsEmitted(ws, c.compilerStep, n, s);
    SameWaits(w, c.compilerStep, i, s);
  }

  lemma PreparedJob(c: Context, w: Workflow, p: PreparedWorkflow, i: Job) returns (m: nat)
    requires PreparedFrom(c, w, p) && i in w.jobs
    ensures m < |p.jobs| && p.jobs[m] == Normalized(i)
  {
    hide ValidInput, AcyclicNeeds, IsLeastOrder, ApprovalsMatch, Normalized, OwnNamed, GatesNamed;
    assert Normalized(i) in p.jobs;
    m :| 0 <= m < |p.jobs| && p.jobs[m] == Normalized(i);
  }

  /** Sorting the dependencies of a job changes nothing about what it waits for. */
  lemma SameWaits(w: PreparedWorkflow, compilerStep: string, i: Job, s: Step)
    requires IsJobStep(w, Normalized(i), compilerStep, s)
    ensures IsJobStep(w, i, compilerStep, s)
  {
    SortKeepsMembers(i.dependencies);
    forall d ensures JobWaits(w, i, compilerStep, d) <==> JobWaits(w, Normalized(i), compilerStep, d) {
    }
  }

  // ----- plans -----

  lemma {:induction false} PlannedIn(jobs: seq<Job>, n: nat) returns (at: nat)
    requires n < |jobs| && !jobs[n].failure && jobs[n].skipReason == "" && !jobs[n].stage
    ensures at < |PlannedDigests(jobs)| && PlannedDigests(jobs)[at] == jobs[n].planDigest
    ensures forall m: nat :: n < m <= |jobs| ==> at < |PlannedDigests(jobs[..m])|
    ensures |PlannedDigests(jobs[..n])| <= at
  {
    var last := |jobs| - 1;
    assert jobs[..|jobs|] == jobs;
    if n < last {
      at := PlannedIn(jobs[..last], n);
      forall m: nat | n < m <= |jobs| ensures at < |PlannedDigests(jobs[..m])| {
        if m < |jobs| { assert jobs[..last][..m] == jobs[..m]; }
      }
      assert jobs[..last][..n] == jobs[..n];
    } else {
      at := |PlannedDigests(jobs[..last])|;
    }
  }

  /** Two jobs of an accepted pipeline that run a plan, in one workflow or in two, have different plans. */
  lemma PlansDiffer(c: Context, all: seq<Workflow>, ws: seq<PreparedWorkflow>, indexes: seq<map<string, nat>>,
                    k: nat, m: nat, l: nat, n: nat)
    requires PreparedPrefix(c, all, ws, indexes) && k < |ws| && m < |ws[k].jobs| && l < |ws| && n < |ws[l].jobs|
    requires k < l || (k == l && m < n)
    requires var i := ws[k].jobs[m]; !i.failure && i.skipReason == "" && !i.stage
    requires var j := ws[l].jobs[n]; !j.failure && j.skipReason == "" && !j.stage
    ensures ws[k].jobs[m].planDigest != ws[l].jobs[n].planDigest
  {
    hide PreparedFrom, GatesReady, AllRegistered, PlannedDigests, AllDigests;
    var a := PlannedIn(ws[k].jobs, m);
    var b := PlannedIn(ws[l].jobs, n);
    var p := DigestsIn(ws, k, a);
    var q := DigestsIn(ws, l, b);
    if k == l { assert a < |PlannedDigests(ws[k].jobs[..n])| <= b; }
    assert p < q;
  }

  lemma {:induction false} DigestsIn(ws: seq<PreparedWorkflow>, k: nat, a: nat) returns (p: nat)
    requires k < |ws| && a < |PlannedDigests(ws[k].jobs)|
    ensures p == |AllDigests(ws[..k])| + a
    ensures p < |AllDigests(ws)| && AllDigests(ws)[p] == PlannedDigests(ws[k].jobs)[a]
    ensures forall l: nat :: k < l <= |ws| ==> p < |AllDigests(ws[..l])|
  {
    hide PlannedDigests;
    var last := |ws| - 1;
    assert ws[..|ws|] == ws;
    if k < last {
      p := DigestsIn(ws[..last], k, a);
      assert ws[..last][..k] == ws[..k];
      forall l: nat | k < l <= |ws| ensures p < |AllDigests(ws[..l])| {
        if l < |ws| { assert ws[..last][..l] == ws[..l]; }
      }
    } else {
      p := |AllDigests(ws[..last])| + a;
    }
  }

  // ----- runs -----

  lemma {:induction false} StepsStay(run: seq<Scheduler.Build>, events: seq<Scheduler.Event>, m: nat, n: nat)
    requires Scheduler.IsRun(run, events) && m <= n < |run|
    ensures run[m].steps <= run[n].steps
    decreases n
  {
    hide Scheduler.Enabled;
    if m < n { StepsStay(run, events, m, n - 1); }
  }

  /** In every run to which an accepted pipeline was uploaded: a job that has started had its approval gate, the
      compiler step and the opening steps of all its scopes passed, and all its needs over. */
  lemma StartedJobHadItsNeeds(run: seq<Scheduler.Build>, events: seq<Scheduler.Event>, m: nat, n: nat, c: Context,
                              all: seq<Workflow>, ws: seq<PreparedWorkflow>, indexes: seq<map<string, nat>>,
                              k: nat, i: Job)
    requires Scheduler.IsRun(run, events) && m < n < |run|
    requires events[m].Append? && events[m].upload.steps == AllSteps(ws, c.compilerStep)
    requires PreparedPrefix(c, all, ws, indexes) && k < |ws| && i in all[k].jobs
    requires !ws[k].failure && !(ws[k].skipReason != "" && ws[k].aggregate)
    requires Scheduler.Started(run[n], i.key)
    ensures i.approvalGate != "" ==> Scheduler.StatusOf(run[n], i.approvalGate).Passed?
    ensures c.compilerStep != "" ==> Scheduler.StatusOf(run[n], c.compilerStep).Passed?
    ensures forall d :: d in i.dependencies ==> Scheduler.Settled(run[n], d)
    ensures forall g, q :: g in i.gates && q in ws[k].gates && q.id == g.id ==>
              Scheduler.StatusOf(run[n], q.openKey).Passed?
    ensures !i.failure && i.skipReason == "" && ws[k].gate.Some? ==>
              Scheduler.StatusOf(run[n], ws[k].gateOpenKey).Passed?
  {
    hide PreparedPrefix;
    var s := JobIsEmitted(c, all, ws, indexes, k, i);
    var at := StepStarted(run, events, m, n, s);
    NeedsWere(run[n], at, ws[k], i, c.compilerStep);
  }

  lemma StepStarted(run: seq<Scheduler.Build>, events: seq<Scheduler.Event>, m: nat, n: nat, s: Step) returns (at: nat)
    requires Scheduler.IsRun(run, events) && m < n < |run| && events[m].Append? && s in events[m].upload.steps
    requires Scheduler.Started(run[n], s.key)
    ensures at < |run[n].steps| && run[n].steps[at] == s && Scheduler.NeedsMet(run[n], at)
  {
    hide Scheduler.Enabled, Scheduler.Sound, Scheduler.NeedsMet, Scheduler.Blocked;
    StepsStay(run, events, m + 1, n);
    Scheduler.RunsStayValid(run, events, n);
    var u := events[m].upload;
    var j :| 0 <= j < |u.steps| && u.steps[j] == s;
    at := |run[m].steps| + j;
    assert run[m + 1] == Scheduler.Next(run[m], events[m]);
    assert run[m + 1].steps[at] == s;
    assert run[n].steps[at] == s && Scheduler.KeyAt(run[n], at) == s.key;
  }

  lemma NeedsWere(b: Scheduler.Build, at: nat, w: PreparedWorkflow, i: Job, compilerStep: string)
    requires at < |b.steps| && Scheduler.NeedsMet(b, at) && IsJobStep(w, i, compilerStep, b.steps[at])
    ensures forall k :: JobWaits(w, i, compilerStep, Dependency(k, false)) ==> Scheduler.StatusOf(b, k).Passed?
    ensures forall k :: k in i.dependencies ==> Scheduler.Settled(b, k)
  {
    hide JobWaits;
    forall k | k in i.dependencies ensures Scheduler.Settled(b, k) {
      LooseNeed(w, i, compilerStep, k);
      assert Dependency(k, true) in b.steps[at].needs;
    }
    forall k | JobWaits(w, i, compilerStep, Dependency(k, false)) ensures Scheduler.StatusOf(b, k).Passed? {
      assert Dependency(k, false) in b.steps[at].needs;
    }
  }

  lemma LooseNeed(w: PreparedWorkflow, i: Job, compilerStep: string, k: string)
    requires k in i.dependencies
    ensures JobWaits(w, i, compilerStep, Dependency(k, true))
  {
  }
}
