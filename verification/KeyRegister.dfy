/** The register of step keys that Emit keeps, and why emitted keys are distinct. */
module KeyRegister {
  import opened Pipelines
  import opened Claims
  import opened Uploads
  import opened GatePreparation
  import opened StepNeeds
  import opened QueueCheck
  import opened EmittedSteps

  // ----- the keys of a workflow -----

  function GroupKeys(groupKey: string): seq<string> {
    if groupKey == "" then [] else [groupKey]
  }

  function ApprovalKeys(gates: seq<ApprovalGate>): (keys: seq<string>)
    ensures |keys| == |gates| && forall i :: 0 <= i < |gates| ==> keys[i] == gates[i].key
  {
    seq(|gates|, i requires 0 <= i < |gates| => gates[i].key)
  }

  function OwnGateKeys(w: PreparedWorkflow): seq<string> {
    if w.gate.None? then [] else [w.gateOpenKey, w.gateCloseKey]
  }

  function GatePairs(gates: seq<PreparedGate>): (keys: seq<string>)
    ensures |keys| == 2 * |gates|
  {
    if gates == [] then []
    else GatePairs(gates[..|gates| - 1]) + [gates[|gates| - 1].openKey, gates[|gates| - 1].closeKey]
  }

  function Registered(w: PreparedWorkflow): seq<string> {
    GroupKeys(w.groupKey) + ApprovalKeys(w.approvalGates) + KeysOf(w.jobs) + OwnGateKeys(w) + GatePairs(w.gates)
  }

  function AllRegistered(ws: seq<PreparedWorkflow>): seq<string> {
    if ws == [] then [] else AllRegistered(ws[..|ws| - 1]) + Registered(ws[|ws| - 1])
  }

  // ----- distinct keys -----

  function StepKeySeq(steps: seq<Step>): (keys: seq<string>)
    ensures |keys| == |steps| && forall i :: 0 <= i < |steps| ==> keys[i] == steps[i].key
  {
    seq(|steps|, i requires 0 <= i < |steps| => steps[i].key)
  }

  lemma DistinctKeySeq(steps: seq<Step>)
    requires Distinct(StepKeySeq(steps))
    ensures DistinctSteps(steps)
    ensures KeysIn(StepKeySeq(steps)) == StepKeys(steps)
  {
    KeySeqIsKeys(steps);
    forall i, j | 0 <= i < j < |steps| ensures steps[i].key != steps[j].key {
      assert StepKeySeq(steps)[i] != StepKeySeq(steps)[j];
    }
  }

  lemma KeySeqIsKeys(steps: seq<Step>)
    ensures KeysIn(StepKeySeq(steps)) == StepKeys(steps)
  {
    forall k ensures k in KeysIn(StepKeySeq(steps)) <==> k in StepKeys(steps) {
      if k in StepKeys(steps) {
        var s :| s in steps && s.key == k;
        var i :| 0 <= i < |steps| && steps[i] == s;
        assert StepKeySeq(steps)[i] == k;
      }
    }
  }

  // ----- the keys of entries and steps -----

  lemma {:induction false} GateEntryKeys(w: PreparedWorkflow, n: nat, compilerStep: string)
    requires n <= |w.gates|
    ensures StepKeySeq(GateEntries(w, n, compilerStep)) == GatePairs(w.gates[..n])
  {
    if n > 0 {
      GateEntryKeys(w, n - 1, compilerStep);
      assert w.gates[..n][..n - 1] == w.gates[..n - 1];
      assert GateEntries(w, n, compilerStep) ==
             GateEntries(w, n - 1, compilerStep) + [OpenEntry(w, n - 1, compilerStep), CloseEntry(w, n - 1)];
    }
  }

  lemma {:induction false} JobEntryKeys(w: PreparedWorkflow, n: nat, compilerStep: string)
    requires n <= |w.jobs|
    ensures StepKeySeq(JobEntries(w, n, compilerStep)) == KeysOf(w.jobs[..n])
  {
    hide JobEntry;
    if n > 0 {
      JobEntryKeys(w, n - 1, compilerStep);
      JobEntryKey(w, n - 1, compilerStep);
      assert JobEntries(w, n, compilerStep) == JobEntries(w, n - 1, compilerStep) + [JobEntry(w, n - 1, compilerStep)];
      assert KeysOf(w.jobs[..n]) == KeysOf(w.jobs[..n - 1]) + [w.jobs[n - 1].key];
    }
  }

  lemma {:induction false} ApprovalEntryKeys(w: PreparedWorkflow, n: nat, compilerStep: string)
    requires n <= |w.approvalGates|
    ensures StepKeySeq(ApprovalEntries(w, n, compilerStep)) == ApprovalKeys(w.approvalGates[..n])
  {
    if n > 0 {
      ApprovalEntryKeys(w, n - 1, compilerStep);
      assert ApprovalKeys(w.approvalGates[..n]) ==
        ApprovalKeys(w.approvalGates[..n - 1]) + [w.approvalGates[n - 1].key];
    }
  }

  lemma KeySeqJoin(a: seq<Step>, b: seq<Step>)
    ensures StepKeySeq(a + b) == StepKeySeq(a) + StepKeySeq(b)
  {
  }

  lemma EntryKeySeq(w: PreparedWorkflow, compilerStep: string)
    ensures StepKeySeq(Entries(w, compilerStep)) == OwnGateKeys(w) + GatePairs(w.gates) + KeysOf(w.jobs)
  {
    hide GateEntries, JobEntries, WorkflowCloseNeeds, StepKeySeq, GatePairs, KeysOf;
    GateEntryKeys(w, |w.gates|, compilerStep);
    JobEntryKeys(w, |w.jobs|, compilerStep);
    assert w.gates[..|w.gates|] == w.gates && w.jobs[..|w.jobs|] == w.jobs;
    OwnEntryKeys(w, [], compilerStep);
    KeySeqJoin(WorkflowGateEntries(w, [], compilerStep), GateEntries(w, |w.gates|, compilerStep));
    KeySeqJoin(WorkflowGateEntries(w, [], compilerStep) + GateEntries(w, |w.gates|, compilerStep),
               JobEntries(w, |w.jobs|, compilerStep));
  }

  lemma OwnEntryKeys(w: PreparedWorkflow, needs: seq<Dependency>, compilerStep: string)
    ensures StepKeySeq(WorkflowGateEntries(w, needs, compilerStep)) == OwnGateKeys(w)
  {
  }

  lemma StepKeySeqOf(w: PreparedWorkflow, compilerStep: string)
    ensures StepKeySeq(Steps(w, compilerStep)) ==
              if Dropped(w) then [w.groupKey]
              else OwnGateKeys(w) + GatePairs(w.gates) + KeysOf(w.jobs) + ApprovalKeys(w.approvalGates)
  {
    hide GateEntries, JobEntries, ApprovalEntries, WorkflowGateEntries, GatePairs, KeysOf, ApprovalKeys, OwnGateKeys;
    GateEntryKeys(w, |w.gates|, compilerStep);
    JobEntryKeys(w, |w.jobs|, compilerStep);
    ApprovalEntryKeys(w, |w.approvalGates|, compilerStep);
    assert w.gates[..|w.gates|] == w.gates && w.jobs[..|w.jobs|] == w.jobs;
    assert w.approvalGates[..|w.approvalGates|] == w.approvalGates;
    OwnEntryKeys(w, CompilerNeed(w, compilerStep), compilerStep);
    if !Dropped(w) {
      assert StepKeySeq(Steps(w, compilerStep)) == StepKeySeq(Inner(w, compilerStep));
    }
  }

  /** A failed or skipped workflow without a group key is a step without a key. */
  predicate Keyless(w: PreparedWorkflow) {
    Dropped(w) && w.groupKey == ""
  }

  lemma KeysAreRegistered(w: PreparedWorkflow, compilerStep: string)
    ensures multiset(StepKeySeq(Entries(w, compilerStep))) <= multiset(Registered(w))
    ensures !Keyless(w) ==> multiset(StepKeySeq(Steps(w, compilerStep))) <= multiset(Registered(w))
  {
    hide Entries, Steps, GatePairs, KeysOf, ApprovalKeys, OwnGateKeys, StepKeySeq;
    EntryKeySeq(w, compilerStep);
    StepKeySeqOf(w, compilerStep);
  }

  lemma {:induction false} AllKeysRegistered(ws: seq<PreparedWorkflow>, compilerStep: string)
    ensures multiset(StepKeySeq(AllEntries(ws, compilerStep))) <= multiset(AllRegistered(ws))
    ensures (forall w :: w in ws ==> !Keyless(w)) ==>
        multiset(StepKeySeq(AllSteps(ws, compilerStep))) <= multiset(AllRegistered(ws))
  {
    hide Entries, Steps, Registered, Keyless, StepKeySeq;
    if ws == [] {
      assert StepKeySeq([]) == [];
    } else {
      var front, last := ws[..|ws| - 1], ws[|ws| - 1];
      assert ws == front + [last];
      AllKeysRegistered(front, compilerStep);
      KeysAreRegistered(last, compilerStep);
      KeySeqJoin(AllEntries(front, compilerStep), Entries(last, compilerStep));
      KeySeqJoin(AllSteps(front, compilerStep), Steps(last, compilerStep));
    }
  }

  /** What is registered once is emitted once. */
  lemma RegisteredOnceEmittedOnce(ws: seq<PreparedWorkflow>, compilerStep: string)
    requires Distinct(AllRegistered(ws))
    ensures DistinctSteps(AllEntries(ws, compilerStep))
    ensures StepKeys(AllEntries(ws, compilerStep)) <= KeysIn(AllRegistered(ws))
    ensures (forall w :: w in ws ==> !Keyless(w)) ==>
              DistinctSteps(AllSteps(ws, compilerStep)) &&
                StepKeys(AllSteps(ws, compilerStep)) <= KeysIn(AllRegistered(ws))
  {
    hide Keyless, DistinctSteps, AllRegistered, AllEntries, AllSteps, StepKeySeq, StepKeys;
    AllKeysRegistered(ws, compilerStep);
    PartOfDistinct(StepKeySeq(AllEntries(ws, compilerStep)), AllRegistered(ws));
    DistinctKeySeq(AllEntries(ws, compilerStep));
    if forall w :: w in ws ==> !Keyless(w) {
      PartOfDistinct(StepKeySeq(AllSteps(ws, compilerStep)), AllRegistered(ws));
      DistinctKeySeq(AllSteps(ws, compilerStep));
    }
  }

  lemma DistinctInWorkflow(w: PreparedWorkflow, compilerStep: string)
    requires Distinct(Registered(w))
    ensures DistinctSteps(Steps(w, compilerStep)) && DistinctSteps(Entries(w, compilerStep))
  {
    hide Entries, Registered, StepKeySeq, Steps, DistinctSteps;
    KeysAreRegistered(w, compilerStep);
    PartOfDistinct(StepKeySeq(Entries(w, compilerStep)), Registered(w));
    DistinctKeySeq(Entries(w, compilerStep));
    if Keyless(w) {
      StepKeySeqOf(w, compilerStep);
      OneStep(Steps(w, compilerStep));
    } else {
      PartOfDistinct(StepKeySeq(Steps(w, compilerStep)), Registered(w));
      DistinctKeySeq(Steps(w, compilerStep));
    }
  }

  lemma OneStep(steps: seq<Step>)
    requires |StepKeySeq(steps)| <= 1
    ensures DistinctSteps(steps)
  {
  }
}
