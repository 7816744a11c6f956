/** Emit: the checks over a whole pipeline and the steps it writes. */
module Emit {
  import opened Pipelines
  import opened Claims
  import opened Uploads
  import opened JobOrder
  import Ordering
  import opened GatePreparation
  import opened GateKeys
  import opened StepNeeds
  import opened CycleCheck
  import opened QueueCheck
  import opened EmittedSteps
  import opened KeyRegister

  datatype Workflow = Workflow(
    groupKey: string, failure: bool, skipReason: string, ungrouped: bool,
    gate: Option<ConcurrencyGate>, approvalGates: seq<ApprovalGate>, jobs: seq<Job>)

  /** Either workflows, or the jobs, gate and approval gates of a single one. */
  datatype Pipeline = Pipeline(
    compilerStep: string, artifactProducer: string, deferred: bool, existing: seq<string>,
    workflows: seq<Workflow>, gate: Option<ConcurrencyGate>, approvalGates: seq<ApprovalGate>, jobs: seq<Job>)
  {
    predicate Aggregate() { workflows != [] }

    predicate Keyless() { Aggregate() && compilerStep == "" && artifactProducer != "" }

    function All(): seq<Workflow> {
      if Aggregate() then workflows else [Workflow("", false, "", false, gate, approvalGates, jobs)]
    }
  }

  /** What all workflows of a pipeline share; digest hashes a gate's namespace and group. */
  datatype Context = Context(
    compilerStep: string, aggregate: bool, deferred: bool, existing: set<string>, digest: string -> string)

  // ----- what a workflow must satisfy -----

  predicate Shape(c: Context, w: Workflow) {
    && (w.jobs != [] || w.failure || (c.aggregate && w.skipReason != ""))
    && (c.aggregate ==> if c.deferred then w.groupKey == "" else ValidStepKey(w.groupKey))
    && (w.failure ==> w.jobs == [] && w.gate.None?)
  }

  predicate ValidGate(gate: Option<ConcurrencyGate>) {
    gate.Some? ==>
      gate.value.group != "" && |gate.value.group| <= MAX_CONCURRENCY_GROUP_LENGTH &&
      (gate.value.queue == "" || ValidIdentifier(gate.value.queue))
  }

  /** The declared approval gates are well formed, and they and the jobs that wait for them match up. */
  ghost predicate ApprovalsMatch(gates: seq<ApprovalGate>, jobs: seq<Job>, existing: set<string>) {
    && (forall g :: g in gates ==> ValidStepKey(g.key) && g.environment != "")
    && (forall j :: j in jobs && j.approvalGate != "" ==>
      j.approvalGate in ApprovalKeys(gates) || j.approvalGate in existing)
    && (forall k :: k in ApprovalKeys(gates) ==> ApprovalUsed(jobs, k))
  }

  ghost predicate ApprovalUsed(jobs: seq<Job>, key: string) {
    exists j :: j in jobs && j.approvalGate == key && key != ""
  }

  predicate FreeOfGate(gate: Option<ConcurrencyGate>, jobs: seq<Job>) {
    gate.Some? ==> forall j :: j in jobs ==> !HoldsGroup(j, gate.value.group) && !j.stage
  }

  /** The jobs in the order orderJobs gives them. */
  ghost predicate OrderedFrom(c: Context, input: seq<Job>, ordered: seq<Job>) {
    && ValidInput(c.compilerStep, input, c.existing) && AcyclicNeeds(input)
    && (forall j :: j in ordered <==> exists i :: i in input && j == Normalized(i))
    && IsLeastOrder(NeedsGraph(ByKey(input)), KeySet(input), KeysOf(ordered))
  }

  function PlannedDigests(jobs: seq<Job>): seq<string> {
    if jobs == [] then []
    else PlannedDigests(jobs[..|jobs| - 1]) + if jobs[|jobs| - 1].Planned() then [jobs[|jobs| - 1].planDigest] else []
  }

  /** All that the code checks about one workflow before gates are given keys. */
  ghost predicate Preparable(c: Context, w: Workflow, used: set<string>, digests: set<string>) {
    && Shape(c, w)
    && ValidGate(w.gate)
    && exists ordered :: OrderedFrom(c, w.jobs, ordered) && Suits(c, w, ordered, used, digests)
  }

  /** The keys that the author named. */
  function NamedKeys(w: Workflow, ordered: seq<Job>): seq<string> {
    GroupKeys(w.groupKey) + ApprovalKeys(w.approvalGates) + KeysOf(ordered)
  }

  ghost predicate Suits(c: Context, w: Workflow, ordered: seq<Job>, used: set<string>, digests: set<string>) {
    && ApprovalsMatch(w.approvalGates, ordered, c.existing)
    && Fresh(used, NamedKeys(w, ordered))
    && (forall j :: j in ordered ==> j.key !in c.existing)
    && Fresh(digests, PlannedDigests(ordered))
    && FreeOfGate(w.gate, ordered)
    && GatesFit(w.gate, ordered)
  }

  ghost predicate GatesFit(gate: Option<ConcurrencyGate>, ordered: seq<Job>) {
    exists byKey :: Files(ordered, byKey) && Gateable(ordered, byKey) && GroupsDiffer(gate, Declarations(ordered))
  }

  ghost predicate GroupsDiffer(gate: Option<ConcurrencyGate>, ds: seq<Declaration>) {
    gate.Some? ==> forall d :: d in ds ==> d.gate.group != gate.value.group
  }

  // ----- what preparation yields -----

  ghost predicate PreparedFrom(c: Context, w: Workflow, p: PreparedWorkflow) {
    && p.groupKey == w.groupKey && p.failure == w.failure && p.skipReason == w.skipReason
    && p.ungrouped == w.ungrouped && p.aggregate == c.aggregate
    && p.gate == w.gate && p.approvalGates == w.approvalGates
    && OrderedFrom(c, w.jobs, p.jobs)
    && ApprovalsMatch(w.approvalGates, p.jobs, c.existing)
    && (forall j :: j in p.jobs ==> j.key !in c.existing)
    && OwnNamed(c, p.groupKey, p.jobs, p.gate, p.gateOpenKey, p.gateCloseKey)
    && GatesNamed(c, p.groupKey, p.jobs, p.gates)
  }

  function GateNamespace(c: Context, groupKey: string, id: string): string {
    c.compilerStep + (if id == "" then "" else "\0" + id) + (if c.aggregate then "\0" + groupKey else "")
  }

  /** The keys are those that belong to the gate with this ID and group; the workflow's own gate has no ID. */
  ghost predicate Named(c: Context, groupKey: string, jobs: seq<Job>, id: string, group: string, open: string,
                        close: string) {
    var namespace := GateNamespace(c, groupKey, id);
    KeyPair(namespace, c.digest(namespace + "\0" + group), jobs, open, close)
  }

  ghost predicate OwnNamed(c: Context, groupKey: string, jobs: seq<Job>, gate: Option<ConcurrencyGate>, open: string,
                           close: string) {
    if gate.None? then open == "" && close == "" else Named(c, groupKey, jobs, "", gate.value.group, open, close)
  }

  ghost predicate GatesNamed(c: Context, groupKey: string, jobs: seq<Job>, gates: seq<PreparedGate>) {
    forall x :: 0 <= x < |gates| ==> Named(c, groupKey, jobs, gates[x].id, gates[x].group, gates[x].openKey,
        gates[x].closeKey)
  }

  /** Each gate waits for exactly what its members need outside it. */
  ghost predicate PrerequisitesLifted(jobs: seq<Job>, gates: seq<PreparedGate>) {
    exists byKey :: Files(jobs, byKey) && LiftedAll(byKey, gates)
  }

  ghost predicate LiftedAll(byKey: map<string, Job>, gates: seq<PreparedGate>) {
    forall x :: 0 <= x < |gates| ==> Lifts(NeedsIn(byKey), gates[x].members, gates[x].prerequisites)
  }

  /** The gates of the workflow, complete with keys. */
  ghost predicate GatesReady(p: PreparedWorkflow, indexes: map<string, nat>) {
    && Collected(Declarations(p.jobs), p.gates, indexes)
    && Consistent(Declarations(p.jobs))
    && GroupsDiffer(p.gate, Declarations(p.jobs))
    && PrerequisitesLifted(p.jobs, p.gates)
    && (p.gate.Some? ==> p.gate.value.group != "")
    && (p.gate.Some? <==> p.gateOpenKey != "")
    && (p.gate.Some? ==> p.gateCloseKey != "")
    && (forall x :: 0 <= x < |p.gates| ==> p.gates[x].openKey != "" && p.gates[x].closeKey != "")
  }

  // ----- the checks -----

  method CheckApprovals(gates: seq<ApprovalGate>, jobs: seq<Job>, existing: set<string>) returns (ok: bool)
    ensures ok <==> ApprovalsMatch(gates, jobs, existing)
  {
    hide ValidStepKey;
    var wellFormed := CheckApprovalGates(gates);
    var declared := set k | k in ApprovalKeys(gates);
    var marked := {};
    for i := 0 to |jobs|
      invariant forall n :: 0 <= n < i && jobs[n].approvalGate != "" ==>
          jobs[n].approvalGate in ApprovalKeys(gates) || jobs[n].approvalGate in existing
      invariant forall k :: k in marked <==> k != "" && exists n :: 0 <= n < i && jobs[n].approvalGate == k
    {
      if jobs[i].approvalGate != "" {
        if jobs[i].approvalGate !in declared && jobs[i].approvalGate !in existing {
          assert jobs[i] in jobs;
          return false;
        }
        marked := marked + {jobs[i].approvalGate};
      }
    }
    forall k ensures ApprovalUsed(jobs, k) <==> k in marked {
      if ApprovalUsed(jobs, k) {
        var j :| j in jobs && j.approvalGate == k;
        var n :| 0 <= n < |jobs| && jobs[n] == j;
      }
    }
    for i := 0 to |gates|
      invariant forall n :: 0 <= n < i ==> gates[n].key in marked
    {
      if gates[i].key !in marked {
        assert ApprovalKeys(gates)[i] == gates[i].key;
        return false;
      }
    }
    ok := wellFormed;
  }

  method CheckApprovalGates(gates: seq<ApprovalGate>) returns (ok: bool)
    ensures ok <==> forall g :: g in gates ==> ValidStepKey(g.key) && g.environment != ""
  {
    hide ValidStepKey;
    for i := 0 to |gates|
      invariant forall n :: 0 <= n < i ==> ValidStepKey(gates[n].key) && gates[n].environment != ""
    {
      if !ValidStepKey(gates[i].key) || gates[i].environment == "" {
        assert gates[i] in gates;
        return false;
      }
    }
    return true;
  }

  method CheckOutside(jobs: seq<Job>, existing: set<string>) returns (ok: bool)
    ensures ok <==> forall j :: j in jobs ==> j.key !in existing
  {
    for i := 0 to |jobs|
      invariant forall n :: 0 <= n < i ==> jobs[n].key !in existing
    {
      if jobs[i].key in existing {
        assert jobs[i] in jobs;
        return false;
      }
    }
    return true;
  }

  method CheckFreeOfGate(gate: Option<ConcurrencyGate>, jobs: seq<Job>) returns (ok: bool)
    ensures ok <==> FreeOfGate(gate, jobs)
  {
    if gate.Some? {
      for i := 0 to |jobs|
        invariant forall n :: 0 <= n < i ==> !HoldsGroup(jobs[n], gate.value.group) && !jobs[n].stage
      {
        if (jobs[i].concurrency > 0 && jobs[i].concurrencyGroup == gate.value.group) || jobs[i].stage {
          assert jobs[i] in jobs;
          return false;
        }
      }
    }
    return true;
  }

  method CollectDigests(jobs: seq<Job>) returns (digests: seq<string>)
    ensures digests == PlannedDigests(jobs)
  {
    digests := [];
    for i := 0 to |jobs|
      invariant digests == PlannedDigests(jobs[..i])
    {
      assert jobs[..i + 1][..i] == jobs[..i];
      if jobs[i].Planned() {
        digests := digests + [jobs[i].planDigest];
      }
    }
    assert jobs[..|jobs|] == jobs;
  }

  method CheckGateGroups(gate: Option<ConcurrencyGate>, gates: seq<PreparedGate>, ghost ds: seq<Declaration>,
                         ghost indexes: map<string, nat>)
    returns (ok: bool)
    requires Collected(ds, gates, indexes)
    ensures ok <==> GroupsDiffer(gate, ds)
  {
    hide FirstDeclared, MemberKeys, FirstQueue;
    if gate.Some? {
      for x := 0 to |gates|
        invariant forall z :: 0 <= z < x ==> gates[z].group != gate.value.group
      {
        if gates[x].group == gate.value.group {
          assert gates[x].id in DeclaredIds(ds);
          ghost var d :| d in ds && d.gate.id == gates[x].id;
          ghost var i :| 0 <= i < |ds| && ds[i] == d;
          assert Agrees(gates[indexes[ds[i].gate.id]], ds[i]);
          return false;
        }
      }
      forall d | d in ds ensures d.gate.group != gate.value.group {
        var i :| 0 <= i < |ds| && ds[i] == d;
        assert Agrees(gates[indexes[ds[i].gate.id]], ds[i]);
      }
    }
    return true;
  }

  lemma NamesAreOne(c: Context, groupKey: string, jobs: seq<Job>, id: string, group: string)
    ensures exists open, close :: Named(c, groupKey, jobs, id, group, open, close)
    ensures forall o, k, p, l ::
              Named(c, groupKey, jobs, id, group, o, k) && Named(c, groupKey, jobs, id, group, p, l) ==>
                o == p && k == l
    ensures forall o, k :: Named(c, groupKey, jobs, id, group, o, k) ==> o != "" && k != ""
  {
    hide KeyPair, GateNamespace;
    var namespace := GateNamespace(c, groupKey, id);
    var digest := c.digest(namespace + "\0" + group);
    KeyPairIsOne(namespace, digest, jobs);
    var open, close :| KeyPair(namespace, digest, jobs, open, close);
    assert Named(c, groupKey, jobs, id, group, open, close);
    forall o, k | Named(c, groupKey, jobs, id, group, o, k) ensures o != "" && k != "" {
      KeyPairApart(namespace, digest, jobs, o, k);
    }
  }

  /** The same gates but for their keys. */
  ghost predicate KeysAside(before: seq<PreparedGate>, after: seq<PreparedGate>) {
    && |after| == |before|
    && forall x :: 0 <= x < |before| ==>
         after[x].(openKey := before[x].openKey, closeKey := before[x].closeKey) == before[x]
  }

  lemma {:induction false} NamesExist(c: Context, groupKey: string, jobs: seq<Job>, before: seq<PreparedGate>)
    returns (gates: seq<PreparedGate>)
    ensures KeysAside(before, gates) && GatesNamed(c, groupKey, jobs, gates)
  {
    hide Named;
    gates := [];
    if before != [] {
      var front, last := before[..|before| - 1], before[|before| - 1];
      var named := NamesExist(c, groupKey, jobs, front);
      NamesAreOne(c, groupKey, jobs, last.id, last.group);
      var open, close :| Named(c, groupKey, jobs, last.id, last.group, open, close);
      gates := named + [last.(openKey := open, closeKey := close)];
    }
  }

  lemma NamedOnce(c: Context, groupKey: string, jobs: seq<Job>, before: seq<PreparedGate>, a: seq<PreparedGate>,
                  b: seq<PreparedGate>)
    requires KeysAside(before, a) && GatesNamed(c, groupKey, jobs, a) && KeysAside(before, b)
    requires GatesNamed(c, groupKey, jobs, b)
    ensures a == b
  {
    hide Named;
    forall x | 0 <= x < |before| ensures a[x] == b[x] {
      NamesAreOne(c, groupKey, jobs, before[x].id, before[x].group);
      assert a[x].id == before[x].id == b[x].id && a[x].group == before[x].group == b[x].group;
      assert a[x].(openKey := before[x].openKey, closeKey := before[x].closeKey) ==
        b[x].(openKey := before[x].openKey, closeKey := before[x].closeKey);
    }
  }

  lemma {:induction false} PairsPrefix(used: set<string>, gates: seq<PreparedGate>, n: nat)
    requires n <= |gates| && Fresh(used, GatePairs(gates))
    ensures Fresh(used, GatePairs(gates[..n]))
  {
    hide Fresh;
    if n == |gates| {
      assert gates[..n] == gates;
    } else {
      var front, last := gates[..|gates| - 1], gates[|gates| - 1];
      FreshInTurn(used, GatePairs(front), [last.openKey, last.closeKey]);
      PairsPrefix(used, front, n);
      assert front[..n] == gates[..n];
    }
  }

  /** One taken key among those of the first gates is enough. */
  lemma PairTaken(used: set<string>, front: seq<PreparedGate>, gate: PreparedGate, all: seq<PreparedGate>)
    requires |front| < |all| && all[..|front|] == front && all[|front|] == gate
    requires Fresh(used, GatePairs(front)) && !Fresh(used + KeysIn(GatePairs(front)), [gate.openKey, gate.closeKey])
    ensures !Fresh(used, GatePairs(all))
  {
    hide Fresh;
    var n := |front|;
    assert all[..n + 1] == front + [gate] && (front + [gate])[..n] == front;
    FreshInTurn(used, GatePairs(front), [gate.openKey, gate.closeKey]);
    if Fresh(used, GatePairs(all)) { PairsPrefix(used, all, n + 1); }
  }

  /** Gives every gate its keys and registers them, until one is taken. */
  method NameGates(c: Context, groupKey: string, jobs: seq<Job>, before: seq<PreparedGate>, used: set<string>)
    returns (ok: bool, gates: seq<PreparedGate>, used': set<string>)
    ensures ok ==> KeysAside(before, gates) && GatesNamed(c, groupKey, jobs, gates)
    ensures ok ==> Fresh(used, GatePairs(gates)) && used' == used + KeysIn(GatePairs(gates))
    ensures !ok ==> forall all :: KeysAside(before, all) && GatesNamed(c, groupKey, jobs, all) ==>
        !Fresh(used, GatePairs(all))
  {
    hide GateNamespace, Fresh, Named, GatePairs, KeyPair;
    gates, used' := before, used;
    NoPairs(used);
    for x := 0 to |before|
      invariant KeysAside(before, gates)
      invariant GatesNamed(c, groupKey, jobs, gates[..x])
      invariant Fresh(used, GatePairs(gates[..x])) && used' == used + KeysIn(GatePairs(gates[..x]))
    {
      var namespace := GateNamespace(c, groupKey, before[x].id);
      var open, close := ConcurrencyGateKeys(namespace, c.digest(namespace + "\0" + before[x].group), jobs);
      NamedFrom(c, groupKey, jobs, before[x].id, before[x].group, open, close);
      ghost var front := gates[..x];
      ghost var named := gates[x].(openKey := open, closeKey := close);
      var free, claimed := Claim(used', [open, close]);
      if !free {
        forall all | KeysAside(before, all) && GatesNamed(c, groupKey, jobs, all) ensures !Fresh(used, GatePairs(all)) {
          SameSoFar(c, groupKey, jobs, before, all, front + [named]);
          PairTaken(used, front, named, all);
        }
        return false, before, used;
      }
      OnePairMore(used, front, named);
      gates := gates[x := gates[x].(openKey := open, closeKey := close)];
      assert gates[..x + 1] == front + [named];
      used' := claimed;
    }
    assert gates[..|gates|] == gates;
    ok := true;
  }

  lemma NamedFrom(c: Context, groupKey: string, jobs: seq<Job>, id: string, group: string, open: string, close: string)
    requires var namespace := GateNamespace(c, groupKey, id); KeyPair(namespace, c.digest(namespace + "\0" + group),
        jobs, open, close)
    ensures Named(c, groupKey, jobs, id, group, open, close)
  {
  }

  lemma OnePairMore(used: set<string>, front: seq<PreparedGate>, gate: PreparedGate)
    requires Fresh(used, GatePairs(front)) && Fresh(used + KeysIn(GatePairs(front)), [gate.openKey, gate.closeKey])
    ensures Fresh(used, GatePairs(front + [gate]))
    ensures KeysIn(GatePairs(front + [gate])) == KeysIn(GatePairs(front)) + KeysIn([gate.openKey, gate.closeKey])
  {
    hide Fresh;
    FreshInTurn(used, GatePairs(front), [gate.openKey, gate.closeKey]);
    assert (front + [gate])[..|front|] == front;
  }

  /** The gates named so far have the only names they can have. */
  lemma SameSoFar(c: Context, groupKey: string, jobs: seq<Job>, before: seq<PreparedGate>, all: seq<PreparedGate>,
                  named: seq<PreparedGate>)
    requires KeysAside(before, all) && GatesNamed(c, groupKey, jobs, all)
    requires |named| <= |before| && KeysAside(before[..|named|], named) && GatesNamed(c, groupKey, jobs, named)
    ensures all[..|named|] == named
  {
    hide Named;
    NamedOnce(c, groupKey, jobs, before[..|named|], all[..|named|], named);
  }

  lemma NoPairs(used: set<string>)
    ensures Fresh(used, GatePairs([]))
  {
  }

  lemma KeysLeaveCollected(ds: seq<Declaration>, before: seq<PreparedGate>, after: seq<PreparedGate>,
                           indexes: map<string, nat>)
    requires Collected(ds, before, indexes) && KeysAside(before, after)
    ensures Collected(ds, after, indexes)
  {
    hide MemberKeys, FirstQueue, FirstDeclared, DeclaredIds;
    assert forall x :: 0 <= x < |before| ==>
      after[x].id == before[x].id && after[x].parentID == before[x].parentID && after[x].members == before[x].members &&
      after[x].group == before[x].group && after[x].cancelInProgress == before[x].cancelInProgress;
  }

  lemma KeysLeaveLifted(jobs: seq<Job>, before: seq<PreparedGate>, after: seq<PreparedGate>)
    requires PrerequisitesLifted(jobs, before) && KeysAside(before, after)
    ensures PrerequisitesLifted(jobs, after)
  {
    hide Files, Lifts;
    var byKey :| Files(jobs, byKey) && LiftedAll(byKey, before);
    forall x | 0 <= x < |after| ensures Lifts(NeedsIn(byKey), after[x].members, after[x].prerequisites) {
      assert after[x].members == before[x].members && after[x].prerequisites == before[x].prerequisites;
    }
  }

  // ----- one workflow -----

  /** There is only one order, so it does not matter which one a condition speaks of. */
  lemma OrderedOnce(c: Context, input: seq<Job>, a: seq<Job>, b: seq<Job>)
    requires OrderedFrom(c, input, a) && OrderedFrom(c, input, b)
    ensures a == b
  {
    hide ValidJob, IsLeastOrder, AcyclicNeeds, Normalized, ByKey;
    LeastOrderIsUnique(NeedsGraph(ByKey(input)), KeySet(input), KeysOf(a), KeysOf(b));
    JobsInOneOrder(input, a, b);
  }

  lemma OrderedDistinct(c: Context, input: seq<Job>, ordered: seq<Job>)
    requires OrderedFrom(c, input, ordered)
    ensures DistinctKeys(ordered)
  {
    forall i, j | 0 <= i < j < |ordered| ensures ordered[i].key != ordered[j].key {
      assert KeysOf(ordered)[i] != KeysOf(ordered)[j];
    }
  }

  lemma NotSuited(c: Context, w: Workflow, ordered: seq<Job>, used: set<string>, digests: set<string>)
    requires OrderedFrom(c, w.jobs, ordered) && !Suits(c, w, ordered, used, digests)
    ensures !Preparable(c, w, used, digests)
  {
    hide OrderedFrom, Suits, Shape, ValidGate;
    forall other | OrderedFrom(c, w.jobs, other) ensures !Suits(c, w, other, used, digests) {
      OrderedOnce(c, w.jobs, ordered, other);
    }
  }

  /** The conditions on the ordered jobs, and the keys and digests they claim. */
  method CheckOrdered(c: Context, w: Workflow, ordered: seq<Job>, used: set<string>, digests: set<string>)
    returns (r: Result<seq<PreparedGate>>, used': set<string>, digests': set<string>, ghost indexes: map<string, nat>)
    requires OrderedFrom(c, w.jobs, ordered)
    ensures r.Ok? <==> Suits(c, w, ordered, used, digests)
    ensures r.Ok? ==> Collected(Declarations(ordered), r.value, indexes) && Consistent(Declarations(ordered))
    ensures r.Ok? ==> PrerequisitesLifted(ordered, r.value)
    ensures r.Ok? ==> used' == used + KeysIn(NamedKeys(w, ordered))
    ensures r.Ok? ==> digests' == digests + KeysIn(PlannedDigests(ordered))
  {
    hide OrderedFrom, Fresh, Collected, Consistent, ApprovalsMatch, FreeOfGate, GroupsDiffer, Files, Gateable,
      GroupKeys, ApprovalKeys, KeysOf, PlannedDigests, PrerequisitesLifted;
    indexes := map[];
    var group := GroupKeys(w.groupKey);
    var approvals := ApprovalKeys(w.approvalGates);
    FreshInTurn(used, group, approvals);
    FreshInTurn(used, group + approvals, KeysOf(ordered));
    assert used + KeysIn(group + approvals) == used + KeysIn(group) + KeysIn(approvals);
    var ok;
    ok, used' := Claim(used, group);
    if !ok { return Err("group key collides"), used, digests, indexes; }
    ok, used' := Claim(used', approvals);
    if !ok { return Err("approval gate key collides"), used, digests, indexes; }
    ok := CheckApprovals(w.approvalGates, ordered, c.existing);
    if !ok { return Err("approval gates and jobs do not match"), used, digests, indexes; }
    ok, used' := Claim(used', KeysOf(ordered));
    if !ok { return Err("job key collides"), used, digests, indexes; }
    ok := CheckOutside(ordered, c.existing);
    if !ok { return Err("job key collides with an existing step"), used, digests, indexes; }
    var planned := CollectDigests(ordered);
    ok, digests' := Claim(digests, planned);
    if !ok { return Err("jobs share a plan digest"), used, digests, indexes; }
    ok := CheckFreeOfGate(w.gate, ordered);
    if !ok { return Err("workflow gate shares its group with a job or holds a stage step"), used, digests, indexes; }
    OrderedDistinct(c, w.jobs, ordered);
    ghost var byKey;
    r, byKey, indexes := PrepareGates(ordered);
    GatesFitExactly(w.gate, ordered, byKey);
    if r.Err? { return Err("gates cannot be prepared"), used, digests, indexes; }
    PreparedMeans(ordered, byKey, r.value, indexes);
    ok := CheckGateGroups(w.gate, r.value, Declarations(ordered), indexes);
    if !ok { return Err("gate shares its group with the workflow gate"), used, digests, indexes; }
  }

  lemma GatesFitExactly(gate: Option<ConcurrencyGate>, ordered: seq<Job>, byKey: map<string, Job>)
    requires Files(ordered, byKey)
    ensures GatesFit(gate, ordered) <==> Gateable(ordered, byKey) && GroupsDiffer(gate, Declarations(ordered))
  {
    hide Files, Gateable, GroupsDiffer;
    if GatesFit(gate, ordered) {
      var other :| Files(ordered, other) && Gateable(ordered, other) && GroupsDiffer(gate, Declarations(ordered));
      FilesOnce(ordered, byKey, other);
    }
  }

  lemma PreparedMeans(ordered: seq<Job>, byKey: map<string, Job>, gates: seq<PreparedGate>, indexes: map<string, nat>)
    requires Files(ordered, byKey) && Prepared(ordered, byKey, gates, indexes) && Gateable(ordered, byKey)
    ensures Collected(Declarations(ordered), gates, indexes) && Consistent(Declarations(ordered))
    ensures PrerequisitesLifted(ordered, gates)
  {
    hide Collected, Files, Lifts, Consistent, NestedGroupsDiffer, GroupIsFree;
  }

  /** The keys of the workflow's own gate. */
  method NameOwnGate(c: Context, w: Workflow, ordered: seq<Job>, used: set<string>)
    returns (ok: bool, open: string, close: string, used': set<string>)
    ensures OwnNamed(c, w.groupKey, ordered, w.gate, open, close)
    ensures ok <==> Fresh(used, OwnKeys(w.gate, open, close))
    ensures ok ==> used' == used + KeysIn(OwnKeys(w.gate, open, close))
  {
    open, close, used', ok := "", "", used, true;
    if w.gate.Some? {
      var namespace := GateNamespace(c, w.groupKey, "");
      open, close := ConcurrencyGateKeys(namespace, c.digest(namespace + "\0" + w.gate.value.group), ordered);
      ok, used' := Claim(used, [open, close]);
    }
  }

  /** With its gates named, the workflow would claim a key that is in use or claim one twice. */
  ghost predicate KeysTaken(c: Context, w: Workflow, used: set<string>) {
    exists p, indexes :: PreparedFrom(c, w, p) && GatesReady(p, indexes) && !Fresh(used, Registered(p))
  }

  /** The checks on a workflow by itself. */
  method CheckWorkflow(c: Context, w: Workflow) returns (ok: bool)
    ensures ok <==> Shape(c, w) && ValidGate(w.gate)
  {
    hide ValidStepKey, ValidIdentifier;
    if w.jobs == [] && !w.failure && (!c.aggregate || w.skipReason == "") { return false; }
    if c.aggregate {
      if c.deferred && w.groupKey != "" { return false; }
      if !c.deferred && !ValidStepKey(w.groupKey) { return false; }
    }
    if w.failure && (w.jobs != [] || w.gate.Some?) { return false; }
    if w.gate.Some? {
      var gate := w.gate.value;
      if gate.group == "" || |gate.group| > MAX_CONCURRENCY_GROUP_LENGTH { return false; }
      if gate.queue != "" && !ValidIdentifier(gate.queue) { return false; }
    }
    ok := true;
  }

  /** Prepares one workflow; a rejection is always deserved. */
  method PrepareWorkflow(c: Context, w: Workflow, used: set<string>, digests: set<string>)
    returns (r: Result<PreparedWorkflow>, used': set<string>, digests': set<string>, ghost indexes: map<string, nat>)
    ensures r.Ok? ==> Preparable(c, w, used, digests)
    ensures r.Err? ==> !Preparable(c, w, used, digests) || KeysTaken(c, w, used)
    ensures r.Ok? ==> PreparedFrom(c, w, r.value) && GatesReady(r.value, indexes)
    ensures r.Ok? ==> Fresh(used, Registered(r.value)) && used' == used + KeysIn(Registered(r.value))
    ensures r.Ok? ==> Fresh(digests, PlannedDigests(r.value.jobs))
    ensures r.Ok? ==> digests' == digests + KeysIn(PlannedDigests(r.value.jobs))
  {
    hide *;
    used', digests', indexes := used, digests, map[];
    var wellFormed := CheckWorkflow(c, w);
    if !wellFormed {
      BadShape(c, w, used, digests);
      return Err("workflow is not well formed"), used, digests, indexes;
    }
    var sorted := OrderJobs(c.compilerStep, w.jobs, c.existing);
    if sorted.Err? {
      NoOrder(c, w, used, digests);
      return Err(sorted.reason), used, digests, indexes;
    }
    var ordered := sorted.value;
    IsOrdered(c, w.jobs, ordered);
    var gates;
    gates, used', digests', indexes := CheckOrdered(c, w, ordered, used, digests);
    if gates.Err? {
      NotSuited(c, w, ordered, used, digests);
      return Err(gates.reason), used, digests, indexes;
    }
    Suited(c, w, ordered, used, digests);
    var ok, open, close, claimed := NameOwnGate(c, w, ordered, used');
    if !ok {
      OwnKeyTaken(c, w, ordered, gates.value, indexes, open, close, used, digests);
      return Err("workflow gate key collides"), used, digests, indexes;
    }
    var named;
    ok, named, claimed := NameGates(c, w.groupKey, ordered, gates.value, claimed);
    if !ok {
      GateKeyTaken(c, w, ordered, gates.value, indexes, open, close, used, digests);
      return Err("gate key collides"), used, digests, indexes;
    }
    Completed(c, w, ordered, gates.value, indexes, open, close, named, used, digests);
    AllFresh(c, w, ordered, open, close, named, used);
    used' := claimed;
    r := Ok(Whole(c, w, ordered, open, close, named));
  }

  function Whole(c: Context, w: Workflow, ordered: seq<Job>, open: string, close: string,
                 named: seq<PreparedGate>): (p: PreparedWorkflow)
    ensures p.jobs == ordered
  {
    PreparedWorkflow(w.groupKey, w.failure, w.skipReason, w.ungrouped, c.aggregate, w.gate, open, close,
      w.approvalGates, ordered, named)
  }

  function OwnKeys(gate: Option<ConcurrencyGate>, open: string, close: string): seq<string> {
    if gate.None? then [] else [open, close]
  }

  lemma Completed(c: Context, w: Workflow, ordered: seq<Job>, before: seq<PreparedGate>, indexes: map<string, nat>,
                  open: string, close: string, named: seq<PreparedGate>, used: set<string>, digests: set<string>)
    requires Shape(c, w) && ValidGate(w.gate) && OrderedFrom(c, w.jobs, ordered) && Suits(c, w, ordered, used, digests)
    requires Collected(Declarations(ordered), before, indexes) && Consistent(Declarations(ordered))
    requires PrerequisitesLifted(ordered, before)
    requires OwnNamed(c, w.groupKey, ordered, w.gate, open, close)
    requires KeysAside(before, named) && GatesNamed(c, w.groupKey, ordered, named)
    ensures PreparedFrom(c, w, Whole(c, w, ordered, open, close, named))
    ensures GatesReady(Whole(c, w, ordered, open, close, named), indexes)
  {
    Suited(c, w, ordered, used, digests);
    KeysLeaveCollected(Declarations(ordered), before, named, indexes);
    KeysLeaveLifted(ordered, before, named);
    OwnKeysNotEmpty(c, w.groupKey, ordered, w.gate, open, close);
    KeysNotEmpty(c, w.groupKey, ordered, named);
    SuitedMeans(c, w, ordered, used, digests, open, close, named);
  }

  lemma OwnKeysNotEmpty(c: Context, groupKey: string, jobs: seq<Job>, gate: Option<ConcurrencyGate>, open: string,
                        close: string)
    requires OwnNamed(c, groupKey, jobs, gate, open, close)
    ensures gate.Some? <==> open != ""
    ensures gate.Some? <==> close != ""
  {
    hide Named;
    if gate.Some? { NamesAreOne(c, groupKey, jobs, "", gate.value.group); }
  }

  lemma KeysNotEmpty(c: Context, groupKey: string, jobs: seq<Job>, gates: seq<PreparedGate>)
    requires GatesNamed(c, groupKey, jobs, gates)
    ensures forall x :: 0 <= x < |gates| ==> gates[x].openKey != "" && gates[x].closeKey != ""
  {
    hide Named;
    forall x | 0 <= x < |gates| ensures gates[x].openKey != "" && gates[x].closeKey != "" {
      NamesAreOne(c, groupKey, jobs, gates[x].id, gates[x].group);
    }
  }

  lemma OwnKeyTaken(c: Context, w: Workflow, ordered: seq<Job>, before: seq<PreparedGate>, indexes: map<string, nat>,
                    open: string, close: string, used: set<string>, digests: set<string>)
    requires Shape(c, w) && ValidGate(w.gate) && OrderedFrom(c, w.jobs, ordered) && Suits(c, w, ordered, used, digests)
    requires Collected(Declarations(ordered), before, indexes) && Consistent(Declarations(ordered))
    requires PrerequisitesLifted(ordered, before)
    requires OwnNamed(c, w.groupKey, ordered, w.gate, open, close)
    requires !Fresh(used + KeysIn(NamedKeys(w, ordered)), OwnKeys(w.gate, open, close))
    ensures KeysTaken(c, w, used)
  {
    hide *;
    var named := NamesExist(c, w.groupKey, ordered, before);
    Completed(c, w, ordered, before, indexes, open, close, named, used, digests);
    AllFresh(c, w, ordered, open, close, named, used);
    TakenBy(c, w, used, Whole(c, w, ordered, open, close, named), indexes);
  }

  lemma GateKeyTaken(c: Context, w: Workflow, ordered: seq<Job>, before: seq<PreparedGate>, indexes: map<string, nat>,
                     open: string, close: string, used: set<string>, digests: set<string>)
    requires Shape(c, w) && ValidGate(w.gate) && OrderedFrom(c, w.jobs, ordered) && Suits(c, w, ordered, used, digests)
    requires Collected(Declarations(ordered), before, indexes) && Consistent(Declarations(ordered))
    requires PrerequisitesLifted(ordered, before)
    requires OwnNamed(c, w.groupKey, ordered, w.gate, open, close)
    requires forall all :: KeysAside(before, all) && GatesNamed(c, w.groupKey, ordered, all) ==>
               !Fresh(used + KeysIn(NamedKeys(w, ordered)) + KeysIn(OwnKeys(w.gate, open, close)), GatePairs(all))
    ensures KeysTaken(c, w, used)
  {
    hide *;
    var named := NamesExist(c, w.groupKey, ordered, before);
    Completed(c, w, ordered, before, indexes, open, close, named, used, digests);
    AllFresh(c, w, ordered, open, close, named, used);
    TakenBy(c, w, used, Whole(c, w, ordered, open, close, named), indexes);
  }

  lemma TakenBy(c: Context, w: Workflow, used: set<string>, p: PreparedWorkflow, indexes: map<string, nat>)
    requires PreparedFrom(c, w, p) && GatesReady(p, indexes) && !Fresh(used, Registered(p))
    ensures KeysTaken(c, w, used)
  {
    hide PreparedFrom, GatesReady, Fresh, Registered;
  }

  /** The keys are claimed in three turns. */
  lemma AllFresh(c: Context, w: Workflow, ordered: seq<Job>, open: string, close: string, named: seq<PreparedGate>,
                 used: set<string>)
    ensures var p := Whole(c, w, ordered, open, close, named);
            var first, own, pairs := NamedKeys(w, ordered), OwnKeys(w.gate, open, close), GatePairs(named);
            && (Fresh(used, Registered(p)) <==>
                  Fresh(used, first) && Fresh(used + KeysIn(first), own) &&
                    Fresh(used + KeysIn(first) + KeysIn(own), pairs))
            && used + KeysIn(Registered(p)) == used + KeysIn(first) + KeysIn(own) + KeysIn(pairs)
  {
    hide Fresh, GroupKeys, ApprovalKeys, KeysOf, GatePairs, KeysIn;
    var p := Whole(c, w, ordered, open, close, named);
    var first, own, pairs := NamedKeys(w, ordered), OwnKeys(w.gate, open, close), GatePairs(named);
    assert Registered(p) == first + own + pairs;
    FreshInTurn(used, first, own);
    FreshInTurn(used, first + own, pairs);
    assert used + KeysIn(first + own) == used + KeysIn(first) + KeysIn(own);
  }
  lemma BadShape(c: Context, w: Workflow, used: set<string>, digests: set<string>)
    requires !Shape(c, w) || !ValidGate(w.gate)
    ensures !Preparable(c, w, used, digests)
  {
  }

  lemma NoOrder(c: Context, w: Workflow, used: set<string>, digests: set<string>)
    requires !(ValidInput(c.compilerStep, w.jobs, c.existing) && AcyclicNeeds(w.jobs))
    ensures !Preparable(c, w, used, digests)
  {
    hide Shape, ValidGate, Suits;
  }

  lemma IsOrdered(c: Context, input: seq<Job>, ordered: seq<Job>)
    requires ValidInput(c.compilerStep, input, c.existing) && AcyclicNeeds(input)
    requires forall j :: j in ordered <==> exists i :: i in input && j == Normalized(i)
    requires IsLeastOrder(NeedsGraph(ByKey(input)), KeySet(input), KeysOf(ordered))
    ensures OrderedFrom(c, input, ordered)
  {
    hide ValidInput, AcyclicNeeds, IsLeastOrder, Normalized;
  }

  lemma Suited(c: Context, w: Workflow, ordered: seq<Job>, used: set<string>, digests: set<string>)
    requires Shape(c, w) && ValidGate(w.gate) && OrderedFrom(c, w.jobs, ordered) && Suits(c, w, ordered, used, digests)
    ensures Preparable(c, w, used, digests)
    ensures Fresh(used, NamedKeys(w, ordered))
    ensures Fresh(digests, PlannedDigests(ordered))
    ensures GroupsDiffer(w.gate, Declarations(ordered))
    ensures w.gate.Some? ==> w.gate.value.group != ""
  {
    hide Shape, OrderedFrom, Fresh, ApprovalsMatch, FreeOfGate, Files, Gateable, GroupsDiffer;
  }

  lemma SuitedMeans(c: Context, w: Workflow, ordered: seq<Job>, used: set<string>, digests: set<string>,
                    open: string, close: string, named: seq<PreparedGate>)
    requires OrderedFrom(c, w.jobs, ordered) && Suits(c, w, ordered, used, digests)
    requires OwnNamed(c, w.groupKey, ordered, w.gate, open, close) && GatesNamed(c, w.groupKey, ordered, named)
    ensures PreparedFrom(c, w, Whole(c, w, ordered, open, close, named))
  {
    hide OrderedFrom, Fresh, ApprovalsMatch, FreeOfGate, GatesFit, OwnNamed, GatesNamed;
  }

  // ----- writing the steps -----

  method EmitGates(w: PreparedWorkflow, compilerStep: string) returns (out: seq<Step>, openKeys: map<string, string>)
    ensures out == Placed(w, compilerStep, GateEntries(w, |w.gates|, compilerStep))
    ensures openKeys == OpenKeys(w.gates)
  {
    hide OpenNeeds, CloseNeeds, ScopeOf, Within;
    out, openKeys := [], map[];
    for x := 0 to |w.gates|
      invariant out == Placed(w, compilerStep, GateEntries(w, x, compilerStep))
      invariant openKeys == OpenKeys(w.gates[..x])
    {
      var gate := w.gates[x];
      var needs := OpenDependencies(w, gate, openKeys, compilerStep);
      out := out + [Within(w, compilerStep, Step(gate.openKey, gate.group, needs))];
      assert w.gates[..x + 1][..x] == w.gates[..x];
      openKeys := openKeys[gate.id := gate.openKey];
      needs := CloseDependencies(w, gate);
      out := out + [Within(w, compilerStep, Step(gate.closeKey, gate.group, needs))];
    }
    assert w.gates[..|w.gates|] == w.gates;
  }

  method EmitJobs(w: PreparedWorkflow, openKeys: map<string, string>, compilerStep: string) returns (out: seq<Step>)
    requires openKeys == OpenKeys(w.gates)
    ensures out == Placed(w, compilerStep, JobEntries(w, |w.jobs|, compilerStep))
  {
    hide JobNeeds, Within;
    out := [];
    for n := 0 to |w.jobs|
      invariant out == Placed(w, compilerStep, JobEntries(w, n, compilerStep))
    {
      var needs := JobDependencies(w, w.jobs[n], openKeys, compilerStep);
      out := out + [Within(w, compilerStep, Step(w.jobs[n].key, w.jobs[n].concurrencyGroup, needs))];
    }
  }

  method EmitApprovals(w: PreparedWorkflow, compilerStep: string) returns (out: seq<Step>)
    ensures out == Placed(w, compilerStep, ApprovalEntries(w, |w.approvalGates|, compilerStep))
  {
    hide Within;
    out := [];
    for n := 0 to |w.approvalGates|
      invariant out == Placed(w, compilerStep, ApprovalEntries(w, n, compilerStep))
    {
      out := out + [Within(w, compilerStep, Step(w.approvalGates[n].key, "", Strict(compilerStep)))];
    }
  }

  /** One step for a dropped workflow; otherwise gates, jobs and approval gates in this order. */
  method EmitWorkflow(w: PreparedWorkflow, compilerStep: string) returns (out: seq<Step>)
    ensures out == Steps(w, compilerStep)
  {
    hide WorkflowCloseNeeds, Within, GateEntries, JobEntries, ApprovalEntries;
    if w.failure || (w.skipReason != "" && w.aggregate) {
      return [Step(w.groupKey, "", Strict(compilerStep))];
    }
    out := [];
    if w.gate.Some? {
      var needs := [];
      if (!w.aggregate || w.ungrouped) && compilerStep != "" {
        needs := [Dependency(compilerStep, false)];
      }
      out := out + [Within(w, compilerStep, Step(w.gateOpenKey, w.gate.value.group, needs))];
      needs := WorkflowCloseDependencies(w, compilerStep);
      out := out + [Within(w, compilerStep, Step(w.gateCloseKey, w.gate.value.group, needs))];
    }
    assert out == Placed(w, compilerStep, WorkflowGateEntries(w, CompilerNeed(w, compilerStep), compilerStep));
    var gates, openKeys := EmitGates(w, compilerStep);
    var jobs := EmitJobs(w, openKeys, compilerStep);
    var approvals := EmitApprovals(w, compilerStep);
    out := out + gates + jobs + approvals;
  }

  // ----- the whole pipeline -----

  predicate ValidHeader(p: Pipeline) {
    && (p.Keyless() || ValidStepKey(p.compilerStep))
    && ValidIdentifier(if p.artifactProducer == "" then p.compilerStep else p.artifactProducer)
    && (p.deferred ==> p.Keyless())
    && (p.existing != [] ==> p.deferred)
    && (forall k :: k in p.existing ==> ValidStepKey(k))
    && (p.Aggregate() ==> p.jobs == [] && p.gate.None? && p.approvalGates == [])
  }

  function ContextOf(p: Pipeline, digest: string -> string): Context {
    Context(p.compilerStep, p.Aggregate(), p.deferred, KeysIn(p.existing), digest)
  }

  function UsedKeys(compilerStep: string, ws: seq<PreparedWorkflow>): set<string> {
    KeysIn(GroupKeys(compilerStep)) + KeysIn(AllRegistered(ws))
  }

  function AllDigests(ws: seq<PreparedWorkflow>): seq<string> {
    if ws == [] then [] else AllDigests(ws[..|ws| - 1]) + PlannedDigests(ws[|ws| - 1].jobs)
  }

  /** The first workflows, prepared; no key and no plan digest is used twice. */
  ghost predicate PreparedPrefix(c: Context, all: seq<Workflow>, ws: seq<PreparedWorkflow>,
                                 indexes: seq<map<string, nat>>) {
    && |ws| == |indexes| && |ws| <= |all|
    && (forall i :: 0 <= i < |ws| ==> PreparedFrom(c, all[i], ws[i]) && GatesReady(ws[i], indexes[i]))
    && Fresh(KeysIn(GroupKeys(c.compilerStep)), AllRegistered(ws))
    && Distinct(AllDigests(ws))
  }

  /** Each workflow passes the checks, given the keys and digests of those before it. */
  ghost predicate AllPreparable(c: Context, all: seq<Workflow>, ws: seq<PreparedWorkflow>)
    requires |ws| <= |all|
  {
    forall n :: 0 <= n < |ws| ==> PreparableAfter(c, all, ws[..n])
  }

  ghost predicate PreparableAfter(c: Context, all: seq<Workflow>, before: seq<PreparedWorkflow>)
    requires |before| < |all|
  {
    Preparable(c, all[|before|], UsedKeys(c.compilerStep, before), KeysIn(AllDigests(before)))
  }

  ghost predicate Accepted(p: Pipeline, c: Context, ws: seq<PreparedWorkflow>, indexes: seq<map<string, nat>>) {
    && ValidHeader(p)
    && |ws| == |p.All()| && PreparedPrefix(c, p.All(), ws, indexes) && AllPreparable(c, p.All(), ws)
    && QueuesOrderable(AllEntries(ws, c.compilerStep))
  }

  /** A rejection is deserved: by the header, by the next workflow, or by a cycle. */
  ghost predicate Refused(p: Pipeline, c: Context, ws: seq<PreparedWorkflow>, indexes: seq<map<string, nat>>) {
    || !ValidHeader(p)
    || (PreparedPrefix(c, p.All(), ws, indexes) &&
        if |ws| < |p.All()| then
          || !Preparable(c, p.All()[|ws|], UsedKeys(c.compilerStep, ws), KeysIn(AllDigests(ws)))
          || KeysTaken(c, p.All()[|ws|], UsedKeys(c.compilerStep, ws))
        else
          !QueuesOrderable(AllEntries(ws, c.compilerStep)))
  }

  /** The checks on the pipeline by itself; collects the existing steps. */
  method CheckHeader(p: Pipeline) returns (ok: bool, existing: set<string>)
    ensures ok <==> ValidHeader(p)
    ensures ok ==> existing == KeysIn(p.existing)
  {
    hide ValidStepKey, ValidIdentifier;
    existing := {};
    var aggregate := |p.workflows| != 0;
    var keyless := aggregate && p.compilerStep == "" && p.artifactProducer != "";
    if !keyless && !ValidStepKey(p.compilerStep) { return false, {}; }
    var producer := p.artifactProducer;
    if producer == "" {
      producer := p.compilerStep;
    }
    if !ValidIdentifier(producer) { return false, {}; }
    if p.deferred && !keyless { return false, {}; }
    if |p.existing| != 0 && !p.deferred { return false, {}; }
    for i := 0 to |p.existing|
      invariant forall k :: 0 <= k < i ==> ValidStepKey(p.existing[k])
      invariant existing == KeysIn(p.existing[..i])
    {
      if !ValidStepKey(p.existing[i]) {
        assert p.existing[i] in p.existing;
        return false, {};
      }
      existing := existing + {p.existing[i]};
      assert p.existing[..i + 1] == p.existing[..i] + [p.existing[i]];
    }
    assert p.existing[..|p.existing|] == p.existing;
    ok := !(aggregate && (|p.jobs| != 0 || p.gate.Some? || |p.approvalGates| != 0));
  }

  method Emit(p: Pipeline, digest: string -> string)
    returns (r: Result<seq<Step>>, ghost ws: seq<PreparedWorkflow>, ghost indexes: seq<map<string, nat>>)
    ensures r.Ok? ==> Accepted(p, ContextOf(p, digest), ws, indexes) && r.value == AllSteps(ws, p.compilerStep)
    ensures r.Ok? <==> exists some, maps :: Accepted(p, ContextOf(p, digest), some, maps)
    ensures r.Ok? ==> forall some, maps :: Accepted(p, ContextOf(p, digest), some, maps) ==>
        r.value == AllSteps(some, p.compilerStep)
    ensures r.Err? ==> Refused(p, ContextOf(p, digest), ws, indexes)
  {
    hide ValidHeader, Preparable, QueuesOrderable, PreparedPrefix, PreparedFrom, GatesReady, Fresh, AllEntries;
    hide NamedSteps, UsedKeys, Registered, PlannedDigests, GroupKeys, AllRegistered, AllDigests;
    ws, indexes := [], [];
    var wellFormed, existing := CheckHeader(p);
    if !wellFormed {
      RefusedIsNotAccepted(p, ContextOf(p, digest), ws, indexes);
      return Err("invalid pipeline"), ws, indexes;
    }
    var c := Context(p.compilerStep, |p.workflows| != 0, p.deferred, existing, digest);
    var workflows := p.All();
    var prepared := [];
    var used, digests := KeysIn(GroupKeys(p.compilerStep)), {};
    NothingPrepared(c, workflows);
    for n := 0 to |workflows|
      invariant ws == prepared && |ws| == n && PreparedPrefix(c, workflows, ws, indexes)
      invariant AllPreparable(c, workflows, ws)
      invariant used == UsedKeys(c.compilerStep, ws) && digests == KeysIn(AllDigests(ws))
    {
      var w, used', digests';
      ghost var index;
      w, used', digests', index := PrepareWorkflow(c, workflows[n], used, digests);
      if w.Err? {
        RefusedIsNotAccepted(p, c, ws, indexes);
        return Err(w.reason), ws, indexes;
      }
      PrefixGrows(c, workflows, ws, indexes, w.value, index);
      AllPreparableGrows(c, workflows, ws, w.value);
      prepared, used, digests := prepared + [w.value], used', digests';
      ws, indexes := ws + [w.value], indexes + [index];
    }
    EntriesNamed(c, workflows, ws, indexes);
    var verdict := ValidateConcurrency(prepared, p.compilerStep);
    if verdict.CycleAt? {
      RefusedIsNotAccepted(p, c, ws, indexes);
      return Err("concurrency queue and prerequisite dependencies form a cycle"), ws, indexes;
    }
    var out := [];
    for n := 0 to |prepared|
      invariant out == AllSteps(prepared[..n], p.compilerStep)
    {
      assert prepared[..n + 1][..n] == prepared[..n];
      var steps := EmitWorkflow(prepared[n], p.compilerStep);
      out := out + steps;
    }
    assert prepared[..|prepared|] == prepared;
    AcceptedOnce(p, c, ws, indexes);
    r := Ok(out);
  }

  lemma AllPreparableGrows(c: Context, all: seq<Workflow>, ws: seq<PreparedWorkflow>, w: PreparedWorkflow)
    requires |ws| < |all| && AllPreparable(c, all, ws) && PreparableAfter(c, all, ws)
    ensures AllPreparable(c, all, ws + [w])
  {
    hide PreparableAfter;
    forall n | 0 <= n < |ws| + 1 ensures PreparableAfter(c, all, (ws + [w])[..n]) {
      if n < |ws| {
        assert (ws + [w])[..n] == ws[..n];
      } else {
        assert (ws + [w])[..n] == ws;
      }
    }
  }

  // ----- the verdict is exact -----

  /** The declarations, the needs and the names leave nothing open about a gate. */
  lemma GatesAreOne(c: Context, groupKey: string, jobs: seq<Job>, a: seq<PreparedGate>, i: map<string, nat>,
                    b: seq<PreparedGate>, j: map<string, nat>)
    requires Collected(Declarations(jobs), a, i) && GatesNamed(c, groupKey, jobs, a) && PrerequisitesLifted(jobs, a)
    requires Collected(Declarations(jobs), b, j) && GatesNamed(c, groupKey, jobs, b) && PrerequisitesLifted(jobs, b)
    ensures a == b && i == j
  {
    hide FirstDeclared, Named, MemberKeys, FirstQueue, Files, ParentsPrecede, Distinct, NeededByMember, Lifted;
    var ds := Declarations(jobs);
    var f :| Files(jobs, f) && LiftedAll(f, a);
    var g :| Files(jobs, g) && LiftedAll(g, b);
    FilesOnce(jobs, f, g);
    forall x | 0 <= x < |a| ensures a[x] == b[x] {
      AgreedOnce(ds, a, i, b, j, x);
      NamesAreOne(c, groupKey, jobs, a[x].id, a[x].group);
      assert Lifts(NeedsIn(f), a[x].members, a[x].prerequisites) && Lifts(NeedsIn(f), b[x].members, b[x].prerequisites);
      SameGate(a[x], b[x]);
    }
    assert a == b;
    SameIndexes(a, i, j);
  }

  lemma SameIndexes(gates: seq<PreparedGate>, i: map<string, nat>, j: map<string, nat>)
    requires Indexed(gates, i) && Indexed(gates, j)
    ensures i == j
  {
    forall id | id in i ensures id in j && j[id] == i[id] { assert gates[i[id]].id == id; }
    forall id | id in j ensures id in i { assert gates[j[id]].id == id; }
  }

  lemma SameGate(a: PreparedGate, b: PreparedGate)
    requires a.id == b.id && a.group == b.group && a.queue == b.queue && a.cancelInProgress == b.cancelInProgress
    requires a.parentID == b.parentID && a.openKey == b.openKey && a.closeKey == b.closeKey
    requires a.members == b.members && a.prerequisites == b.prerequisites
    ensures a == b
  {
  }

  lemma AgreedOnce(ds: seq<Declaration>, a: seq<PreparedGate>, i: map<string, nat>,
                   b: seq<PreparedGate>, j: map<string, nat>, x: nat)
    requires Collected(ds, a, i) && Collected(ds, b, j) && x < |a|
    ensures |a| == |b| && a[x].id == b[x].id && a[x].group == b[x].group && a[x].parentID == b[x].parentID
    ensures a[x].cancelInProgress == b[x].cancelInProgress && a[x].members == b[x].members && a[x].queue == b[x].queue
  {
    hide FirstDeclared, MemberKeys, FirstQueue, ParentsPrecede;
    assert a[x].id in DeclaredIds(ds);
    var d :| d in ds && d.gate.id == a[x].id;
    var n :| 0 <= n < |ds| && ds[n] == d;
    assert Agrees(a[i[ds[n].gate.id]], ds[n]) && Agrees(b[j[ds[n].gate.id]], ds[n]);
  }

  /** A workflow can be prepared in one way only. */
  lemma PreparationIsOne(c: Context, w: Workflow, p: PreparedWorkflow, i: map<string, nat>, q: PreparedWorkflow,
                         j: map<string, nat>)
    requires PreparedFrom(c, w, p) && GatesReady(p, i) && PreparedFrom(c, w, q) && GatesReady(q, j)
    ensures p == q && i == j
  {
    hide OrderedFrom, ApprovalsMatch, GatesNamed, Collected, Consistent, GroupsDiffer, PrerequisitesLifted, Named;
    OrderedOnce(c, w.jobs, p.jobs, q.jobs);
    GatesAreOne(c, p.groupKey, p.jobs, p.gates, i, q.gates, j);
    if p.gate.Some? { NamesAreOne(c, p.groupKey, p.jobs, "", p.gate.value.group); }
  }

  lemma {:induction false} FreshPrefix(used: set<string>, ws: seq<PreparedWorkflow>, n: nat)
    requires n < |ws| && Fresh(used, AllRegistered(ws))
    ensures Fresh(used + KeysIn(AllRegistered(ws[..n])), Registered(ws[n]))
  {
    hide Fresh, Registered, KeysIn;
    var m := |ws| - 1;
    FreshInTurn(used, AllRegistered(ws[..m]), Registered(ws[m]));
    if n < m {
      FreshPrefix(used, ws[..m], n);
      assert ws[..m][..n] == ws[..n];
    }
  }

  lemma NextIsFine(c: Context, all: seq<Workflow>, ws: seq<PreparedWorkflow>, indexes: seq<map<string, nat>>, n: nat)
    requires PreparedPrefix(c, all, ws, indexes) && AllPreparable(c, all, ws) && n < |ws|
    ensures PreparableAfter(c, all, ws[..n]) && !KeysTaken(c, all[n], UsedKeys(c.compilerStep, ws[..n]))
  {
    hide PreparedFrom, GatesReady, PreparableAfter, AllRegistered, AllDigests, Registered, KeysIn, Fresh;
    forall q, i | PreparedFrom(c, all[n], q) && GatesReady(q, i)
      ensures Fresh(UsedKeys(c.compilerStep, ws[..n]), Registered(q))
    {
      PreparationIsOne(c, all[n], q, i, ws[n], indexes[n]);
      FreshPrefix(KeysIn(GroupKeys(c.compilerStep)), ws, n);
    }
  }

  /** Beside an accepted preparation, any other that got as far finds nothing to refuse. */
  lemma NothingToRefuse(p: Pipeline, c: Context, ws: seq<PreparedWorkflow>, indexes: seq<map<string, nat>>,
                        part: seq<PreparedWorkflow>, maps: seq<map<string, nat>>)
    requires Accepted(p, c, ws, indexes) && PreparedPrefix(c, p.All(), part, maps)
    ensures |part| <= |p.All()|
    ensures |part| < |p.All()| ==>
              PreparableAfter(c, p.All(), part) && !KeysTaken(c, p.All()[|part|], UsedKeys(c.compilerStep, part))
    ensures |part| == |p.All()| ==> QueuesOrderable(AllEntries(part, c.compilerStep))
  {
    hide ValidHeader, PreparedPrefix, AllPreparable, PreparableAfter, KeysTaken, QueuesOrderable, AllEntries, UsedKeys;
    LengthsFit(c, p.All(), part, maps);
    SamePrefix(c, p.All(), ws, indexes, part, maps);
    if |part| < |p.All()| {
      NextIsFine(c, p.All(), ws, indexes, |part|);
    } else {
      assert ws[..|part|] == ws;
    }
  }

  /** No preparation of a refused pipeline is accepted. */
  lemma RefusedIsNotAccepted(p: Pipeline, c: Context, part: seq<PreparedWorkflow>, maps: seq<map<string, nat>>)
    requires Refused(p, c, part, maps)
    ensures forall ws, indexes :: !Accepted(p, c, ws, indexes)
  {
    hide ValidHeader, PreparedPrefix, AllPreparable, Preparable, KeysTaken, QueuesOrderable, AllEntries, UsedKeys,
      KeysIn, AllDigests;
    forall ws, indexes ensures !Accepted(p, c, ws, indexes) {
      if Accepted(p, c, ws, indexes) && PreparedPrefix(c, p.All(), part, maps) {
        NothingToRefuse(p, c, ws, indexes, part, maps);
      }
    }
  }

  lemma LengthsFit(c: Context, all: seq<Workflow>, ws: seq<PreparedWorkflow>, indexes: seq<map<string, nat>>)
    requires PreparedPrefix(c, all, ws, indexes)
    ensures |ws| == |indexes| && |ws| <= |all|
  {
    hide PreparedFrom, GatesReady;
  }

  lemma AcceptedOnce(p: Pipeline, c: Context, ws: seq<PreparedWorkflow>, indexes: seq<map<string, nat>>)
    requires Accepted(p, c, ws, indexes)
    ensures forall other, maps :: Accepted(p, c, other, maps) ==> other == ws
  {
    hide ValidHeader, PreparedPrefix, AllPreparable, QueuesOrderable;
    forall other, maps | Accepted(p, c, other, maps) ensures other == ws {
      SamePrefix(c, p.All(), ws, indexes, other, maps);
      assert ws[..|other|] == ws;
    }
  }

  lemma SamePrefix(c: Context, all: seq<Workflow>, ws: seq<PreparedWorkflow>, indexes: seq<map<string, nat>>,
                   part: seq<PreparedWorkflow>, maps: seq<map<string, nat>>)
    requires PreparedPrefix(c, all, ws, indexes) && PreparedPrefix(c, all, part, maps) && |part| <= |ws|
    ensures ws[..|part|] == part
  {
    hide PreparedFrom, GatesReady, AllRegistered, AllDigests;
    forall n | 0 <= n < |part| ensures ws[n] == part[n] {
      PreparationIsOne(c, all[n], ws[n], indexes[n], part[n], maps[n]);
    }
  }

  lemma NothingPrepared(c: Context, all: seq<Workflow>)
    ensures PreparedPrefix(c, all, [], [])
    ensures UsedKeys(c.compilerStep, []) == KeysIn(GroupKeys(c.compilerStep)) && KeysIn(AllDigests([])) == {}
  {
    hide GatesReady, PreparedFrom;
  }

  lemma PrefixGrows(c: Context, all: seq<Workflow>, ws: seq<PreparedWorkflow>, indexes: seq<map<string, nat>>,
                    w: PreparedWorkflow, index: map<string, nat>)
    requires PreparedPrefix(c, all, ws, indexes) && |ws| < |all|
    requires PreparedFrom(c, all[|ws|], w) && GatesReady(w, index)
    requires Fresh(UsedKeys(c.compilerStep, ws), Registered(w)) && Fresh(KeysIn(AllDigests(ws)), PlannedDigests(w.jobs))
    ensures PreparedPrefix(c, all, ws + [w], indexes + [index])
    ensures UsedKeys(c.compilerStep, ws + [w]) == UsedKeys(c.compilerStep, ws) + KeysIn(Registered(w))
    ensures KeysIn(AllDigests(ws + [w])) == KeysIn(AllDigests(ws)) + KeysIn(PlannedDigests(w.jobs))
  {
    hide PreparedFrom, GatesReady, Registered, PlannedDigests, GroupKeys, Fresh, KeysIn, Distinct, AllRegistered,
      AllDigests, UsedKeys;
    KeysGrow(c.compilerStep, ws, w);
    forall i | 0 <= i < |ws| + 1
      ensures PreparedFrom(c, all[i], (ws + [w])[i]) && GatesReady((ws + [w])[i], (indexes + [index])[i])
    {
    }
  }

  lemma KeysGrow(compilerStep: string, ws: seq<PreparedWorkflow>, w: PreparedWorkflow)
    requires Fresh(KeysIn(GroupKeys(compilerStep)), AllRegistered(ws)) && Distinct(AllDigests(ws))
    requires Fresh(UsedKeys(compilerStep, ws), Registered(w)) && Fresh(KeysIn(AllDigests(ws)), PlannedDigests(w.jobs))
    ensures Fresh(KeysIn(GroupKeys(compilerStep)), AllRegistered(ws + [w])) && Distinct(AllDigests(ws + [w]))
    ensures UsedKeys(compilerStep, ws + [w]) == UsedKeys(compilerStep, ws) + KeysIn(Registered(w))
    ensures KeysIn(AllDigests(ws + [w])) == KeysIn(AllDigests(ws)) + KeysIn(PlannedDigests(w.jobs))
  {
    hide Registered, PlannedDigests, GroupKeys, Fresh, KeysIn, Distinct, AllRegistered, AllDigests;
    RegisterGrows(ws, w);
    FreshInTurn(KeysIn(GroupKeys(compilerStep)), AllRegistered(ws), Registered(w));
    FreshInTurn({}, AllDigests(ws), PlannedDigests(w.jobs));
    FreshFromNothing(AllDigests(ws), PlannedDigests(w.jobs));
  }

  lemma RegisterGrows(ws: seq<PreparedWorkflow>, w: PreparedWorkflow)
    ensures AllRegistered(ws + [w]) == AllRegistered(ws) + Registered(w)
    ensures AllDigests(ws + [w]) == AllDigests(ws) + PlannedDigests(w.jobs)
  {
    hide Registered, PlannedDigests;
    assert (ws + [w])[..|ws|] == ws;
  }

  lemma FreshFromNothing(a: seq<string>, b: seq<string>)
    ensures Distinct(a) <==> Fresh({}, a)
    ensures Distinct(a + b) <==> Fresh({}, a + b)
    ensures {} + KeysIn(a) == KeysIn(a)
  {
  }

  lemma EntriesNamed(c: Context, all: seq<Workflow>, ws: seq<PreparedWorkflow>, indexes: seq<map<string, nat>>)
    requires PreparedPrefix(c, all, ws, indexes)
    ensures NamedSteps(AllEntries(ws, c.compilerStep))
  {
    hide PreparedFrom, GatesReady, StepKeys, AllEntries;
    RegisteredOnceEmittedOnce(ws, c.compilerStep);
    AllEntriesHaveKeys(c, all, ws, indexes);
  }

  lemma {:induction false} AllEntriesHaveKeys(c: Context, all: seq<Workflow>, ws: seq<PreparedWorkflow>,
                                              indexes: seq<map<string, nat>>)
    requires |ws| == |indexes| && |ws| <= |all|
    requires forall i :: 0 <= i < |ws| ==> PreparedFrom(c, all[i], ws[i]) && GatesReady(ws[i], indexes[i])
    ensures forall e :: e in AllEntries(ws, c.compilerStep) ==> e.key != ""
  {
    hide PreparedFrom, GatesReady, Entries;
    if ws != [] {
      var last := |ws| - 1;
      AllEntriesHaveKeys(c, all, ws[..last], indexes[..last]);
      EntriesHaveKeys(c, all[last], ws[last], indexes[last]);
    }
  }

  lemma EntriesHaveKeys(c: Context, w: Workflow, p: PreparedWorkflow, indexes: map<string, nat>)
    requires PreparedFrom(c, w, p) && GatesReady(p, indexes)
    ensures forall e :: e in Entries(p, c.compilerStep) ==> e.key != ""
  {
    hide Collected, Consistent, GroupsDiffer, GateEntries, JobEntries, WorkflowCloseNeeds, PreparedFrom;
    GateEntriesHaveKeys(p, |p.gates|, c.compilerStep);
    JobEntriesHaveKeys(c, w, p, |p.jobs|);
  }

  lemma {:induction false} GateEntriesHaveKeys(p: PreparedWorkflow, n: nat, compilerStep: string)
    requires n <= |p.gates| && forall x :: 0 <= x < |p.gates| ==> p.gates[x].openKey != "" && p.gates[x].closeKey != ""
    ensures forall e :: e in GateEntries(p, n, compilerStep) ==> e.key != ""
  {
    if n > 0 { GateEntriesHaveKeys(p, n - 1, compilerStep); }
  }

  lemma {:induction false} JobEntriesHaveKeys(c: Context, w: Workflow, p: PreparedWorkflow, n: nat)
    requires n <= |p.jobs| && PreparedFrom(c, w, p)
    ensures forall e :: e in JobEntries(p, n, c.compilerStep) ==> e.key != ""
  {
    hide PreparedFrom, JobNeeds;
    if n > 0 {
      JobEntriesHaveKeys(c, w, p, n - 1);
      assert p.jobs[n - 1] in p.jobs;
      JobIsValid(c, w, p, p.jobs[n - 1]);
    }
  }

  lemma JobIsValid(c: Context, w: Workflow, p: PreparedWorkflow, j: Job)
    requires PreparedFrom(c, w, p) && j in p.jobs
    ensures j.key != "" && (j.PreparationResult() ==> j.gates == [])
    ensures forall d :: d in j.dependencies ==> d in KeysIn(KeysOf(p.jobs)) || d in c.existing
  {
    hide ApprovalsMatch, IsLeastOrder, AcyclicNeeds, ByKey, Distinct;
    var i :| i in w.jobs && j == Normalized(i);
    NormalKey(i);
    assert ValidJob(c.compilerStep, i);
    SortKeepsMembers(i.dependencies);
    forall d | d in j.dependencies ensures d in KeysIn(KeysOf(p.jobs)) || d in c.existing {
      if d in KeySet(w.jobs) {
        var other :| other in w.jobs && other.key == d;
        NormalKey(other);
        assert Normalized(other) in p.jobs;
        var n :| 0 <= n < |p.jobs| && p.jobs[n] == Normalized(other);
        assert KeysOf(p.jobs)[n] == d;
      }
    }
  }

  lemma SortKeepsMembers(s: seq<string>)
    ensures forall d :: d in Ordering.Sort(s) <==> d in s
  {
    Ordering.SortSorts(s);
  }
}
