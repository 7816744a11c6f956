/** prepareReusableConcurrencyGates: the gates that the jobs of one workflow declare,
    with their members and the prerequisites lifted to the opening step. */
module GatePreparation {
  import opened Graphs
  import opened Pipelines

  datatype PreparedGate = PreparedGate(
    id: string, group: string, queue: string, cancelInProgress: bool,
    parentID: string, openKey: string, closeKey: string,
    members: seq<string>, prerequisites: seq<string>)

  // ----- declarations -----

  /** One job naming one of its enclosing scopes; parent is the scope around that one. */
  datatype Declaration = Declaration(job: string, queue: string, gate: ConcurrencyGate, parent: string)

  function Of(job: Job): (ds: seq<Declaration>)
    ensures |ds| == |job.gates|
  {
    seq(|job.gates|, p requires 0 <= p < |job.gates| =>
      Declaration(job.key, job.queue, job.gates[p], if p == 0 then "" else job.gates[p - 1].id))
  }

  function Declarations(jobs: seq<Job>): seq<Declaration> {
    if jobs == [] then [] else Declarations(jobs[..|jobs| - 1]) + Of(jobs[|jobs| - 1])
  }

  predicate ValidDeclaration(d: Declaration) {
    d.gate.id != "" && d.gate.group != "" && |d.gate.group| <= MAX_CONCURRENCY_GROUP_LENGTH
  }

  /** Two declarations of one scope agree on it and come from different jobs. */
  predicate Compatible(e: Declaration, d: Declaration) {
    e.gate.id == d.gate.id ==>
      e.job != d.job && e.gate.group == d.gate.group && e.parent == d.parent &&
      e.gate.cancelInProgress == d.gate.cancelInProgress
  }

  ghost predicate Consistent(ds: seq<Declaration>) {
    && (forall i :: 0 <= i < |ds| ==> ValidDeclaration(ds[i]))
    && (forall i, j :: 0 <= i < j < |ds| ==> Compatible(ds[i], ds[j]))
  }

  /** The jobs declaring a scope, in order. */
  function MemberKeys(ds: seq<Declaration>, id: string): seq<string> {
    if ds == [] then []
    else
      var last := ds[|ds| - 1];
      MemberKeys(ds[..|ds| - 1], id) + if last.gate.id == id then [last.job] else []
  }

  /** The queue of the first job that declares a scope. */
  function FirstQueue(ds: seq<Declaration>, id: string): string {
    if ds == [] then ""
    else
      var front, last := ds[..|ds| - 1], ds[|ds| - 1];
      if id in DeclaredIds(front) then FirstQueue(front, id)
      else if last.gate.id == id then last.queue
      else ""
  }

  function DeclaredIds(ds: seq<Declaration>): set<string> {
    set d | d in ds :: d.gate.id
  }

  /** The scopes in the order in which they are first declared. */
  function FirstDeclared(ds: seq<Declaration>): seq<string> {
    if ds == [] then []
    else
      var front, last := ds[..|ds| - 1], ds[|ds| - 1];
      FirstDeclared(front) + if last.gate.id in DeclaredIds(front) then [] else [last.gate.id]
  }

  // ----- collecting the gates -----

  predicate Agrees(gate: PreparedGate, d: Declaration) {
    gate.id == d.gate.id && gate.group == d.gate.group && gate.parentID == d.parent &&
    gate.cancelInProgress == d.gate.cancelInProgress
  }

  ghost predicate Indexed(gates: seq<PreparedGate>, indexes: map<string, nat>) {
    && (forall id :: id in indexes ==> indexes[id] < |gates| && gates[indexes[id]].id == id)
    && (forall x :: 0 <= x < |gates| ==> gates[x].id in indexes && indexes[gates[x].id] == x)
  }

  /** Every enclosing scope comes earlier in the list. */
  ghost predicate ParentsPrecede(gates: seq<PreparedGate>, indexes: map<string, nat>) {
    forall x :: 0 <= x < |gates| && gates[x].parentID != "" ==>
      gates[x].parentID in indexes && indexes[gates[x].parentID] < x
  }

  /** Each gate has all jobs that declare it, and the queue of the first of them. */
  ghost predicate Filled(ds: seq<Declaration>, gates: seq<PreparedGate>) {
    forall x :: 0 <= x < |gates| ==>
      gates[x].members == MemberKeys(ds, gates[x].id) && gates[x].queue == FirstQueue(ds, gates[x].id)
  }

  ghost predicate Collected(ds: seq<Declaration>, gates: seq<PreparedGate>, indexes: map<string, nat>) {
    && Indexed(gates, indexes)
    && ParentsPrecede(gates, indexes)
    && indexes.Keys == DeclaredIds(ds)
    && (forall i :: 0 <= i < |ds| ==> ds[i].gate.id in indexes && Agrees(gates[indexes[ds[i].gate.id]], ds[i]))
    && Filled(ds, gates)
    && |gates| == |FirstDeclared(ds)|
    && (forall x :: 0 <= x < |gates| ==> gates[x].id == FirstDeclared(ds)[x])
  }

  /** The job has already named the scope. */
  ghost predicate NamedBy(ds: seq<Declaration>, job: string, id: string) {
    exists i :: 0 <= i < |ds| && ds[i].job == job && ds[i].gate.id == id
  }

  /** Enters one declaration, or finds that it contradicts an earlier one. */
  method Declare(ghost done: seq<Declaration>, d: Declaration, seen: set<string>,
                 gates: seq<PreparedGate>, indexes: map<string, nat>)
    returns (ok: bool, gates': seq<PreparedGate>, indexes': map<string, nat>)
    requires Collected(done, gates, indexes)
    requires d.gate.id in seen <==> NamedBy(done, d.job, d.gate.id)
    requires d.parent != "" ==> d.parent in indexes
    ensures ok <==> ValidDeclaration(d) && forall i :: 0 <= i < |done| ==> Compatible(done[i], d)
    ensures ok ==> Collected(done + [d], gates', indexes')
  {
    gates', indexes' := gates, indexes;
    if d.gate.id == "" || d.gate.group == "" || |d.gate.group| > MAX_CONCURRENCY_GROUP_LENGTH {
      return false, gates, indexes;
    }
    if d.gate.id in seen {
      RepeatIsIncompatible(done, d);
      return false, gates, indexes;
    }
    if d.gate.id !in indexes {
      FreshDeclaration(done, d, gates, indexes);
      indexes' := indexes[d.gate.id := |gates|];
      gates' := gates + [PreparedGate(d.gate.id, d.gate.group, d.queue, d.gate.cancelInProgress,
                                      d.parent, "", "", [d.job], [])];
      return true, gates', indexes';
    }
    var index := indexes[d.gate.id];
    AgreementIsCompatibility(done, d, gates, indexes);
    if gates[index].group != d.gate.group || gates[index].parentID != d.parent ||
      gates[index].cancelInProgress != d.gate.cancelInProgress
    {
      return false, gates, indexes;
    }
    JoinGate(done, d, gates, indexes);
    gates' := gates[index := gates[index].(members := gates[index].members + [d.job])];
    ok := true;
  }

  lemma RepeatIsIncompatible(done: seq<Declaration>, d: Declaration)
    requires NamedBy(done, d.job, d.gate.id)
    ensures exists i :: 0 <= i < |done| && !Compatible(done[i], d)
  {
    var i :| 0 <= i < |done| && done[i].job == d.job && done[i].gate.id == d.gate.id;
    assert !Compatible(done[i], d);
  }

  lemma {:induction false} NoMembersYet(ds: seq<Declaration>, id: string)
    requires id !in DeclaredIds(ds)
    ensures MemberKeys(ds, id) == []
  {
    if ds != [] {
      assert ds[|ds| - 1] in ds;
      assert forall d :: d in ds[..|ds| - 1] ==> d in ds;
      NoMembersYet(ds[..|ds| - 1], id);
    }
  }

  lemma Append(done: seq<Declaration>, d: Declaration)
    ensures DeclaredIds(done + [d]) == DeclaredIds(done) + {d.gate.id}
    ensures FirstDeclared(done + [d]) == FirstDeclared(done) + if d.gate.id in DeclaredIds(done) then []
        else [d.gate.id]
  {
    var all := done + [d];
    assert all[..|all| - 1] == done;
  }

  lemma AppendMember(done: seq<Declaration>, d: Declaration, id: string)
    ensures MemberKeys(done + [d], id) == MemberKeys(done, id) + if d.gate.id == id then [d.job] else []
    ensures FirstQueue(done + [d], id) ==
              if id in DeclaredIds(done) then FirstQueue(done, id) else if d.gate.id == id then d.queue else ""
  {
    var all := done + [d];
    assert all[..|all| - 1] == done;
  }

  lemma FilledFresh(done: seq<Declaration>, d: Declaration, gates: seq<PreparedGate>, gate: PreparedGate)
    requires Filled(done, gates) && d.gate.id !in DeclaredIds(done)
    requires forall x :: 0 <= x < |gates| ==> gates[x].id in DeclaredIds(done)
    requires gate.id == d.gate.id && gate.members == [d.job] && gate.queue == d.queue
    ensures Filled(done + [d], gates + [gate])
  {
    hide DeclaredIds, MemberKeys, FirstQueue;
    NoMembersYet(done, d.gate.id);
    var all := gates + [gate];
    forall x | 0 <= x < |all|
      ensures all[x].members == MemberKeys(done + [d], all[x].id) && all[x].queue == FirstQueue(done + [d], all[x].id)
    {
      AppendMember(done, d, all[x].id);
    }
  }

  lemma FilledJoined(done: seq<Declaration>, d: Declaration, gates: seq<PreparedGate>, x: nat)
    requires Filled(done, gates) && x < |gates| && gates[x].id == d.gate.id
    requires forall z :: 0 <= z < |gates| ==> gates[z].id in DeclaredIds(done) && (gates[z].id == d.gate.id ==> z == x)
    ensures Filled(done + [d], gates[x := gates[x].(members := gates[x].members + [d.job])])
  {
    hide DeclaredIds, MemberKeys, FirstQueue;
    var joined := gates[x := gates[x].(members := gates[x].members + [d.job])];
    forall z | 0 <= z < |joined|
      ensures joined[z].members == MemberKeys(done + [d], joined[z].id)
      ensures joined[z].queue == FirstQueue(done + [d], joined[z].id)
    {
      AppendMember(done, d, gates[z].id);
    }
  }

  lemma FreshDeclaration(done: seq<Declaration>, d: Declaration, gates: seq<PreparedGate>, indexes: map<string, nat>)
    requires Collected(done, gates, indexes) && d.gate.id !in indexes
    requires d.parent != "" ==> d.parent in indexes
    ensures forall i :: 0 <= i < |done| ==> Compatible(done[i], d)
    ensures Collected(done + [d],
                      gates + [PreparedGate(d.gate.id, d.gate.group, d.queue, d.gate.cancelInProgress, d.parent, "",
                        "", [d.job], [])],
                      indexes[d.gate.id := |gates|])
  {
    hide DeclaredIds, Filled, FirstDeclared;
    Append(done, d);
    FilledFresh(done, d, gates,
                PreparedGate(d.gate.id, d.gate.group, d.queue, d.gate.cancelInProgress, d.parent, "", "", [d.job], []));
  }

  /** A known scope agrees with a declaration exactly when all its earlier declarations do. */
  lemma AgreementIsCompatibility(done: seq<Declaration>, d: Declaration, gates: seq<PreparedGate>,
                                 indexes: map<string, nat>)
    requires Collected(done, gates, indexes) && d.gate.id in indexes
    requires !NamedBy(done, d.job, d.gate.id)
    ensures Agrees(gates[indexes[d.gate.id]], d) <==> forall i :: 0 <= i < |done| ==> Compatible(done[i], d)
  {
    hide MemberKeys, FirstQueue, FirstDeclared;
    var e :| e in done && e.gate.id == d.gate.id;
    var i :| 0 <= i < |done| && done[i] == e;
    assert Compatible(done[i], d) <==> Agrees(gates[indexes[d.gate.id]], d);
    forall j | 0 <= j < |done| ensures Agrees(gates[indexes[d.gate.id]], d) ==> Compatible(done[j], d) {
      assert done[j] in done;
    }
  }

  lemma JoinGate(done: seq<Declaration>, d: Declaration, gates: seq<PreparedGate>, indexes: map<string, nat>)
    requires Collected(done, gates, indexes) && d.gate.id in indexes && Agrees(gates[indexes[d.gate.id]], d)
    ensures var x := indexes[d.gate.id];
            Collected(done + [d], gates[x := gates[x].(members := gates[x].members + [d.job])], indexes)
  {
    hide DeclaredIds, Filled, FirstDeclared;
    Append(done, d);
    var x := indexes[d.gate.id];
    FilledJoined(done, d, gates, x);
    var joined := gates[x := gates[x].(members := gates[x].members + [d.job])];
    assert indexes.Keys == DeclaredIds(done + [d]);
    assert Indexed(joined, indexes);
    assert ParentsPrecede(joined, indexes);
  }

  lemma ConsistentStep(done: seq<Declaration>, d: Declaration)
    ensures Consistent(done + [d]) <==>
              Consistent(done) && ValidDeclaration(d) && forall i :: 0 <= i < |done| ==> Compatible(done[i], d)
  {
    hide ValidDeclaration, Compatible;
    var all := done + [d];
    assert all[|done|] == d && forall i :: 0 <= i < |done| ==> all[i] == done[i];
  }

  lemma ConsistentPrefix(front: seq<Declaration>, rest: seq<Declaration>)
    requires Consistent(front + rest)
    ensures Consistent(front)
  {
    hide ValidDeclaration, Compatible;
    var all := front + rest;
    assert forall i :: 0 <= i < |front| ==> all[i] == front[i];
  }

  method CollectJob(ghost done: seq<Declaration>, job: Job, before: seq<PreparedGate>, known: map<string, nat>)
    returns (ok: bool, gates: seq<PreparedGate>, indexes: map<string, nat>)
    requires Collected(done, before, known) && Consistent(done)
    requires forall e :: e in done ==> e.job != job.key
    ensures ok <==> Consistent(done + Of(job))
    ensures ok ==> Collected(done + Of(job), gates, indexes)
  {
    hide ValidDeclaration, Compatible, Collected, Consistent, NamedBy, DeclaredIds, Of;
    gates, indexes := before, known;
    var seen := {};
    var parentID := "";
    ghost var all := done;
    StartOfJob(done, job);
    for p := 0 to |job.gates|
      invariant all == done + Of(job)[..p]
      invariant Collected(all, gates, indexes) && Consistent(all)
      invariant seen == DeclaredIds(Of(job)[..p])
      invariant parentID == if p == 0 then "" else job.gates[p - 1].id
    {
      var declared := job.gates[p];
      var d := Declaration(job.key, job.queue, declared, parentID);
      SeenHere(done, job, p, gates, indexes);
      ConsistentStep(all, d);
      var ok', gates', indexes' := Declare(all, d, seen, gates, indexes);
      NextOfJob(done, job, p, d);
      if !ok' {
        return false, gates, indexes;
      }
      gates, indexes := gates', indexes';
      seen := seen + {declared.id};
      parentID := declared.id;
      all := all + [d];
    }
    assert Of(job)[..|job.gates|] == Of(job);
    ok := true;
  }

  lemma StartOfJob(done: seq<Declaration>, job: Job)
    ensures done + Of(job)[..0] == done && DeclaredIds(Of(job)[..0]) == {}
  {
  }

  lemma NextOfJob(done: seq<Declaration>, job: Job, p: nat, d: Declaration)
    requires p < |job.gates| && d == Of(job)[p]
    ensures done + Of(job)[..p + 1] == done + Of(job)[..p] + [d]
    ensures DeclaredIds(Of(job)[..p + 1]) == DeclaredIds(Of(job)[..p]) + {d.gate.id}
    ensures Consistent(done + Of(job)) ==> Consistent(done + Of(job)[..p] + [d])
  {
    hide Consistent, Of, DeclaredIds;
    assert Of(job)[..p + 1] == Of(job)[..p] + [d];
    Append(Of(job)[..p], d);
    assert done + Of(job) == (done + Of(job)[..p] + [d]) + Of(job)[p + 1..];
    if Consistent(done + Of(job)) { ConsistentPrefix(done + Of(job)[..p] + [d], Of(job)[p + 1..]); }
  }

  /** The scopes this job has named so far, and the one it named last. */
  lemma SeenHere(done: seq<Declaration>, job: Job, p: nat, gates: seq<PreparedGate>, indexes: map<string, nat>)
    requires p < |job.gates| && Collected(done + Of(job)[..p], gates, indexes)
    requires forall e :: e in done ==> e.job != job.key
    ensures var d := Declaration(job.key, job.queue, job.gates[p], if p == 0 then "" else job.gates[p - 1].id);
            && d == Of(job)[p]
            && (d.gate.id in DeclaredIds(Of(job)[..p]) <==> NamedBy(done + Of(job)[..p], job.key, d.gate.id))
            && (d.parent != "" ==> d.parent in indexes)
  {
    hide Collected, DeclaredIds, NamedBy, Of;
    OfGate(job, p);
    NamedInPart(done, job.key, Of(job)[..p], job.gates[p].id, job);
    if p > 0 {
      OfGate(job, p - 1);
      assert (done + Of(job)[..p])[|done| + p - 1] == Of(job)[p - 1];
      LastIsIndexed(done + Of(job)[..p], gates, indexes);
    }
  }

  lemma LastIsIndexed(ds: seq<Declaration>, gates: seq<PreparedGate>, indexes: map<string, nat>)
    requires Collected(ds, gates, indexes) && ds != []
    ensures ds[|ds| - 1].gate.id in indexes
  {
    hide ParentsPrecede, Indexed, FirstDeclared, MemberKeys, FirstQueue, DeclaredIds;
  }

  lemma NamedInPart(done: seq<Declaration>, key: string, part: seq<Declaration>, id: string, job: Job)
    requires forall e :: e in done ==> e.job != key
    requires key == job.key && part <= Of(job)
    ensures id in DeclaredIds(part) <==> NamedBy(done + part, key, id)
  {
    var all := done + part;
    assert forall q :: 0 <= q < |part| ==> part[q] == Of(job)[q] && part[q].job == key;
    if id in DeclaredIds(part) {
      var d :| d in part && d.gate.id == id;
      var q :| 0 <= q < |part| && part[q] == d;
      assert all[|done| + q] == part[q];
    }
    if NamedBy(all, key, id) {
      var i :| 0 <= i < |all| && all[i].job == key && all[i].gate.id == id;
      assert all[i] in part;
    }
  }

  method CollectGates(jobs: seq<Job>) returns (ok: bool, gates: seq<PreparedGate>, indexes: map<string, nat>)
    requires DistinctKeys(jobs)
    ensures ok <==> Consistent(Declarations(jobs))
    ensures ok ==> Collected(Declarations(jobs), gates, indexes)
  {
    hide Consistent;
    gates, indexes := [], map[];
    NothingCollected();
    assert jobs[..0] == [];
    for n := 0 to |jobs|
      invariant Consistent(Declarations(jobs[..n]))
      invariant Collected(Declarations(jobs[..n]), gates, indexes)
    {
      DeclaredByEarlier(jobs, n);
      var ok', gates', indexes' := CollectJob(Declarations(jobs[..n]), jobs[n], gates, indexes);
      if !ok' {
        if Consistent(Declarations(jobs)) { DeclarationsPrefix(jobs, n + 1); }
        return false, gates, indexes;
      }
      gates, indexes := gates', indexes';
    }
    assert jobs[..|jobs|] == jobs;
    ok := true;
  }

  lemma NothingCollected()
    ensures Consistent([]) && Collected([], [], map[]) && DeclaredIds([]) == {}
  {
  }

  lemma DeclaredByEarlier(jobs: seq<Job>, n: nat)
    requires n < |jobs| && DistinctKeys(jobs)
    ensures Declarations(jobs[..n + 1]) == Declarations(jobs[..n]) + Of(jobs[n])
    ensures forall e :: e in Declarations(jobs[..n]) ==> e.job != jobs[n].key
  {
    assert jobs[..n + 1][..n] == jobs[..n];
    forall e | e in Declarations(jobs[..n]) ensures e.job != jobs[n].key {
      var j, p := DeclaredBy(jobs[..n], e);
    }
  }

  /** Each declaration is one place in the gate list of one job. */
  lemma {:induction false} DeclaredBy(jobs: seq<Job>, e: Declaration) returns (j: nat, p: nat)
    requires e in Declarations(jobs)
    ensures j < |jobs| && p < |jobs[j].gates| && e == Of(jobs[j])[p]
  {
    var last := |jobs| - 1;
    if e in Of(jobs[last]) {
      j := last;
      p :| 0 <= p < |Of(jobs[j])| && Of(jobs[j])[p] == e;
    } else {
      j, p := DeclaredBy(jobs[..last], e);
    }
  }

  lemma {:induction false} DeclarationsPrefix(jobs: seq<Job>, n: nat)
    requires n <= |jobs| && Consistent(Declarations(jobs))
    ensures Consistent(Declarations(jobs[..n]))
  {
    hide Consistent;
    if n == |jobs| {
      assert jobs[..n] == jobs;
    } else {
      var front := jobs[..|jobs| - 1];
      ConsistentPrefix(Declarations(front), Of(jobs[|jobs| - 1]));
      DeclarationsPrefix(front, n);
      assert front[..n] == jobs[..n];
    }
  }

  // ----- enclosing scopes -----

  /** The groups of the scopes around a gate, innermost first. */
  ghost function AncestorGroups(gates: seq<PreparedGate>, indexes: map<string, nat>, x: nat): set<string>
    requires Indexed(gates, indexes) && ParentsPrecede(gates, indexes) && x < |gates|
    decreases x
  {
    if gates[x].parentID == "" then {}
    else
      var y := indexes[gates[x].parentID];
      {gates[y].group} + AncestorGroups(gates, indexes, y)
  }

  method CheckAncestors(gates: seq<PreparedGate>, indexes: map<string, nat>) returns (ok: bool)
    requires Indexed(gates, indexes) && ParentsPrecede(gates, indexes)
    ensures ok <==> forall x :: 0 <= x < |gates| ==> gates[x].group !in AncestorGroups(gates, indexes, x)
  {
    for x := 0 to |gates|
      invariant forall z :: 0 <= z < x ==> gates[z].group !in AncestorGroups(gates, indexes, z)
    {
      var parentID := gates[x].parentID;
      while parentID != ""
        invariant parentID != "" ==> parentID in indexes && indexes[parentID] < x
        invariant gates[x].group in AncestorGroups(gates, indexes, x) <==>
                    parentID != "" &&
                    gates[x].group in {gates[indexes[parentID]].group} +
                      AncestorGroups(gates, indexes, indexes[parentID])
        decreases if parentID == "" then 0 else indexes[parentID] + 1
      {
        var parent := gates[indexes[parentID]];
        if parent.group == gates[x].group {
          return false;
        }
        parentID := parent.parentID;
      }
    }
    return true;
  }

  /** No job is inside two scopes of one concurrency group. */
  ghost predicate NestedGroupsDiffer(jobs: seq<Job>) {
    forall j, p, q :: 0 <= j < |jobs| && 0 <= p < q < |jobs[j].gates| ==>
        jobs[j].gates[p].group != jobs[j].gates[q].group
  }

  lemma {:induction false} DeclarationOf(jobs: seq<Job>, j: nat, p: nat)
    requires j < |jobs| && p < |jobs[j].gates|
    ensures Of(jobs[j])[p] in Declarations(jobs)
  {
    var last := |jobs| - 1;
    if j == last {
      assert Of(jobs[j])[p] in Of(jobs[last]);
    } else {
      DeclarationOf(jobs[..last], j, p);
    }
  }

  /** What the gate list says about the scope a job names at place p. */
  lemma GateOf(jobs: seq<Job>, gates: seq<PreparedGate>, indexes: map<string, nat>, j: nat, p: nat)
    requires Collected(Declarations(jobs), gates, indexes) && j < |jobs| && p < |jobs[j].gates|
    ensures jobs[j].gates[p].id in indexes
    ensures Agrees(gates[indexes[jobs[j].gates[p].id]], Of(jobs[j])[p])
  {
    hide MemberKeys, FirstQueue, FirstDeclared, Of;
    DeclarationOf(jobs, j, p);
    var ds := Declarations(jobs);
    var i :| 0 <= i < |ds| && ds[i] == Of(jobs[j])[p];
    OfGate(jobs[j], p);
  }

  lemma OfGate(job: Job, p: nat)
    requires p < |job.gates|
    ensures Of(job)[p] == Declaration(job.key, job.queue, job.gates[p], if p == 0 then "" else job.gates[p - 1].id)
  {
  }

  /** The scopes around a gate are those its member jobs name before it. */
  lemma {:induction false} AncestorsOf(jobs: seq<Job>, gates: seq<PreparedGate>, indexes: map<string, nat>, j: nat,
                                       p: nat)
    requires Collected(Declarations(jobs), gates, indexes) && Consistent(Declarations(jobs))
    requires j < |jobs| && p < |jobs[j].gates|
    ensures jobs[j].gates[p].id in indexes
    ensures AncestorGroups(gates, indexes, indexes[jobs[j].gates[p].id]) ==
            set q | 0 <= q < p :: jobs[j].gates[q].group
  {
    hide Collected, Consistent, Indexed, ParentsPrecede, Declarations, Of;
    GateOf(jobs, gates, indexes, j, p);
    CollectedParts(Declarations(jobs), gates, indexes);
    OfGate(jobs[j], p);
    if p > 0 {
      AncestorsOf(jobs, gates, indexes, j, p - 1);
      GateOf(jobs, gates, indexes, j, p - 1);
      OfGate(jobs[j], p - 1);
      DeclarationOf(jobs, j, p - 1);
      NamedScopesAreNotEmpty(Declarations(jobs), Of(jobs[j])[p - 1]);
      assert (set q | 0 <= q < p :: jobs[j].gates[q].group) ==
             (set q | 0 <= q < p - 1 :: jobs[j].gates[q].group) + {jobs[j].gates[p - 1].group};
    }
  }

  lemma CollectedParts(ds: seq<Declaration>, gates: seq<PreparedGate>, indexes: map<string, nat>)
    requires Collected(ds, gates, indexes)
    ensures Indexed(gates, indexes) && ParentsPrecede(gates, indexes)
  {
  }

  lemma NamedScopesAreNotEmpty(ds: seq<Declaration>, d: Declaration)
    requires Consistent(ds) && d in ds
    ensures ValidDeclaration(d)
  {
    hide ValidDeclaration, Compatible;
    var i :| 0 <= i < |ds| && ds[i] == d;
  }

  /** The ancestor walk accepts exactly the jobs whose enclosing scopes all use different groups. */
  lemma AncestorVerdict(jobs: seq<Job>, gates: seq<PreparedGate>, indexes: map<string, nat>)
    requires Collected(Declarations(jobs), gates, indexes) && Consistent(Declarations(jobs))
    ensures Indexed(gates, indexes) && ParentsPrecede(gates, indexes)
    ensures NestedGroupsDiffer(jobs) <==>
              forall x :: 0 <= x < |gates| ==> gates[x].group !in AncestorGroups(gates, indexes, x)
  {
    hide Consistent, FirstDeclared, MemberKeys, FirstQueue, AncestorGroups;
    if forall x :: 0 <= x < |gates| ==> gates[x].group !in AncestorGroups(gates, indexes, x) {
      forall j, p, q | 0 <= j < |jobs| && 0 <= p < q < |jobs[j].gates|
        ensures jobs[j].gates[p].group != jobs[j].gates[q].group
      {
        AncestorsOf(jobs, gates, indexes, j, q);
        GateOf(jobs, gates, indexes, j, q);
      }
    }
    if NestedGroupsDiffer(jobs) {
      forall x | 0 <= x < |gates| ensures gates[x].group !in AncestorGroups(gates, indexes, x) {
        var d :| d in Declarations(jobs) && d.gate.id == gates[x].id;
        var j, p := DeclaredBy(jobs, d);
        AncestorsOf(jobs, gates, indexes, j, p);
        GateOf(jobs, gates, indexes, j, p);
      }
    }
  }

  // ----- prerequisites -----

  ghost predicate Files(jobs: seq<Job>, byKey: map<string, Job>) {
    byKey.Keys == KeySet(jobs) && forall i :: 0 <= i < |jobs| ==> jobs[i].key in byKey && byKey[jobs[i].key] == jobs[i]
  }

  function NeedsIn(byKey: map<string, Job>): Graph {
    map k | k in byKey :: byKey[k].dependencies
  }

  predicate HoldsGroup(job: Job, group: string) {
    job.concurrency > 0 && job.concurrencyGroup == group
  }

  /** The job queues in the group, by itself or through a scope around it. */
  predicate UsesGroup(job: Job, group: string) {
    HoldsGroup(job, group) || exists p :: 0 <= p < |job.gates| && job.gates[p].group == group
  }

  /** A member needs d. */
  ghost predicate NeededByMember(g: Graph, members: seq<string>, d: string) {
    exists i :: 0 <= i < |members| && d in Successors(g, members[i])
  }

  /** Exactly the outside needs of the members, once each. */
  ghost predicate Lifts(g: Graph, members: seq<string>, prerequisites: seq<string>) {
    && prerequisites == Lifted(g, members, |members|)
    && Distinct(prerequisites)
    && forall d :: d in prerequisites <==> d !in members && NeededByMember(g, members, d)
  }

  /** The outside needs of the first n members, in the order in which they are met. */
  function Lifted(g: Graph, members: seq<string>, n: nat): seq<string>
    requires n <= |members|
  {
    if n == 0 then [] else Joined(Lifted(g, members, n - 1), members, Successors(g, members[n - 1]))
  }

  function Joined(lifted: seq<string>, members: seq<string>, needs: seq<string>): seq<string> {
    if needs == [] then lifted
    else
      var front, last := Joined(lifted, members, needs[..|needs| - 1]), needs[|needs| - 1];
      if last !in members && last !in front then front + [last] else front
  }

  /** Something the prerequisites need, however indirectly, queues in the group. */
  ghost predicate ClosureUsesGroup(byKey: map<string, Job>, start: seq<string>, group: string) {
    exists p, k :: p in start && k in byKey && Reaches(NeedsIn(byKey), p, k) && UsesGroup(byKey[k], group)
  }

  method FileJobs(jobs: seq<Job>) returns (byKey: map<string, Job>)
    requires DistinctKeys(jobs)
    ensures Files(jobs, byKey)
  {
    byKey := map[];
    for i := 0 to |jobs|
      invariant byKey.Keys == set k | 0 <= k < i :: jobs[k].key
      invariant forall k :: 0 <= k < i ==> jobs[k].key in byKey && byKey[jobs[k].key] == jobs[k]
    {
      byKey := byKey[jobs[i].key := jobs[i]];
    }
    forall k ensures k in KeySet(jobs) <==> k in byKey {
      if k in KeySet(jobs) {
        var j :| j in jobs && j.key == k;
        var i :| 0 <= i < |jobs| && jobs[i] == j;
      }
    }
  }

  method LiftPrerequisites(byKey: map<string, Job>, members: seq<string>) returns (prerequisites: seq<string>)
    ensures Lifts(NeedsIn(byKey), members, prerequisites)
  {
    hide Distinct, NeededByMember;
    ghost var g := NeedsIn(byKey);
    prerequisites := [];
    for i := 0 to |members|
      invariant prerequisites == Lifted(g, members, i)
    {
      var needs := if members[i] in byKey then byKey[members[i]].dependencies else [];
      assert needs == Successors(g, members[i]);
      ghost var before := prerequisites;
      for n := 0 to |needs|
        invariant prerequisites == Joined(before, members, needs[..n])
      {
        assert needs[..n + 1][..n] == needs[..n];
        if needs[n] !in members && needs[n] !in prerequisites {
          prerequisites := prerequisites + [needs[n]];
        }
      }
      assert needs[..|needs|] == needs;
    }
    LiftedExactly(g, members, |members|);
    assert members[..|members|] == members;
  }

  lemma {:induction false} JoinedExactly(lifted: seq<string>, members: seq<string>, needs: seq<string>)
    requires Distinct(lifted)
    ensures Distinct(Joined(lifted, members, needs))
    ensures forall d :: d in Joined(lifted, members, needs) <==> d in lifted || (d in needs && d !in members)
  {
    if needs != [] {
      JoinedExactly(lifted, members, needs[..|needs| - 1]);
      assert needs == needs[..|needs| - 1] + [needs[|needs| - 1]];
    }
  }

  lemma {:induction false} LiftedExactly(g: Graph, members: seq<string>, n: nat)
    requires n <= |members|
    ensures Distinct(Lifted(g, members, n))
    ensures forall d :: d in Lifted(g, members, n) <==> d !in members && NeededByMember(g, members[..n], d)
  {
    if n > 0 {
      LiftedExactly(g, members, n - 1);
      JoinedExactly(Lifted(g, members, n - 1), members, Successors(g, members[n - 1]));
      NeededByOneMore(g, members, n - 1);
    }
  }

  lemma NeededByOneMore(g: Graph, members: seq<string>, n: nat)
    requires n < |members|
    ensures forall d :: NeededByMember(g, members[..n + 1], d) <==>
              NeededByMember(g, members[..n], d) || d in Successors(g, members[n])
  {
    hide Successors;
    forall d
      ensures NeededByMember(g, members[..n + 1], d) <==>
          NeededByMember(g, members[..n], d) || d in Successors(g, members[n])
    {
      if d in Successors(g, members[n]) { assert members[..n + 1][n] == members[n]; }
      if NeededByMember(g, members[..n], d) {
        var i :| 0 <= i < n && d in Successors(g, members[..n][i]);
        assert members[..n + 1][i] == members[..n][i];
      }
      if NeededByMember(g, members[..n + 1], d) {
        var i :| 0 <= i < n + 1 && d in Successors(g, members[..n + 1][i]);
        if i < n { assert members[..n][i] == members[..n + 1][i]; }
      }
    }
  }

  /** The search so far: what was seen is free of the group, and what it needs is seen or pending. */
  ghost predicate Searching(byKey: map<string, Job>, start: seq<string>, group: string, seen: set<string>,
                            pending: seq<string>) {
    && (forall k :: k in pending ==> ReachedFrom(NeedsIn(byKey), start, k))
    && (forall p :: p in start ==> p in seen || p in pending)
    && (forall k, d :: k in seen && d in Successors(NeedsIn(byKey), k) ==> d in seen || d in pending)
    && (forall k :: k in seen && k in byKey ==> !UsesGroup(byKey[k], group))
  }

  /** Walks all that the prerequisites need, breadth first, looking for the group. */
  method SearchClosure(byKey: map<string, Job>, start: seq<string>, group: string) returns (conflict: bool)
    ensures conflict <==> ClosureUsesGroup(byKey, start, group)
  {
    hide Searching, ReachedFrom, UsesGroup, ClosureUsesGroup, Successors;
    ghost var all := Nodes(byKey, start);
    var pending := start;
    var seen := {};
    SearchStarts(byKey, start, group);
    while |pending| > 0
      invariant (forall k :: k in pending ==> k in all) && seen <= all
      invariant Searching(byKey, start, group, seen, pending)
      decreases |all - seen|, |pending|
    {
      var key := pending[0];
      assert pending == [key] + pending[1..];
      pending := pending[1..];
      if key in seen {
        SearchSkips(byKey, start, group, seen, key, pending);
      } else {
        assert key in all - seen;
        assert all - (seen + {key}) == all - seen - {key};
        if key in byKey {
          var conflicts := JobConflicts(byKey[key], group);
          ConflictFound(byKey, start, group, seen, key, pending);
          if conflicts {
            return true;
          }
        }
        var needs := if key in byKey then byKey[key].dependencies else [];
        NeedsOf(byKey, key);
        SearchGoesOn(byKey, start, group, seen, key, pending, needs);
        seen := seen + {key};
        pending := pending + needs;
      }
    }
    assert pending == [];
    SearchEnds(byKey, start, group, seen);
    return false;
  }

  ghost function Nodes(byKey: map<string, Job>, start: seq<string>): (all: set<string>)
    ensures forall p :: p in start ==> p in all
    ensures forall k, d :: k in byKey && d in byKey[k].dependencies ==> d in all
  {
    (set p | p in start) + (set k, d | k in byKey && d in byKey[k].dependencies :: d)
  }

  lemma NeedsOf(byKey: map<string, Job>, key: string)
    ensures Successors(NeedsIn(byKey), key) == if key in byKey then byKey[key].dependencies else []
  {
  }

  lemma SearchStarts(byKey: map<string, Job>, start: seq<string>, group: string)
    ensures Searching(byKey, start, group, {}, start)
  {
    hide ReachedFrom, UsesGroup;
    StartReaches(NeedsIn(byKey), start);
  }

  lemma SearchSkips(byKey: map<string, Job>, start: seq<string>, group: string, seen: set<string>, key: string,
                    rest: seq<string>)
    requires Searching(byKey, start, group, seen, [key] + rest) && key in seen
    ensures Searching(byKey, start, group, seen, rest)
  {
    hide ReachedFrom, UsesGroup, Successors;
    InFront(key, rest);
  }

  lemma InFront(key: string, rest: seq<string>)
    ensures forall k :: k in [key] + rest <==> k == key || k in rest
  {
  }

  lemma ConflictFound(byKey: map<string, Job>, start: seq<string>, group: string, seen: set<string>, key: string,
                      rest: seq<string>)
    requires Searching(byKey, start, group, seen, [key] + rest) && key in byKey
    ensures UsesGroup(byKey[key], group) ==> ClosureUsesGroup(byKey, start, group)
  {
    hide UsesGroup, Successors, Reaches;
    assert key in [key] + rest;
  }

  lemma SearchGoesOn(byKey: map<string, Job>, start: seq<string>, group: string, seen: set<string>, key: string,
                     rest: seq<string>, needs: seq<string>)
    requires Searching(byKey, start, group, seen, [key] + rest)
    requires needs == Successors(NeedsIn(byKey), key)
    requires key in byKey ==> !UsesGroup(byKey[key], group)
    ensures Searching(byKey, start, group, seen + {key}, rest + needs)
  {
    hide ReachedFrom, UsesGroup, Successors;
    InFront(key, rest);
    assert key in [key] + rest;
    ReachedNext(NeedsIn(byKey), start, key);
    assert forall k :: k in rest + needs <==> k in rest || k in needs;
  }

  lemma SearchEnds(byKey: map<string, Job>, start: seq<string>, group: string, seen: set<string>)
    requires Searching(byKey, start, group, seen, [])
    ensures !ClosureUsesGroup(byKey, start, group)
  {
    hide ReachedFrom, UsesGroup;
    ClosedIsAll(NeedsIn(byKey), byKey, start, seen, group);
  }

  ghost predicate ReachedFrom(g: Graph, start: seq<string>, k: string) {
    exists p :: p in start && Reaches(g, p, k)
  }

  lemma StartReaches(g: Graph, start: seq<string>)
    ensures forall p :: p in start ==> ReachedFrom(g, start, p)
  {
    forall p | p in start ensures ReachedFrom(g, start, p) {
      ReachesSelf(g, p);
    }
  }

  lemma ReachedNext(g: Graph, start: seq<string>, key: string)
    requires ReachedFrom(g, start, key)
    ensures forall d :: d in Successors(g, key) ==> ReachedFrom(g, start, d)
  {
    var p :| p in start && Reaches(g, p, key);
    forall d | d in Successors(g, key) ensures ReachedFrom(g, start, d) {
      ReachesStep(g, p, key, d);
    }
  }

  lemma ClosedIsAll(g: Graph, byKey: map<string, Job>, start: seq<string>, seen: set<string>, group: string)
    requires g == NeedsIn(byKey) && forall p :: p in start ==> p in seen
    requires forall k, d :: k in seen && d in Successors(g, k) ==> d in seen
    requires forall k :: k in seen && k in byKey ==> !UsesGroup(byKey[k], group)
    ensures !ClosureUsesGroup(byKey, start, group)
  {
    if ClosureUsesGroup(byKey, start, group) {
      var p, k :| p in start && k in byKey && Reaches(g, p, k) && UsesGroup(byKey[k], group);
      var path :| PathFromTo(g, path, p, k);
      ClosedSetHoldsPath(g, seen, path);
      assert false;
    }
  }

  method JobConflicts(job: Job, group: string) returns (conflicts: bool)
    ensures conflicts <==> UsesGroup(job, group)
  {
    if job.concurrency > 0 && job.concurrencyGroup == group {
      return true;
    }
    for p := 0 to |job.gates|
      invariant forall q :: 0 <= q < p ==> job.gates[q].group != group
    {
      if job.gates[p].group == group {
        return true;
      }
    }
    return false;
  }

  // ----- the whole preparation -----

  /** A scope may be gated: no member holds its group itself, and nothing its
      outside needs wait for queues in it. */
  ghost predicate GroupIsFree(byKey: map<string, Job>, members: seq<string>, group: string) {
    && (forall m :: m in members && m in byKey ==> !HoldsGroup(byKey[m], group))
    && (forall p, k :: (p !in members && NeededByMember(NeedsIn(byKey), members, p) && k in byKey &&
      Reaches(NeedsIn(byKey), p, k)) ==>
          !UsesGroup(byKey[k], group))
  }

  ghost predicate Gateable(jobs: seq<Job>, byKey: map<string, Job>) {
    var ds := Declarations(jobs);
    && Consistent(ds)
    && NestedGroupsDiffer(jobs)
    && forall d :: d in ds ==> GroupIsFree(byKey, MemberKeys(ds, d.gate.id), d.gate.group)
  }

  ghost predicate Prepared(jobs: seq<Job>, byKey: map<string, Job>, gates: seq<PreparedGate>,
                           indexes: map<string, nat>) {
    && Collected(Declarations(jobs), gates, indexes)
    && forall x :: 0 <= x < |gates| ==> Lifts(NeedsIn(byKey), gates[x].members, gates[x].prerequisites)
  }

  lemma FilesOnce(jobs: seq<Job>, a: map<string, Job>, b: map<string, Job>)
    requires Files(jobs, a) && Files(jobs, b)
    ensures a == b
  {
    forall k | k in a ensures k in b && a[k] == b[k] {
      var j :| j in jobs && j.key == k;
      var i :| 0 <= i < |jobs| && jobs[i] == j;
    }
  }

  /** The filing that PrepareGates makes is the only one, so its verdict depends on the jobs alone. */
  lemma GateableByAny(jobs: seq<Job>, byKey: map<string, Job>)
    requires Files(jobs, byKey)
    ensures Gateable(jobs, byKey) <==> exists filed :: Files(jobs, filed) && Gateable(jobs, filed)
  {
    hide Files, Gateable;
    forall filed | Files(jobs, filed) ensures filed == byKey {
      FilesOnce(jobs, filed, byKey);
    }
  }

  /** Prepares the gates of one workflow, or rejects its jobs; the verdict is exact. */
  method PrepareGates(jobs: seq<Job>) returns (r: Result<seq<PreparedGate>>, ghost byKey: map<string, Job>,
                      ghost indexes: map<string, nat>)
    requires DistinctKeys(jobs)
    ensures Files(jobs, byKey)
    ensures r.Ok? <==> Gateable(jobs, byKey)
    ensures r.Ok? <==> exists filed :: Files(jobs, filed) && Gateable(jobs, filed)
    ensures r.Ok? ==> Prepared(jobs, byKey, r.value, indexes)
  {
    hide Consistent, Collected, NestedGroupsDiffer, GroupIsFree, Lifts, Files, MemberKeys, FirstQueue;
    var jobsByKey := FileJobs(jobs);
    byKey, indexes := jobsByKey, map[];
    GateableByAny(jobs, byKey);
    var ok, gates, index := CollectGates(jobs);
    if !ok {
      return Err("inconsistent gate"), byKey, indexes;
    }
    AncestorVerdict(jobs, gates, index);
    ok := CheckAncestors(gates, index);
    if !ok {
      return Err("gate shares group with enclosing gate"), byKey, indexes;
    }
    ghost var collected := gates;
    for x := 0 to |gates|
      invariant |gates| == |collected|
      invariant forall z :: 0 <= z < |gates| ==> gates[z].(prerequisites := collected[z].prerequisites) == collected[z]
      invariant forall z :: 0 <= z < x ==> GroupIsFree(byKey, gates[z].members, gates[z].group)
      invariant forall z :: 0 <= z < x ==> Lifts(NeedsIn(byKey), gates[z].members, gates[z].prerequisites)
    {
      var free, prerequisites := CheckGate(jobsByKey, gates[x]);
      if !free {
        GateVerdict(jobs, byKey, collected, index, x);
        return Err("gate shares group with a member or a prerequisite"), byKey, indexes;
      }
      gates := gates[x := gates[x].(prerequisites := prerequisites)];
    }
    AllGatesFree(jobs, byKey, collected, index);
    StillCollected(Declarations(jobs), collected, gates, index);
    return Ok(gates), byKey, index;
  }

  method CheckGate(byKey: map<string, Job>, gate: PreparedGate) returns (ok: bool, prerequisites: seq<string>)
    ensures ok <==> GroupIsFree(byKey, gate.members, gate.group)
    ensures ok ==> Lifts(NeedsIn(byKey), gate.members, prerequisites)
  {
    prerequisites := [];
    for i := 0 to |gate.members|
      invariant forall k :: 0 <= k < i && gate.members[k] in byKey ==> !HoldsGroup(byKey[gate.members[k]], gate.group)
    {
      if gate.members[i] in byKey && HoldsGroup(byKey[gate.members[i]], gate.group) {
        assert gate.members[i] in gate.members;
        return false, prerequisites;
      }
    }
    prerequisites := LiftPrerequisites(byKey, gate.members);
    var conflict := SearchClosure(byKey, prerequisites, gate.group);
    ok := !conflict;
  }

  lemma GateVerdict(jobs: seq<Job>, byKey: map<string, Job>, gates: seq<PreparedGate>, indexes: map<string, nat>,
                    x: nat)
    requires Collected(Declarations(jobs), gates, indexes) && x < |gates|
    requires !GroupIsFree(byKey, gates[x].members, gates[x].group)
    ensures !Gateable(jobs, byKey)
  {
    hide GroupIsFree, Consistent, MemberKeys, FirstQueue, FirstDeclared;
    var ds := Declarations(jobs);
    var d :| d in ds && d.gate.id == gates[x].id;
    var i :| 0 <= i < |ds| && ds[i] == d;
    assert Agrees(gates[indexes[ds[i].gate.id]], ds[i]);
  }

  lemma AllGatesFree(jobs: seq<Job>, byKey: map<string, Job>, gates: seq<PreparedGate>, indexes: map<string, nat>)
    requires Collected(Declarations(jobs), gates, indexes) && Consistent(Declarations(jobs)) && NestedGroupsDiffer(jobs)
    requires forall x :: 0 <= x < |gates| ==> GroupIsFree(byKey, gates[x].members, gates[x].group)
    ensures Gateable(jobs, byKey)
  {
    hide GroupIsFree, Consistent, MemberKeys, FirstQueue, FirstDeclared, NestedGroupsDiffer;
    var ds := Declarations(jobs);
    forall d | d in ds ensures GroupIsFree(byKey, MemberKeys(ds, d.gate.id), d.gate.group) {
      var i :| 0 <= i < |ds| && ds[i] == d;
      assert Agrees(gates[indexes[ds[i].gate.id]], ds[i]);
    }
  }

  lemma StillCollected(ds: seq<Declaration>, before: seq<PreparedGate>, after: seq<PreparedGate>,
                       indexes: map<string, nat>)
    requires Collected(ds, before, indexes) && |after| == |before|
    requires forall z :: 0 <= z < |after| ==> after[z].(prerequisites := before[z].prerequisites) == before[z]
    ensures Collected(ds, after, indexes)
  {
    hide MemberKeys, FirstQueue, FirstDeclared, DeclaredIds;
  }

  // ----- what a prepared gate is good for -----

  lemma {:induction false} MemberDeclares(ds: seq<Declaration>, id: string, m: string)
    requires m in MemberKeys(ds, id)
    ensures exists d :: d in ds && d.job == m && d.gate.id == id
  {
    var front, last := ds[..|ds| - 1], ds[|ds| - 1];
    assert ds == front + [last];
    if last.gate.id != id || m != last.job {
      MemberDeclares(front, id, m);
      var d :| d in front && d.job == m && d.gate.id == id;
      assert d in ds;
    } else {
      assert last in ds;
    }
  }

  lemma {:induction false} DeclarerIsMember(ds: seq<Declaration>, d: Declaration)
    requires d in ds
    ensures d.job in MemberKeys(ds, d.gate.id)
  {
    var front, last := ds[..|ds| - 1], ds[|ds| - 1];
    assert ds == front + [last];
    if d == last {
      assert last.job in MemberKeys(front, d.gate.id) + [last.job];
    } else {
      DeclarerIsMember(front, d);
    }
  }

  /** The scope around a gate has all the gate's members. */
  lemma ChildMembersInParent(jobs: seq<Job>, gates: seq<PreparedGate>, indexes: map<string, nat>, x: nat)
    requires Collected(Declarations(jobs), gates, indexes) && x < |gates| && gates[x].parentID != ""
    ensures gates[x].parentID in indexes && indexes[gates[x].parentID] < x
    ensures forall m :: m in gates[x].members ==> m in gates[indexes[gates[x].parentID]].members
  {
    hide FirstDeclared, MemberKeys, FirstQueue, Of;
    var ds := Declarations(jobs);
    forall m | m in gates[x].members ensures m in gates[indexes[gates[x].parentID]].members {
      MemberDeclares(ds, gates[x].id, m);
      var d :| d in ds && d.job == m && d.gate.id == gates[x].id;
      var j, p := DeclaredBy(jobs, d);
      GateOf(jobs, gates, indexes, j, p);
      OfGate(jobs[j], p);
      OfGate(jobs[j], p - 1);
      DeclarationOf(jobs, j, p - 1);
      DeclarerIsMember(ds, Of(jobs[j])[p - 1]);
    }
  }

  /** Nothing that a lifted prerequisite needs, however indirectly, is a member of its gate: lifting
      cannot make a scope wait for itself. */
  lemma ClosureAvoidsMembers(jobs: seq<Job>, byKey: map<string, Job>, gates: seq<PreparedGate>,
                             indexes: map<string, nat>, x: nat, p: string, k: string)
    requires Files(jobs, byKey) && Gateable(jobs, byKey) && Prepared(jobs, byKey, gates, indexes)
    requires x < |gates| && p in gates[x].prerequisites && Reaches(NeedsIn(byKey), p, k)
    ensures k !in gates[x].members
  {
    hide FirstDeclared, NestedGroupsDiffer, Reaches, NeedsIn, NeededByMember, Distinct, MemberKeys, FirstQueue;
    var ds := Declarations(jobs);
    assert gates[x].id in DeclaredIds(ds);
    var d :| d in ds && d.gate.id == gates[x].id;
    var i :| 0 <= i < |ds| && ds[i] == d;
    assert Agrees(gates[indexes[ds[i].gate.id]], ds[i]);
    assert GroupIsFree(byKey, gates[x].members, gates[x].group);
    assert Lifts(NeedsIn(byKey), gates[x].members, gates[x].prerequisites);
    if k in gates[x].members {
      MemberUsesGroup(jobs, byKey, gates, indexes, x, k);
    }
  }

  lemma MemberUsesGroup(jobs: seq<Job>, byKey: map<string, Job>, gates: seq<PreparedGate>, indexes: map<string, nat>,
                        x: nat, k: string)
    requires Files(jobs, byKey) && Collected(Declarations(jobs), gates, indexes) && x < |gates| && k in gates[x].members
    ensures k in byKey && UsesGroup(byKey[k], gates[x].group)
  {
    hide FirstDeclared, MemberKeys, FirstQueue, Of, DeclaredIds;
    var ds := Declarations(jobs);
    MemberDeclares(ds, gates[x].id, k);
    var d :| d in ds && d.job == k && d.gate.id == gates[x].id;
    var j, p := DeclaredBy(jobs, d);
    GateOf(jobs, gates, indexes, j, p);
    OfGate(jobs[j], p);
    assert jobs[j].gates[p].group == gates[x].group;
  }
}
