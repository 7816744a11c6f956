/** Which jobs still run when some could not be planned: failedDependencyClosure and its users. */
module FailureClosure {
  import opened Pipelines
  import opened Claims

  datatype Instance = Instance(key: string, needs: seq<string>)

  // ----- the closure -----

  ghost predicate Closed(jobs: seq<Instance>, failed: set<string>) {
    forall i, d :: 0 <= i < |jobs| && d in jobs[i].needs && d in failed ==> jobs[i].key in failed
  }

  /** Contains the start, and nothing that every closed superset does not contain. */
  ghost predicate LeastClosed(jobs: seq<Instance>, start: set<string>, failed: set<string>) {
    && start <= failed && Closed(jobs, failed)
    && forall other: set<string> :: start <= other && Closed(jobs, other) ==> failed <= other
  }

  /** Nothing has been added that a closed superset of the start could do without. */
  ghost predicate Forced(jobs: seq<Instance>, start: set<string>, failed: set<string>) {
    start <= failed && forall other: set<string> :: start <= other && Closed(jobs, other) ==> failed <= other
  }

  function Keys(jobs: seq<Instance>): set<string> {
    set j | j in jobs :: j.key
  }

  /** Some dependency has failed: the loop over the needs stops at the first. */
  method NeedsFailed(job: Instance, failed: set<string>) returns (hit: bool)
    ensures hit <==> exists d :: d in job.needs && d in failed
  {
    for n := 0 to |job.needs|
      invariant forall k :: 0 <= k < n ==> job.needs[k] !in failed
    {
      if job.needs[n] in failed {
        return true;
      }
    }
    return false;
  }

  /** Sweeps over the jobs until a sweep adds nothing; the set is updated while it is swept. */
  method FailedDependencyClosure(jobs: seq<Instance>, start: set<string>) returns (failed: set<string>)
    ensures LeastClosed(jobs, start, failed)
  {
    failed := start;
    if failed == {} {
      NothingFails(jobs);
      return;
    }
    var changed := true;
    while changed
      invariant Forced(jobs, start, failed)
      invariant !changed ==> Closed(jobs, failed)
      decreases |Keys(jobs) - failed|, changed
    {
      changed := false;
      ghost var before := failed;
      for i := 0 to |jobs|
        invariant Forced(jobs, start, failed) && before <= failed
        invariant changed ==> exists k :: k in Keys(jobs) && k in failed && k !in before
        invariant !changed ==> failed == before
        invariant !changed ==> forall k, d :: 0 <= k < i && d in jobs[k].needs && d in failed ==> jobs[k].key in failed
      {
        if jobs[i].key !in failed {
          var hit := NeedsFailed(jobs[i], failed);
          if hit {
            ForcedStep(jobs, start, failed, i);
            assert jobs[i].key in Keys(jobs);
            failed := failed + {jobs[i].key};
            changed := true;
          }
        }
      }
      if changed { FewerLeft(Keys(jobs), before, failed); }
    }
  }

  lemma NothingFails(jobs: seq<Instance>)
    ensures LeastClosed(jobs, {}, {})
  {
  }

  lemma ForcedStep(jobs: seq<Instance>, start: set<string>, failed: set<string>, i: nat)
    requires Forced(jobs, start, failed) && i < |jobs| && exists d :: d in jobs[i].needs && d in failed
    ensures Forced(jobs, start, failed + {jobs[i].key})
  {
    forall other: set<string> | start <= other && Closed(jobs, other) ensures failed + {jobs[i].key} <= other {
      var d :| d in jobs[i].needs && d in failed;
      assert d in other;
    }
  }

  lemma FewerLeft(all: set<string>, before: set<string>, after: set<string>)
    requires before <= after && exists k :: k in all && k in after && k !in before
    ensures |all - after| < |all - before|
  {
    var k :| k in all && k in after && k !in before;
    assert all - after <= (all - before) - {k};
    SubsetIsNoLarger(all - after, (all - before) - {k});
  }

  /** There is only one such set. */
  lemma LeastClosedIsUnique(jobs: seq<Instance>, start: set<string>, a: set<string>, b: set<string>)
    requires LeastClosed(jobs, start, a) && LeastClosed(jobs, start, b)
    ensures a == b
  {
    assert a <= b && b <= a;
  }

  // ----- the jobs that remain -----

  function Without(jobs: seq<Instance>, removed: set<string>): seq<Instance> {
    if jobs == [] then []
    else
      var last := jobs[|jobs| - 1];
      Without(jobs[..|jobs| - 1], removed) + if last.key in removed then [] else [last]
  }

  /** The slice of the remaining jobs is made with room for |jobs| - |removed|; that must not be negative. */
  method IrWithoutJobs(jobs: seq<Instance>, removed: set<string>) returns (r: Result<seq<Instance>>)
    ensures r.Ok? <==> |removed| <= |jobs|
    ensures r.Ok? ==> r.value == Without(jobs, removed)
  {
    if removed == {} {
      NothingRemoved(jobs);
      return Ok(jobs);
    }
    if |jobs| - |removed| < 0 {
      return Err("makeslice: cap out of range");
    }
    var rest := [];
    for i := 0 to |jobs|
      invariant rest == Without(jobs[..i], removed)
    {
      assert jobs[..i + 1][..i] == jobs[..i];
      if jobs[i].key !in removed {
        rest := rest + [jobs[i]];
      }
    }
    assert jobs[..|jobs|] == jobs;
    r := Ok(rest);
  }

  lemma {:induction false} NothingRemoved(jobs: seq<Instance>)
    ensures Without(jobs, {}) == jobs
  {
    if jobs != [] {
      NothingRemoved(jobs[..|jobs| - 1]);
      assert jobs == jobs[..|jobs| - 1] + [jobs[|jobs| - 1]];
    }
  }

  lemma {:induction false} WithoutExactly(jobs: seq<Instance>, removed: set<string>)
    ensures forall j :: j in Without(jobs, removed) <==> j in jobs && j.key !in removed
  {
    if jobs != [] {
      WithoutExactly(jobs[..|jobs| - 1], removed);
      assert jobs == jobs[..|jobs| - 1] + [jobs[|jobs| - 1]];
    }
  }

  // ----- errors -----

  /** An error is about one job instance, about none, a join of errors, or a wrapper around one. */
  datatype Error = Finding(instance: string) | Joined(errors: seq<Error>) | Wrapped(inner: Error) | Plain

  function Instances(e: Error): set<string> {
    match e
    case Finding(i) => if i == "" then {} else {i}
    case Joined(es) => AllInstances(es)
    case Wrapped(inner) => Instances(inner)
    case Plain => {}
  }

  function AllInstances(es: seq<Error>): set<string> {
    if es == [] then {} else Instances(es[0]) + AllInstances(es[1..])
  }

  predicate Unscoped(e: Error) {
    match e
    case Finding(i) => i == ""
    case Joined(es) => exists i :: 0 <= i < |es| && Unscoped(es[i])
    case Wrapped(inner) => Unscoped(inner)
    case Plain => true
  }

  /** The failures inside an error that no join or wrapper contains. */
  function Leaves(e: Error): set<Error> {
    match e
    case Joined(es) => AllLeaves(es)
    case Wrapped(inner) => Leaves(inner)
    case _ => {e}
  }

  function AllLeaves(es: seq<Error>): set<Error> {
    if es == [] then {} else Leaves(es[0]) + AllLeaves(es[1..])
  }

  /** The recursion reads exactly the leaves: their instances, and whether one has none. */
  lemma {:induction false} LeavesDecide(e: Error)
    ensures forall k :: k in Instances(e) <==> k != "" && Finding(k) in Leaves(e)
    ensures Unscoped(e) <==> Plain in Leaves(e) || Finding("") in Leaves(e)
  {
    match e
    case Joined(es) => AllLeavesDecide(es);
    case Wrapped(inner) => LeavesDecide(inner);
    case _ =>
  }

  lemma {:induction false} AllLeavesDecide(es: seq<Error>)
    ensures forall k :: k in AllInstances(es) <==> k != "" && Finding(k) in AllLeaves(es)
    ensures (exists i :: 0 <= i < |es| && Unscoped(es[i])) <==> Plain in AllLeaves(es) || Finding("") in AllLeaves(es)
  {
    if es != [] {
      LeavesDecide(es[0]);
      AllLeavesDecide(es[1..]);
      assert forall i :: 1 <= i < |es| ==> es[i] == es[1..][i - 1];
      if i :| 0 <= i < |es[1..]| && Unscoped(es[1..][i]) { assert Unscoped(es[i + 1]); }
    }
  }

  /** More jobs failed than there are: some of the instances that the error names are no jobs. */
  ghost predicate Overflows(jobs: seq<Instance>, error: Error) {
    !Unscoped(error) && exists failed :: LeastClosed(jobs, Instances(error), failed) && |failed| > |jobs|
  }

  /** The jobs that are still safe to run after an error. */
  method JobsOutsideFailureClosure(jobs: seq<Instance>, error: Option<Error>) returns (r: Result<seq<Instance>>)
    ensures r.Err? <==> error.Some? && Overflows(jobs, error.value)
    ensures error.None? ==> r == Ok(jobs)
    ensures error.Some? && Unscoped(error.value) ==> r == Ok([])
    ensures error.Some? && !Unscoped(error.value) && r.Ok? ==>
              exists failed :: LeastClosed(jobs, Instances(error.value), failed) && r.value == Without(jobs, failed)
  {
    hide LeastClosed;
    var start := if error.Some? then Instances(error.value) else {};
    var failed := FailedDependencyClosure(jobs, start);
    OnlyClosure(jobs, start, failed);
    if error.Some? && Unscoped(error.value) {
      failed := Keys(jobs);
      NothingLeft(jobs, failed);
      FewKeys(jobs);
    }
    if error.None? {
      NothingFails(jobs);
      NothingRemoved(jobs);
    }
    r := IrWithoutJobs(jobs, failed);
  }

  lemma OnlyClosure(jobs: seq<Instance>, start: set<string>, failed: set<string>)
    requires LeastClosed(jobs, start, failed)
    ensures forall other :: LeastClosed(jobs, start, other) ==> other == failed
  {
    hide LeastClosed;
    forall other | LeastClosed(jobs, start, other) ensures other == failed {
      LeastClosedIsUnique(jobs, start, failed, other);
    }
  }

  lemma {:induction false} FewKeys(jobs: seq<Instance>)
    ensures |Keys(jobs)| <= |jobs|
  {
    if jobs == [] {
      assert Keys(jobs) == {};
    } else {
      var front, last := jobs[..|jobs| - 1], jobs[|jobs| - 1];
      FewKeys(front);
      assert jobs == front + [last];
      assert Keys(jobs) == Keys(front) + {last.key};
    }
  }

  /** It never fails when the error names jobs only. */
  lemma KnownInstancesNeverOverflow(jobs: seq<Instance>, error: Error)
    requires Instances(error) <= Keys(jobs)
    ensures !Overflows(jobs, error)
  {
    forall failed | LeastClosed(jobs, Instances(error), failed) ensures |failed| <= |jobs| {
      assert Closed(jobs, Keys(jobs));
      FewKeys(jobs);
      SubsetIsNoLarger(failed, Keys(jobs));
    }
  }

  /** It fails on the error of a job that was rejected before it was listed, when there is no other. */
  lemma UnlistedFailureOverflows(key: string)
    requires key != ""
    ensures Overflows([], Finding(key)) && !Overflows([], Plain)
  {
    assert LeastClosed([], Instances(Finding(key)), {key});
  }

  lemma {:induction false} NothingLeft(jobs: seq<Instance>, removed: set<string>)
    requires Keys(jobs) <= removed
    ensures Without(jobs, removed) == []
  {
    if jobs != [] {
      var front, last := jobs[..|jobs| - 1], jobs[|jobs| - 1];
      assert last in jobs && forall j :: j in front ==> j in jobs;
      NothingLeft(front, removed);
    }
  }

  // ----- what remains can be planned -----

  predicate NeededBy(jobs: seq<Instance>, k: string, d: string) {
    exists i :: 0 <= i < |jobs| && jobs[i].key == k && d in jobs[i].needs
  }

  /** Each key is that of a job that needs the next. */
  ghost predicate NeedsChain(jobs: seq<Instance>, chain: seq<string>) {
    chain != [] && forall i, j :: 0 <= i < j < |chain| && j == i + 1 ==> NeededBy(jobs, chain[i], chain[j])
  }

  /** Failure runs up every chain of needs. */
  lemma {:induction false} FailureRunsUp(jobs: seq<Instance>, failed: set<string>, chain: seq<string>)
    requires Closed(jobs, failed) && NeedsChain(jobs, chain) && chain[|chain| - 1] in failed
    ensures chain[0] in failed
  {
    if |chain| > 1 {
      var rest := chain[1..];
      assert forall i :: 0 <= i < |rest| ==> rest[i] == chain[i + 1];
      FailureRunsUp(jobs, failed, rest);
      assert NeededBy(jobs, chain[0], chain[1]);
    }
  }

  /** A remaining job needs, directly or through others, nothing that failed or was removed; and each
      job it needs remains as well. */
  lemma RemainingNeedNoRemoved(jobs: seq<Instance>, start: set<string>, failed: set<string>, j: Instance,
                               chain: seq<string>)
    requires LeastClosed(jobs, start, failed) && j in Without(jobs, failed) && NeedsChain(jobs, chain)
    requires chain[0] == j.key
    ensures var d := chain[|chain| - 1];
            d !in failed && d !in start && (d in Keys(jobs) ==> d in Keys(Without(jobs, failed)))
  {
    WithoutExactly(jobs, failed);
    var d := chain[|chain| - 1];
    if d in failed { FailureRunsUp(jobs, failed, chain); }
    if d in Keys(jobs) {
      var other :| other in jobs && other.key == d;
      assert other in Without(jobs, failed);
    }
  }

  // ----- plans -----

  /** The instances by key, the last one of a key. */
  function ByKey(jobs: seq<Instance>): map<string, Instance> {
    if jobs == [] then map[] else ByKey(jobs[..|jobs| - 1])[jobs[|jobs| - 1].key := jobs[|jobs| - 1]]
  }

  /** One plan for each of some instances, and for all that these need. */
  ghost predicate Plannable(jobs: seq<Instance>, plans: seq<string>) {
    && Distinct(plans)
    && forall k :: k in plans ==> k in ByKey(jobs) && forall d :: d in ByKey(jobs)[k].needs ==> d in plans
  }

  /** The checks of GeneratePlannedWorkflow on targets and dependencies. */
  method CheckPlans(jobs: seq<Instance>, plans: seq<string>) returns (ok: bool)
    ensures ok <==> Plannable(jobs, plans)
  {
    var instances := ByKey(jobs);
    var planned := {};
    for i := 0 to |plans|
      invariant planned == KeysIn(plans[..i]) && Distinct(plans[..i])
      invariant forall k :: k in plans[..i] ==> k in instances
    {
      assert plans[..i + 1] == plans[..i] + [plans[i]];
      if plans[i] in planned {
        var k :| 0 <= k < i && plans[..i][k] == plans[i];
        return false;
      }
      if plans[i] !in instances {
        return false;
      }
      planned := planned + {plans[i]};
    }
    assert plans[..|plans|] == plans;
    for i := 0 to |plans|
      invariant forall k :: 0 <= k < i ==> forall d :: d in instances[plans[k]].needs ==> d in planned
    {
      assert plans[i] in plans;
      if d :| d in instances[plans[i]].needs && d !in planned {
        return false;
      }
    }
    ok := true;
  }

  ghost predicate DistinctInstances(jobs: seq<Instance>) {
    forall i, j :: 0 <= i < j < |jobs| ==> jobs[i].key != jobs[j].key
  }

  lemma {:induction false} OwnInstance(jobs: seq<Instance>, i: nat)
    requires DistinctInstances(jobs) && i < |jobs|
    ensures jobs[i].key in ByKey(jobs) && ByKey(jobs)[jobs[i].key] == jobs[i]
  {
    var n := |jobs| - 1;
    if i < n { OwnInstance(jobs[..n], i); }
  }

  function InstanceKeys(jobs: seq<Instance>): (keys: seq<string>)
    ensures |keys| == |jobs| && forall i :: 0 <= i < |jobs| ==> keys[i] == jobs[i].key
  {
    seq(|jobs|, i requires 0 <= i < |jobs| => jobs[i].key)
  }

  lemma {:induction false} WithoutDistinct(jobs: seq<Instance>, removed: set<string>)
    requires DistinctInstances(jobs)
    ensures DistinctInstances(Without(jobs, removed))
  {
    if jobs != [] {
      var front, last := jobs[..|jobs| - 1], jobs[|jobs| - 1];
      WithoutDistinct(front, removed);
      WithoutExactly(front, removed);
      forall j | j in front ensures j.key != last.key {
        var i :| 0 <= i < |front| && front[i] == j;
        assert jobs[i].key != jobs[|jobs| - 1].key;
      }
    }
  }

  /** Planning exactly what remains outside the closure is always accepted. */
  lemma RemainderIsPlannable(jobs: seq<Instance>, start: set<string>, failed: set<string>)
    requires LeastClosed(jobs, start, failed) && DistinctInstances(jobs)
    requires forall j, d :: j in jobs && d in j.needs ==> d in Keys(jobs)
    ensures Plannable(jobs, InstanceKeys(Without(jobs, failed)))
  {
    var rest := Without(jobs, failed);
    var plans := InstanceKeys(rest);
    WithoutExactly(jobs, failed);
    WithoutDistinct(jobs, failed);
    forall k | k in plans ensures k in ByKey(jobs) && forall d :: d in ByKey(jobs)[k].needs ==> d in plans {
      var n :| 0 <= n < |rest| && rest[n].key == k;
      assert rest[n] in jobs;
      var i :| 0 <= i < |jobs| && jobs[i] == rest[n];
      OwnInstance(jobs, i);
      forall d | d in jobs[i].needs ensures d in plans {
        assert NeededBy(jobs, k, d);
        RemainingNeedNoRemoved(jobs, start, failed, rest[n], [k, d]);
        var other :| other in rest && other.key == d;
        var m :| 0 <= m < |rest| && rest[m] == other;
        assert plans[m] == d;
      }
    }
  }
}
