/** orderJobs: Kahn's algorithm with a sorted ready list. */
module JobOrder {
  import opened Graphs
  import opened Pipelines
  import opened Ordering

  // ----- what the order has to be -----

  function Normalized(job: Job): Job {
    job.(dependencies := Sort(job.dependencies))
  }

  /** Only the order of the dependencies changes: they are sorted. */
  lemma NormalizedExactly(job: Job)
    ensures var n := Normalized(job);
            && Sorted(n.dependencies) && multiset(n.dependencies) == multiset(job.dependencies)
            && n.(dependencies := job.dependencies) == job
  {
    hide Sorted, Sort;
    SortSorts(job.dependencies);
  }

  function NeedsGraph(jobs: map<string, Job>): Graph {
    map k | k in jobs :: jobs[k].dependencies
  }

  /** The jobs of the upload under their keys, dependencies sorted. */
  function ByKey(input: seq<Job>): (jobs: map<string, Job>)
    ensures forall k :: k in jobs ==> jobs[k].key == k
  {
    if input == [] then map[]
    else
      var last := input[|input| - 1];
      ByKey(input[..|input| - 1])[last.key := Normalized(last)]
  }

  predicate DistinctDigests(input: seq<Job>) {
    forall i, j :: 0 <= i < j < |input| && input[i].Planned() && input[j].Planned() ==>
      input[i].planDigest != input[j].planDigest
  }

  ghost predicate ValidInput(compilerStep: string, input: seq<Job>, existing: set<string>) {
    && (forall j :: j in input ==> ValidJob(compilerStep, j))
    && DistinctKeys(input)
    && DistinctDigests(input)
    && (forall j :: j in input ==> Distinct(j.dependencies))
    && (forall j, d :: j in input && d in j.dependencies ==> d in KeySet(input) || d in existing)
  }

  ghost predicate AcyclicNeeds(input: seq<Job>) {
    forall k :: k in ByKey(input) ==> !OnCycle(NeedsGraph(ByKey(input)), k)
  }

  /** Every node once, each after the nodes it waits for. */
  ghost predicate IsOrder(g: Graph, nodes: set<string>, order: seq<string>) {
    && Distinct(order)
    && (forall k :: k in order <==> k in nodes)
    && (forall i, n :: 0 <= i < |order| && n in Successors(g, order[i]) && n in nodes ==> n in order[..i])
  }

  /** Equal, or smaller at the first place where the two differ. */
  ghost predicate AtMost(a: seq<string>, b: seq<string>) {
    a == b || exists i :: 0 <= i < |a| && i < |b| && a[..i] == b[..i] && a[i] != b[i] && Leq(a[i], b[i])
  }

  ghost predicate IsLeastOrder(g: Graph, nodes: set<string>, order: seq<string>) {
    IsOrder(g, nodes, order) && forall other :: IsOrder(g, nodes, other) ==> AtMost(order, other)
  }

  /** The least order is one value: it cannot depend on how the input or a map was iterated. */
  lemma LeastOrderIsUnique(g: Graph, nodes: set<string>, a: seq<string>, b: seq<string>)
    requires IsLeastOrder(g, nodes, a) && IsLeastOrder(g, nodes, b)
    ensures a == b
  {
    assert AtMost(a, b) && AtMost(b, a);
    AtMostAntisymmetric(a, b);
  }

  lemma AtMostAntisymmetric(a: seq<string>, b: seq<string>)
    requires AtMost(a, b) && AtMost(b, a)
    ensures a == b
  {
    hide Leq;
    if a != b {
      var i :| 0 <= i < |a| && i < |b| && a[..i] == b[..i] && a[i] != b[i] && Leq(a[i], b[i]);
      var j :| 0 <= j < |b| && j < |a| && b[..j] == a[..j] && b[j] != a[j] && Leq(b[j], a[j]);
      assert forall x :: 0 <= x < i ==> a[..i][x] == a[x] && b[..i][x] == b[x];
      assert forall x :: 0 <= x < j ==> a[..j][x] == a[x] && b[..j][x] == b[x];
      assert i == j;
      LeqAntisymmetric(a[i], b[i]);
    }
  }

  // ----- the greedy choice -----

  /** The nodes that the key still waits for once those of done have been placed. */
  ghost function Unmet(g: Graph, nodes: set<string>, key: string, done: seq<string>): set<string> {
    set n | n in Successors(g, key) && n in nodes && n !in done
  }

  ghost predicate Ready(g: Graph, nodes: set<string>, key: string, done: seq<string>) {
    key in nodes && key !in done && Unmet(g, nodes, key, done) == {}
  }

  /** Each place holds the least key that is ready there. */
  ghost predicate Greedy(g: Graph, nodes: set<string>, done: seq<string>) {
    forall i :: 0 <= i < |done| ==>
      && Ready(g, nodes, done[i], done[..i])
      && forall k :: Ready(g, nodes, k, done[..i]) ==> Leq(done[i], k)
  }

  lemma GreedyIsOrder(g: Graph, nodes: set<string>, done: seq<string>)
    requires Greedy(g, nodes, done) && forall k :: k in nodes ==> k in done
    ensures IsOrder(g, nodes, done)
  {
    forall i, j | 0 <= i < j < |done| ensures done[i] != done[j] {
      assert done[j] !in done[..j];
      assert done[..j][i] == done[i];
    }
    forall i, n | 0 <= i < |done| && n in Successors(g, done[i]) && n in nodes ensures n in done[..i] {
      assert n !in Unmet(g, nodes, done[i], done[..i]);
    }
  }

  lemma OrderKeepsReady(g: Graph, nodes: set<string>, order: seq<string>, i: nat)
    requires IsOrder(g, nodes, order) && i < |order|
    ensures Ready(g, nodes, order[i], order[..i])
  {
    assert order[i] !in order[..i];
    forall n | n in Unmet(g, nodes, order[i], order[..i]) ensures false { }
  }

  lemma OrderLength(nodes: set<string>, order: seq<string>)
    requires Distinct(order) && forall k :: k in order <==> k in nodes
    ensures |order| == |nodes|
  {
    DistinctCount(order);
    assert (set k | k in order) == nodes;
  }

  lemma {:induction false} DistinctCount(s: seq<string>)
    requires Distinct(s)
    ensures |set k | k in s| == |s|
  {
    if s != [] {
      var front, last := s[..|s| - 1], s[|s| - 1];
      DistinctCount(front);
      assert last !in front;
      assert (set k | k in s) == (set k | k in front) + {last};
    }
  }

  lemma GreedyIsLeast(g: Graph, nodes: set<string>, done: seq<string>)
    requires Greedy(g, nodes, done) && IsOrder(g, nodes, done)
    ensures IsLeastOrder(g, nodes, done)
  {
    OrderLength(nodes, done);
    forall other | IsOrder(g, nodes, other) ensures AtMost(done, other) {
      OrderLength(nodes, other);
      if done != other {
        var i := FirstDifference(done, other);
        OrderKeepsReady(g, nodes, other, i);
        assert Leq(done[i], other[i]);
      }
    }
  }

  lemma {:induction false} FirstDifference(a: seq<string>, b: seq<string>) returns (i: nat)
    requires |a| == |b| && a != b
    ensures i < |a| && a[..i] == b[..i] && a[i] != b[i]
  {
    if a[0] != b[0] {
      i := 0;
    } else {
      assert a == [a[0]] + a[1..] && b == [b[0]] + b[1..];
      i := FirstDifference(a[1..], b[1..]);
      i := i + 1;
      assert a[..i] == [a[0]] + a[1..][..i - 1] && b[..i] == [b[0]] + b[1..][..i - 1];
    }
  }

  /** Jobs that are left over when nothing is ready wait for each other in a circle. */
  lemma StuckMeansCycle(g: Graph, nodes: set<string>, done: seq<string>)
    requires forall k :: !Ready(g, nodes, k, done)
    requires exists k :: k in nodes && k !in done
    ensures exists k :: k in nodes && OnCycle(g, k)
  {
    var rest := set k | k in nodes && k !in done;
    var stuck :| stuck in nodes && stuck !in done;
    assert stuck in rest;
    forall k | k in rest ensures WaitsInside(g, rest, k) {
      assert !Ready(g, nodes, k, done);
      var n :| n in Unmet(g, nodes, k, done);
      assert n in rest;
    }
    SelfFeedingSetHasCycle(g, rest);
  }

  lemma OrderExcludesCycles(g: Graph, nodes: set<string>, order: seq<string>)
    requires IsOrder(g, nodes, order) && g.Keys == nodes
    ensures forall k :: k in nodes ==> !OnCycle(g, k)
  {
    PlacesRank(g, nodes, order);
    forall k | k in nodes ensures !OnCycle(g, k) {
      if OnCycle(g, k) {
        assert forall r :: r in [k] ==> r in PlaceRank(g, nodes, order);
        ReachesSelf(g, k);
        assert k in [k];
        RankingExcludesCycles(g, [k]);
        assert false;
      }
    }
  }

  /** Keys of the order rank by their place; other keys wait for nothing. */
  ghost function PlaceRank(g: Graph, nodes: set<string>, order: seq<string>): map<string, nat>
    requires IsOrder(g, nodes, order)
  {
    map k | k in nodes + (set m, n | m in g && n in g[m] :: n) :: if k in nodes then Place(order, k) + 1 else 0
  }

  lemma PlacesRank(g: Graph, nodes: set<string>, order: seq<string>)
    requires IsOrder(g, nodes, order) && g.Keys == nodes
    ensures Ranks(g, PlaceRank(g, nodes, order))
  {
    var rank := PlaceRank(g, nodes, order);
    forall k, n | k in rank && n in Successors(g, k) ensures n in rank && rank[n] < rank[k] {
      if n in nodes {
        var i := Place(order, k);
        assert n in order[..i];
      }
    }
  }

  ghost function Place(s: seq<string>, k: string): (i: nat)
    requires k in s && Distinct(s)
    ensures i < |s| && s[i] == k
    ensures forall j :: 0 <= j < |s| && s[j] == k ==> j == i
  {
    var i :| 0 <= i < |s| && s[i] == k; i
  }

  // ----- the algorithm -----

  /** Whether sorting puts two equal dependencies next to each other. */
  method RepeatsDependency(job: Job) returns (repeats: bool)
    ensures repeats <==> !Distinct(job.dependencies)
  {
    var sorted := Sort(job.dependencies);
    RepeatsShowWhenSorted(job.dependencies);
    for d := 0 to |sorted|
      invariant forall e, f :: 0 <= e < f < d && f == e + 1 ==> sorted[e] != sorted[f]
    {
      if d > 0 && sorted[d] == sorted[d - 1] {
        return true;
      }
    }
    return false;
  }

  ghost function DigestsOf(jobs: seq<Job>): set<string> {
    set j | j in jobs && j.Planned() :: j.planDigest
  }

  ghost predicate Admissible(compilerStep: string, input: seq<Job>) {
    && (forall j :: j in input ==> ValidJob(compilerStep, j) && Distinct(j.dependencies))
    && DistinctKeys(input)
    && DistinctDigests(input)
  }

  /** What has been admitted so far: the jobs under their keys, and the plan digests they use. */
  ghost predicate Filed(compilerStep: string, done: seq<Job>, jobs: map<string, Job>, digests: map<string, string>) {
    && Admissible(compilerStep, done)
    && jobs == ByKey(done)
    && jobs.Keys == KeySet(done)
    && digests.Keys == DigestsOf(done)
  }

  /** validateJob: the checks on one job by itself. */
  method ValidateJob(compilerStep: string, job: Job) returns (ok: bool)
    ensures ok <==> ValidJob(compilerStep, job)
  {
    hide ValidStepKey, ValidIdentifier, ValidDigest;
    if !ValidStepKey(job.key) || job.key == compilerStep { return false; }
    var preparationResult := job.failure || job.skipReason != "";
    if job.failure && job.skipReason != "" { return false; }
    if job.queue != "" && !ValidIdentifier(job.queue) { return false; }
    if job.stage {
      if preparationResult { return false; }
      if job.planDigest != "" || job.approvalGate != "" || job.concurrency != 0 || job.concurrencyGroup != "" ||
        |job.gates| != 0
      {
        return false;
      }
      if |job.dependencies| == 0 { return false; }
    } else if !preparationResult {
      if !ValidDigest(job.planDigest) { return false; }
    } else if job.planDigest != "" || job.queue != "" || job.approvalGate != "" || job.concurrency != 0 ||
      job.concurrencyGroup != "" || |job.gates| != 0
    {
      return false;
    }
    if job.concurrency < 0 { return false; }
    if job.cancelInProgress && job.concurrency == 0 { return false; }
    if (job.concurrency > 0 && job.concurrencyGroup == "") || (job.concurrency == 0 && job.concurrencyGroup != "") {
      return false;
    }
    if |job.concurrencyGroup| > MAX_CONCURRENCY_GROUP_LENGTH { return false; }
    for i := 0 to |job.dependencies|
      invariant forall k :: 0 <= k < i ==>
        ValidStepKey(job.dependencies[k]) && job.dependencies[k] != compilerStep && job.dependencies[k] != job.key
    {
      var d := job.dependencies[i];
      if !ValidStepKey(d) || d == compilerStep || d == job.key {
        assert d in job.dependencies;
        return false;
      }
    }
    ok := job.approvalGate == "" ||
      (ValidStepKey(job.approvalGate) && job.approvalGate != compilerStep && job.approvalGate != job.key);
  }

  /** Validates one job against those filed before it. */
  method File(compilerStep: string, ghost done: seq<Job>, job: Job, jobs: map<string, Job>,
              digests: map<string, string>)
    returns (ok: bool, jobs': map<string, Job>, digests': map<string, string>)
    requires Filed(compilerStep, done, jobs, digests)
    ensures ok <==> Admissible(compilerStep, done + [job])
    ensures ok ==> Filed(compilerStep, done + [job], jobs', digests')
  {
    hide ValidJob, Admissible, ByKey, Distinct, Normalized, KeySet, DigestsOf;
    jobs', digests' := jobs, digests;
    AdmitOneMore(compilerStep, done, job);
    FileOneMore(done, job);
    var valid := ValidateJob(compilerStep, job);
    var repeats := RepeatsDependency(job);
    if !valid || repeats || job.key in jobs {
      return false, jobs, digests;
    }
    if job.Planned() {
      if job.planDigest in digests {
        return false, jobs, digests;
      }
      UpdatedKeys(digests, job.planDigest, job.key);
      digests' := digests[job.planDigest := job.key];
    }
    UpdatedKeys(jobs, job.key, Normalized(job));
    jobs' := jobs[job.key := Normalized(job)];
    ok := true;
  }

  /** Validates the jobs and files them under their keys. */
  method Admit(compilerStep: string, input: seq<Job>) returns (r: Result<map<string, Job>>)
    ensures r.Ok? <==> Admissible(compilerStep, input)
    ensures r.Ok? ==> r.value == ByKey(input)
  {
    hide ValidJob, Admissible, ByKey;
    var jobs: map<string, Job>, digests: map<string, string> := map[], map[];
    AdmitNone(compilerStep);
    SplitAll(input);
    for i := 0 to |input|
      invariant Filed(compilerStep, input[..i], jobs, digests)
    {
      SplitLast(input, i);
      var ok, jobs', digests' := File(compilerStep, input[..i], input[i], jobs, digests);
      if !ok {
        if Admissible(compilerStep, input) { PrefixAdmissible(compilerStep, input, i + 1); }
        return Err("invalid, repeated or duplicate job");
      }
      jobs, digests := jobs', digests';
    }
    return Ok(jobs);
  }

  lemma SplitLast<T>(s: seq<T>, i: nat)
    requires i < |s|
    ensures s[..i + 1] == s[..i] + [s[i]]
  {
  }

  lemma UpdatedKeys<K, V>(m: map<K, V>, k: K, v: V)
    ensures m[k := v].Keys == m.Keys + {k}
  {
  }

  lemma SplitAll<T>(s: seq<T>)
    ensures s[..0] == [] && s[..|s|] == s
  {
  }

  lemma AdmitNone(compilerStep: string)
    ensures Admissible(compilerStep, []) && ByKey([]) == map[]
    ensures KeySet([]) == {} && DigestsOf([]) == {}
  {
  }

  lemma PrefixAdmissible(compilerStep: string, input: seq<Job>, n: nat)
    requires n <= |input| && Admissible(compilerStep, input)
    ensures Admissible(compilerStep, input[..n])
  {
    hide ValidJob, Distinct;
  }

  lemma AdmitOneMore(compilerStep: string, front: seq<Job>, job: Job)
    requires Admissible(compilerStep, front)
    ensures Admissible(compilerStep, front + [job]) <==>
              && ValidJob(compilerStep, job) && Distinct(job.dependencies)
              && job.key !in KeySet(front)
              && (job.Planned() ==> job.planDigest !in DigestsOf(front))
  {
    hide ValidJob, Distinct;
    var all := front + [job];
    assert all[|front|] == job;
    assert forall i :: 0 <= i < |front| ==> all[i] == front[i] && front[i] in front;
    assert forall j :: j in front ==> j.key in KeySet(front);
    assert forall j :: j in front && j.Planned() ==> j.planDigest in DigestsOf(front);
  }

  lemma FileOneMore(front: seq<Job>, job: Job)
    ensures KeySet(front + [job]) == KeySet(front) + {job.key}
    ensures DigestsOf(front + [job]) ==
            if job.Planned() then DigestsOf(front) + {job.planDigest} else DigestsOf(front)
    ensures ByKey(front + [job]) == ByKey(front)[job.key := Normalized(job)]
  {
    var all := front + [job];
    assert all[..|all| - 1] == front;
  }

  /** A sorted list has two equal neighbours exactly when the unsorted one repeats a key. */
  lemma RepeatsShowWhenSorted(s: seq<string>)
    ensures Distinct(s) <==> forall e, f :: 0 <= e < f < |Sort(s)| && f == e + 1 ==> Sort(s)[e] != Sort(s)[f]
  {
    var t := Sort(s);
    SortSorts(s);
    DistinctByCount(s);
    DistinctByCount(t);
    if forall e, f :: 0 <= e < f < |t| && f == e + 1 ==> t[e] != t[f] {
      forall i, j | 0 <= i < j < |t| ensures t[i] != t[j] {
        if t[i] == t[j] && j != i + 1 { LeqAntisymmetric(t[i], t[i + 1]); }
      }
    }
  }

  lemma {:induction false} DistinctByCount(s: seq<string>)
    ensures Distinct(s) <==> forall x :: multiset(s)[x] <= 1
  {
    if s != [] {
      DistinctByCount(s[1..]);
      assert s == [s[0]] + s[1..];
      assert multiset(s) == multiset{s[0]} + multiset(s[1..]);
      if Distinct(s) {
        assert s[0] !in s[1..];
      } else if Distinct(s[1..]) {
        var i, j :| 0 <= i < j < |s| && s[i] == s[j];
        assert forall x, y :: 0 <= x < |s| - 1 && y == x + 1 ==> s[1..][x] == s[y];
        assert i == 0;
        assert s[1..][j - 1] == s[j];
        assert multiset(s)[s[0]] >= 2;
      } else {
        var x :| multiset(s[1..])[x] > 1;
        assert multiset(s)[x] > 1;
      }
    }
  }

  /** The needs that are jobs of this upload. */
  ghost function Known(needs: seq<string>, nodes: set<string>): set<string> {
    set n | n in needs && n in nodes
  }

  lemma KnownStep(needs: seq<string>, nodes: set<string>, i: nat)
    requires i < |needs| && Distinct(needs)
    ensures |Known(needs[..i + 1], nodes)| == |Known(needs[..i], nodes)| + if needs[i] in nodes then 1 else 0
  {
    assert needs[i] !in needs[..i];
    assert needs[..i + 1] == needs[..i] + [needs[i]];
    if needs[i] in nodes {
      assert Known(needs[..i + 1], nodes) == Known(needs[..i], nodes) + {needs[i]};
    } else {
      assert Known(needs[..i + 1], nodes) == Known(needs[..i], nodes);
    }
  }

  /** Counts the jobs that one job waits for and registers it with each of them. */
  method LinkJob(key: string, needs: seq<string>, nodes: set<string>, existing: set<string>, before: Graph)
    returns (ok: bool, degree: int, dependents: Graph)
    requires Distinct(needs)
    ensures ok <==> forall d :: d in needs ==> d in nodes || d in existing
    ensures ok ==> degree == |Known(needs, nodes)|
    ensures ok ==> forall d {:trigger Successors(dependents, d)} :: Successors(dependents, d) ==
                     if d in needs && d in nodes then Successors(before, d) + [key] else Successors(before, d)
  {
    degree, dependents := |needs|, before;
    for i := 0 to |needs|
      invariant forall d :: d in needs[..i] ==> d in nodes || d in existing
      invariant degree == |needs| - i + |Known(needs[..i], nodes)|
      invariant forall d {:trigger Successors(dependents, d)} :: Successors(dependents, d) ==
                  if d in needs[..i] && d in nodes then Successors(before, d) + [key] else Successors(before, d)
    {
      var dependency := needs[i];
      KnownStep(needs, nodes, i);
      SplitLast(needs, i);
      assert dependency !in needs[..i];
      if dependency !in nodes {
        if dependency !in existing {
          return false, 0, dependents;
        }
        degree := degree - 1;
      } else {
        ghost var previous := dependents;
        dependents := dependents[dependency := Successors(dependents, dependency) + [key]];
        assert forall d :: d != dependency ==> Successors(dependents, d) == Successors(previous, d);
      }
    }
    assert needs[..|needs|] == needs;
    ok := true;
  }

  /** Counts what each job waits for and collects who waits for it. */
  method Link(jobs: map<string, Job>, existing: set<string>)
    returns (r: Result<(map<string, int>, Graph)>)
    requires DistinctNeeds(jobs)
    ensures r.Ok? <==> DependenciesKnown(jobs, jobs.Keys, existing)
    ensures r.Ok? ==> r.value.0.Keys == jobs.Keys
    ensures r.Ok? ==> forall k :: k in jobs ==> r.value.0[k] == |Known(jobs[k].dependencies, jobs.Keys)|
    ensures r.Ok? ==> WaitersOf(jobs, jobs.Keys, r.value.1)
  {
    hide WaitersOf, Distinct, Known;
    var indegree: map<string, int> := map[];
    var dependents: Graph := map[];
    NobodyWaits(jobs);
    var remaining := jobs.Keys;
    assert jobs.Keys - remaining == {};
    while remaining != {}
      invariant remaining <= jobs.Keys
      invariant DependenciesKnown(jobs, jobs.Keys - remaining, existing)
      invariant indegree.Keys == jobs.Keys - remaining
      invariant forall k :: k in indegree ==> indegree[k] == |Known(jobs[k].dependencies, jobs.Keys)|
      invariant WaitersOf(jobs, jobs.Keys - remaining, dependents)
    {
      var key :| key in remaining;
      var ok, degree, linked := LinkJob(key, jobs[key].dependencies, jobs.Keys, existing, dependents);
      if !ok {
        return Err("unknown dependency");
      }
      WaitersGrow(jobs, jobs.Keys - remaining, dependents, linked, key);
      assert jobs.Keys - (remaining - {key}) == jobs.Keys - remaining + {key};
      UpdatedKeys(indegree, key, degree);
      indegree, dependents, remaining := indegree[key := degree], linked, remaining - {key};
    }
    assert jobs.Keys - {} == jobs.Keys;
    return Ok((indegree, dependents));
  }

  ghost predicate DistinctNeeds(jobs: map<string, Job>) {
    forall k :: k in jobs ==> Distinct(jobs[k].dependencies)
  }

  ghost predicate DependenciesKnown(jobs: map<string, Job>, checked: set<string>, existing: set<string>) {
    forall k, d :: k in checked && k in jobs && d in jobs[k].dependencies ==> d in jobs || d in existing
  }

  /** The jobs among the waiting ones that need d, once each. */
  ghost predicate Waiters(jobs: map<string, Job>, waiting: set<string>, list: seq<string>, d: string) {
    && Distinct(list)
    && forall k :: k in list <==> k in waiting && k in jobs && d in jobs[k].dependencies && d in jobs
  }

  ghost predicate WaitersOf(jobs: map<string, Job>, waiting: set<string>, dependents: Graph) {
    forall d {:trigger Successors(dependents, d)} :: Waiters(jobs, waiting, Successors(dependents, d), d)
  }

  lemma WaitersGrow(jobs: map<string, Job>, waiting: set<string>, before: Graph, after: Graph, key: string)
    requires key in jobs && key !in waiting && WaitersOf(jobs, waiting, before)
    requires forall d {:trigger Successors(after, d)} :: Successors(after, d) == Joined(jobs, before, key, d)
    ensures WaitersOf(jobs, waiting + {key}, after)
  {
    forall d ensures Waiters(jobs, waiting + {key}, Successors(after, d), d) {
      assert Waiters(jobs, waiting, Successors(before, d), d);
      assert key !in Successors(before, d);
    }
  }

  lemma NobodyWaits(jobs: map<string, Job>)
    ensures WaitersOf(jobs, {}, map[])
  {
  }

  function Joined(jobs: map<string, Job>, before: Graph, key: string, d: string): seq<string>
    requires key in jobs
  {
    if d in jobs[key].dependencies && d in jobs then Successors(before, d) + [key] else Successors(before, d)
  }

  // ----- draining the ready list -----

  ghost predicate Counted(g: Graph, nodes: set<string>, indegree: map<string, int>, done: seq<string>) {
    indegree.Keys == nodes && forall k :: k in indegree ==> indegree[k] == |Unmet(g, nodes, k, done)|
  }

  /** Sorted, without repeats, and exactly the keys that are ready once done is placed. */
  ghost predicate ReadyList(g: Graph, nodes: set<string>, ready: seq<string>, done: seq<string>) {
    Sorted(ready) && Distinct(ready) && forall k :: k in ready <==> Ready(g, nodes, k, done)
  }

  lemma SortAppended(ready: seq<string>, x: string)
    requires Distinct(ready) && x !in ready
    ensures Sorted(Sort(ready + [x])) && Distinct(Sort(ready + [x]))
    ensures forall k :: k in Sort(ready + [x]) <==> k in ready || k == x
  {
    SortSorts(ready + [x]);
    DistinctByCount(ready + [x]);
    DistinctByCount(Sort(ready + [x]));
  }

  /** Placing a key takes it out of what every other job waits for, and changes nothing else. */
  lemma PlaceOne(g: Graph, nodes: set<string>, k: string, done: seq<string>, key: string)
    ensures Unmet(g, nodes, k, done + [key]) == Unmet(g, nodes, k, done) - {key}
    ensures key !in Unmet(g, nodes, k, done) ==> |Unmet(g, nodes, k, done + [key])| == |Unmet(g, nodes, k, done)|
    ensures key in Unmet(g, nodes, k, done) ==> |Unmet(g, nodes, k, done + [key])| == |Unmet(g, nodes, k, done)| - 1
  {
    assert Unmet(g, nodes, k, done + [key]) == Unmet(g, nodes, k, done) - {key};
  }

  lemma GreedyGrows(g: Graph, nodes: set<string>, done: seq<string>, key: string)
    requires Greedy(g, nodes, done) && Ready(g, nodes, key, done)
    requires forall k :: Ready(g, nodes, k, done) ==> Leq(key, k)
    ensures Greedy(g, nodes, done + [key])
  {
    hide Ready, Leq;
    var more := done + [key];
    forall i | 0 <= i < |more|
      ensures Ready(g, nodes, more[i], more[..i]) && forall k :: Ready(g, nodes, k, more[..i]) ==> Leq(more[i], k)
    {
      assert more[..i] == done[..i];
      if i == |done| { assert done[..i] == done; }
    }
  }

  /** The state while the waiters of the placed key are being released: those in rest are still to come. */
  ghost predicate Releasing(g: Graph, nodes: set<string>, done: seq<string>, key: string, rest: seq<string>,
                            indegree: map<string, int>, ready: seq<string>) {
    && indegree.Keys == nodes
    && (forall k :: k in nodes ==>
          indegree[k] == |Unmet(g, nodes, k, done + [key])| + if k in rest then 1 else 0)
    && Sorted(ready) && Distinct(ready)
    && (forall k :: k in ready <==> Ready(g, nodes, k, done + [key]) && k !in rest)
  }

  lemma WaiterMeansUnmet(jobs: map<string, Job>, dependents: Graph, k: string, done: seq<string>, key: string)
    requires WaitersOf(jobs, jobs.Keys, dependents) && key in jobs && key !in done
    ensures k in Successors(dependents, key) <==> k in jobs && key in Unmet(NeedsGraph(jobs), jobs.Keys, k, done)
  {
    assert Waiters(jobs, jobs.Keys, Successors(dependents, key), key);
  }

  lemma StartRelease(jobs: map<string, Job>, done: seq<string>, key: string, dependents: Graph,
                     indegree: map<string, int>, ready: seq<string>)
    requires WaitersOf(jobs, jobs.Keys, dependents) && |ready| > 0 && ready[0] == key
    requires Counted(NeedsGraph(jobs), jobs.Keys, indegree, done)
    requires ReadyList(NeedsGraph(jobs), jobs.Keys, ready, done)
    ensures Releasing(NeedsGraph(jobs), jobs.Keys, done, key, Successors(dependents, key), indegree, ready[1..])
  {
    hide Leq, WaitersOf, Successors, Waiters, Unmet, Ready;
    forall k
      ensures k in jobs ==> indegree[k] == |Unmet(NeedsGraph(jobs), jobs.Keys, k, done + [key])| +
                                           if k in Successors(dependents, key) then 1 else 0
      ensures k in ready[1..] <==>
              Ready(NeedsGraph(jobs), jobs.Keys, k, done + [key]) && k !in Successors(dependents, key)
    {
      StartReleaseAt(jobs, done, key, dependents, indegree, ready, k);
    }
  }

  lemma StartReleaseAt(jobs: map<string, Job>, done: seq<string>, key: string, dependents: Graph,
                       indegree: map<string, int>, ready: seq<string>, k: string)
    requires WaitersOf(jobs, jobs.Keys, dependents) && |ready| > 0 && ready[0] == key
    requires Counted(NeedsGraph(jobs), jobs.Keys, indegree, done)
    requires ReadyList(NeedsGraph(jobs), jobs.Keys, ready, done)
    ensures k in jobs ==> indegree[k] == |Unmet(NeedsGraph(jobs), jobs.Keys, k, done + [key])| +
                                         if k in Successors(dependents, key) then 1 else 0
    ensures k in ready[1..] <==>
            Ready(NeedsGraph(jobs), jobs.Keys, k, done + [key]) && k !in Successors(dependents, key)
  {
    hide Leq, WaitersOf, Successors, Waiters, Unmet;
    assert ready == [key] + ready[1..];
    assert key in ready;
    assert key !in ready[1..];
    WaiterMeansUnmet(jobs, dependents, k, done, key);
    PlaceOne(NeedsGraph(jobs), jobs.Keys, k, done, key);
    assert k in ready <==> k == key || k in ready[1..];
  }

  /** Removes every job in turn from the front of the ready list and releases the jobs that waited for it. */
  method Drain(jobs: map<string, Job>, counts: map<string, int>, dependents: Graph) returns (ordered: seq<Job>)
    requires Counted(NeedsGraph(jobs), jobs.Keys, counts, [])
    requires WaitersOf(jobs, jobs.Keys, dependents)
    requires forall k :: k in jobs ==> jobs[k].key == k
    ensures forall j :: j in ordered ==> j.key in jobs && jobs[j.key] == j
    ensures Greedy(NeedsGraph(jobs), jobs.Keys, KeysOf(ordered))
    ensures forall k :: !Ready(NeedsGraph(jobs), jobs.Keys, k, KeysOf(ordered))
  {
    hide Leq, WaitersOf, Ready, Greedy, Unmet, Counted, ReadyList, Releasing, Left;
    ghost var g, nodes := NeedsGraph(jobs), jobs.Keys;
    var ready := FirstReady(jobs, counts);
    var indegree := counts;
    ordered := [];
    EmptyIsGreedy(g, nodes);
    while |ready| > 0
      invariant forall j :: j in ordered ==> j.key in jobs && jobs[j.key] == j
      invariant Counted(g, nodes, indegree, KeysOf(ordered))
      invariant ReadyList(g, nodes, ready, KeysOf(ordered))
      invariant Greedy(g, nodes, KeysOf(ordered))
      decreases Left(nodes, KeysOf(ordered))
    {
      var key := ready[0];
      ghost var done := KeysOf(ordered);
      LeastReady(g, nodes, ready, done);
      GreedyGrows(g, nodes, done, key);
      StartRelease(jobs, done, key, dependents, indegree, ready);
      LeftFalls(nodes, done, key);
      WaitersUnplaced(jobs, done, key, dependents);
      indegree, ready := Release(jobs, done, key, Successors(dependents, key), dependents, indegree, ready[1..]);
      ordered := ordered + [jobs[key]];
      assert KeysOf(ordered) == done + [key];
    }
    NoneReady(g, nodes, KeysOf(ordered));
  }

  lemma PlacedMeansMet(g: Graph, nodes: set<string>, done: seq<string>, w: string, key: string)
    requires Greedy(g, nodes, done) && key in Successors(g, w) && key in nodes
    ensures w in done ==> key in done
  {
    hide Leq;
    if w in done {
      var i :| 0 <= i < |done| && done[i] == w;
      assert key !in Unmet(g, nodes, w, done[..i]);
    }
  }

  /** A job that waits for a key placed only now has not been placed itself. */
  lemma WaitersUnplaced(jobs: map<string, Job>, done: seq<string>, key: string, dependents: Graph)
    requires WaitersOf(jobs, jobs.Keys, dependents)
    requires Greedy(NeedsGraph(jobs), jobs.Keys, done) && Ready(NeedsGraph(jobs), jobs.Keys, key, done)
    ensures forall w :: w in Successors(dependents, key) ==> w !in done && w != key
  {
    hide Leq;
    var g, waiters := NeedsGraph(jobs), Successors(dependents, key);
    assert Waiters(jobs, jobs.Keys, waiters, key);
    forall w | w in waiters ensures w !in done && w != key {
      assert key in Successors(g, w);
      PlacedMeansMet(g, jobs.Keys, done, w, key);
      assert key in Unmet(g, jobs.Keys, w, done);
    }
  }

  ghost function Left(nodes: set<string>, done: seq<string>): nat {
    |nodes - set k | k in done|
  }

  lemma LeftFalls(nodes: set<string>, done: seq<string>, key: string)
    requires key in nodes && key !in done
    ensures Left(nodes, done + [key]) < Left(nodes, done)
  {
    assert nodes - (set k | k in done + [key]) == nodes - (set k | k in done) - {key};
  }

  lemma NoneReady(g: Graph, nodes: set<string>, done: seq<string>)
    requires ReadyList(g, nodes, [], done)
    ensures forall k :: !Ready(g, nodes, k, done)
  {
    forall k ensures !Ready(g, nodes, k, done) {
      assert k !in [];
    }
  }

  lemma EmptyIsGreedy(g: Graph, nodes: set<string>)
    ensures Greedy(g, nodes, [])
  {
  }

  lemma LeastReady(g: Graph, nodes: set<string>, ready: seq<string>, done: seq<string>)
    requires ReadyList(g, nodes, ready, done) && |ready| > 0
    ensures Ready(g, nodes, ready[0], done) && ready[0] in nodes && ready[0] !in done
    ensures forall k :: Ready(g, nodes, k, done) ==> Leq(ready[0], k)
  {
    LeqTotal(ready[0], ready[0]);
    assert ready[0] in ready;
    forall k | Ready(g, nodes, k, done) ensures Leq(ready[0], k) {
      assert k in ready;
    }
  }

  /** The jobs that wait for nothing, sorted. */
  method FirstReady(jobs: map<string, Job>, indegree: map<string, int>) returns (ready: seq<string>)
    requires Counted(NeedsGraph(jobs), jobs.Keys, indegree, [])
    ensures ReadyList(NeedsGraph(jobs), jobs.Keys, ready, [])
  {
    ready := [];
    var remaining := jobs.Keys;
    while remaining != {}
      invariant remaining <= jobs.Keys
      invariant Distinct(ready)
      invariant forall k :: k in ready <==> k in jobs && k !in remaining && indegree[k] == 0
    {
      var key :| key in remaining;
      if indegree[key] == 0 {
        ready := ready + [key];
      }
      remaining := remaining - {key};
    }
    SortSorts(ready);
    DistinctByCount(ready);
    DistinctByCount(Sort(ready));
    ready := Sort(ready);
  }

  /** Counts the placed key off from each of its waiters; those left with nothing join the ready list. */
  method Release(jobs: map<string, Job>, ghost done: seq<string>, key: string, waiters: seq<string>,
                 ghost dependents: Graph,
                 counts: map<string, int>, list: seq<string>)
    returns (indegree: map<string, int>, ready: seq<string>)
    requires WaitersOf(jobs, jobs.Keys, dependents) && waiters == Successors(dependents, key)
    requires key in jobs && key !in done
    requires forall w :: w in waiters ==> w !in done && w != key
    requires Releasing(NeedsGraph(jobs), jobs.Keys, done, key, waiters, counts, list)
    ensures Counted(NeedsGraph(jobs), jobs.Keys, indegree, done + [key])
    ensures ReadyList(NeedsGraph(jobs), jobs.Keys, ready, done + [key])
  {
    hide Leq, Releasing, Unmet, Ready;
    ghost var g, nodes := NeedsGraph(jobs), jobs.Keys;
    indegree, ready := counts, list;
    assert Waiters(jobs, nodes, waiters, key);
    assert waiters[0..] == waiters;
    for i := 0 to |waiters|
      invariant Releasing(g, nodes, done, key, waiters[i..], indegree, ready)
    {
      var dependent := waiters[i];
      assert dependent in waiters;
      assert waiters[i..] == [dependent] + waiters[i + 1..];
      assert dependent !in waiters[i + 1..];
      ReleaseOne(g, nodes, done, key, dependent, waiters[i + 1..], indegree, ready);
      var degree := indegree[dependent] - 1;
      indegree := indegree[dependent := degree];
      if degree == 0 {
        ready := Sort(ready + [dependent]);
      }
    }
    assert waiters[|waiters|..] == [];
    ReleasedAll(g, nodes, done, key, indegree, ready);
  }

  lemma ReleaseOne(g: Graph, nodes: set<string>, done: seq<string>, key: string, dependent: string, rest: seq<string>,
                   indegree: map<string, int>, ready: seq<string>)
    requires Releasing(g, nodes, done, key, [dependent] + rest, indegree, ready)
    requires dependent in nodes && dependent !in rest && dependent !in done && dependent != key
    ensures dependent in indegree
    ensures var degree := indegree[dependent] - 1;
            Releasing(g, nodes, done, key, rest, indegree[dependent := degree],
                      if degree == 0 then Sort(ready + [dependent]) else ready)
  {
    hide Leq, Unmet, Sort;
    var degree := indegree[dependent] - 1;
    assert forall k :: k in [dependent] + rest <==> k == dependent || k in rest;
    assert dependent !in ready;
    assert |Unmet(g, nodes, dependent, done + [key])| == degree;
    if degree == 0 {
      SortAppended(ready, dependent);
    }
  }

  lemma ReleasedAll(g: Graph, nodes: set<string>, done: seq<string>, key: string,
                    indegree: map<string, int>, ready: seq<string>)
    requires Releasing(g, nodes, done, key, [], indegree, ready)
    ensures Counted(g, nodes, indegree, done + [key]) && ReadyList(g, nodes, ready, done + [key])
  {
    hide Leq, Ready, Unmet;
  }

  /** Orders the jobs of an upload, or rejects them; the order is the least one there is. */
  method OrderJobs(compilerStep: string, input: seq<Job>, existing: set<string>) returns (r: Result<seq<Job>>)
    ensures r.Ok? <==> ValidInput(compilerStep, input, existing) && AcyclicNeeds(input)
    ensures r.Ok? ==> |r.value| == |input|
    ensures r.Ok? ==> forall j :: j in r.value <==> exists i :: i in input && j == Normalized(i)
    ensures r.Ok? ==> IsLeastOrder(NeedsGraph(ByKey(input)), KeySet(input), KeysOf(r.value))
    ensures OrderedAs(compilerStep, input, existing, r)
  {
    hide ValidJob, Counted, WaitersOf, Ready, Greedy, ByKey, IsLeastOrder, Known, DependenciesKnown, DistinctNeeds,
      OnCycle, Distinct;
    var admitted := Admit(compilerStep, input);
    if admitted.Err? {
      return Err(admitted.reason);
    }
    var jobs := admitted.value;
    FiledJobs(input);
    KnownDependencies(input, existing);
    var linked := Link(jobs, existing);
    if linked.Err? {
      return Err(linked.reason);
    }
    var (indegree, dependents) := linked.value;
    StartsCounted(jobs, indegree);
    var ordered := Drain(jobs, indegree, dependents);
    DrainVerdict(NeedsGraph(jobs), jobs.Keys, KeysOf(ordered));
    if |ordered| != |jobs| {
      return Err("generated job graph contains a cycle");
    }
    CompleteOrder(input, ordered);
    return Ok(ordered);
  }

  /** The map holds exactly the jobs, each under its own key. */
  ghost predicate HoldsJobs(input: seq<Job>) {
    && ByKey(input).Keys == KeySet(input) && |ByKey(input)| == |input|
    && forall j :: j in input ==> j.key in ByKey(input) && ByKey(input)[j.key] == Normalized(j)
  }

  lemma HoldsOneMore(front: seq<Job>, last: Job)
    requires HoldsJobs(front) && last.key !in KeySet(front)
    ensures HoldsJobs(front + [last])
  {
    hide ByKey, Normalized, KeySet;
    FileOneMore(front, last);
    KeysAreIn(front);
  }

  lemma KeysAreIn(jobs: seq<Job>)
    ensures forall j :: j in jobs ==> j.key in KeySet(jobs)
  {
  }

  lemma {:induction false} FiledJobs(input: seq<Job>)
    requires DistinctKeys(input)
    ensures HoldsJobs(input)
  {
    hide *;
    if input == [] {
      HoldsNone();
    } else {
      var front, last := input[..|input| - 1], input[|input| - 1];
      assert input == front + [last];
      LastKeyIsNew(input);
      FiledJobs(front);
      HoldsOneMore(front, last);
    }
  }

  lemma HoldsNone()
    ensures HoldsJobs([])
  {
  }

  lemma LastKeyIsNew(input: seq<Job>)
    requires DistinctKeys(input) && input != []
    ensures DistinctKeys(input[..|input| - 1]) && input[|input| - 1].key !in KeySet(input[..|input| - 1])
  {
  }

  lemma KnownDependencies(input: seq<Job>, existing: set<string>)
    requires DistinctKeys(input)
    ensures (forall j :: j in input ==> Distinct(j.dependencies)) ==>
              DistinctNeeds(ByKey(input))
    ensures DependenciesKnown(ByKey(input), ByKey(input).Keys, existing) <==>
              forall j, d :: j in input && d in j.dependencies ==> d in KeySet(input) || d in existing
  {
    FiledJobs(input);
    forall j | j in input
      ensures forall d :: d in j.dependencies <==> d in ByKey(input)[j.key].dependencies
      ensures Distinct(j.dependencies) ==> Distinct(Normalized(j).dependencies)
    {
      SortSorts(j.dependencies);
      DistinctByCount(j.dependencies);
      DistinctByCount(Sort(j.dependencies));
    }
  }

  lemma StartsCounted(jobs: map<string, Job>, indegree: map<string, int>)
    requires indegree.Keys == jobs.Keys
    requires forall k :: k in jobs ==> indegree[k] == |Known(jobs[k].dependencies, jobs.Keys)|
    ensures Counted(NeedsGraph(jobs), jobs.Keys, indegree, [])
  {
    forall k | k in jobs ensures indegree[k] == |Unmet(NeedsGraph(jobs), jobs.Keys, k, [])| {
      assert Known(jobs[k].dependencies, jobs.Keys) == Unmet(NeedsGraph(jobs), jobs.Keys, k, []);
    }
  }

  /** The drained list is complete exactly when no job needs itself in a circle. */
  lemma DrainVerdict(g: Graph, nodes: set<string>, done: seq<string>)
    requires g.Keys == nodes && Greedy(g, nodes, done)
    requires forall k :: !Ready(g, nodes, k, done)
    ensures |done| == |nodes| <==> forall k :: k in nodes ==> !OnCycle(g, k)
    ensures |done| == |nodes| ==> IsLeastOrder(g, nodes, done)
  {
    hide Leq;
    GreedyIsDistinct(g, nodes, done);
    DistinctCount(done);
    var placed := set k | k in done;
    if placed == nodes {
      assert forall k :: k in nodes ==> k in placed;
      GreedyIsOrder(g, nodes, done);
      GreedyIsLeast(g, nodes, done);
      OrderExcludesCycles(g, nodes, done);
    } else {
      assert placed < nodes;
      assert |nodes - placed| > 0;
      assert |nodes - placed| == |nodes| - |placed|;
      var k :| k in nodes && k !in placed;
      StuckMeansCycle(g, nodes, done);
    }
  }

  lemma GreedyIsDistinct(g: Graph, nodes: set<string>, done: seq<string>)
    requires Greedy(g, nodes, done)
    ensures Distinct(done) && forall k :: k in done ==> k in nodes
  {
    hide Leq;
    forall i, j | 0 <= i < j < |done| ensures done[i] != done[j] {
      assert done[j] !in done[..j];
      assert done[..j][i] == done[i];
    }
  }

  lemma CompleteOrder(input: seq<Job>, ordered: seq<Job>)
    requires DistinctKeys(input) && |ordered| == |ByKey(input)|
    requires forall j :: j in ordered ==> j.key in ByKey(input) && ByKey(input)[j.key] == j
    requires IsLeastOrder(NeedsGraph(ByKey(input)), KeySet(input), KeysOf(ordered))
    ensures forall j :: j in ordered <==> exists i :: i in input && j == Normalized(i)
  {
    hide Leq;
    FiledJobs(input);
    forall j | j in ordered ensures exists i :: i in input && j == Normalized(i) {
      assert j.key in KeySet(input);
    }
    forall i | i in input ensures Normalized(i) in ordered {
      assert i.key in KeysOf(ordered);
      var n :| 0 <= n < |ordered| && KeysOf(ordered)[n] == i.key;
      assert ordered[n] in ordered;
    }
  }

  // ----- the order of the input -----

  lemma NormalKey(j: Job)
    ensures Normalized(j).key == j.key && Normalized(j).gates == j.gates
    ensures Normalized(j).PreparationResult() == j.PreparationResult()
  {
  }

  lemma SameKeySameJob(jobs: seq<Job>, i: Job, j: Job)
    requires DistinctKeys(jobs) && i in jobs && j in jobs && i.key == j.key
    ensures i == j
  {
  }

  /** The keys in order fix the ordered jobs. */
  lemma JobsInOneOrder(input: seq<Job>, a: seq<Job>, b: seq<Job>)
    requires DistinctKeys(input) && KeysOf(a) == KeysOf(b)
    requires forall j :: j in a ==> exists i :: i in input && j == Normalized(i)
    requires forall j :: j in b ==> exists i :: i in input && j == Normalized(i)
    ensures a == b
  {
    hide Normalized;
    assert |a| == |KeysOf(a)| == |b|;
    forall n | 0 <= n < |a| ensures a[n] == b[n] {
      assert KeysOf(a)[n] == KeysOf(b)[n];
      assert a[n] in a && b[n] in b;
      var i :| i in input && a[n] == Normalized(i);
      var j :| j in input && b[n] == Normalized(j);
      NormalKey(i);
      NormalKey(j);
      SameKeySameJob(input, i, j);
    }
  }

  lemma {:induction false} TwoPlaces(jobs: seq<Job>, x: Job) returns (m: nat, n: nat)
    requires multiset(jobs)[x] >= 2
    ensures m < n < |jobs| && jobs[m] == x && jobs[n] == x
  {
    var front, last := jobs[..|jobs| - 1], jobs[|jobs| - 1];
    assert jobs == front + [last];
    if last == x {
      assert x in multiset(front);
      m :| 0 <= m < |front| && front[m] == x;
      n := |front|;
    } else {
      m, n := TwoPlaces(front, x);
    }
  }

  lemma TwiceCounts(jobs: seq<Job>, i: nat, j: nat)
    requires i < j < |jobs| && jobs[i] == jobs[j]
    ensures multiset(jobs)[jobs[i]] >= 2
  {
    assert jobs == jobs[..j] + [jobs[j]] + jobs[j + 1..];
    assert jobs[..j][i] == jobs[i] && jobs[i] in multiset(jobs[..j]);
  }

  /** Two places of one list are two places of every rearrangement. */
  lemma PlacesMove(a: seq<Job>, b: seq<Job>, i: nat, j: nat) returns (m: nat, n: nat)
    requires multiset(a) == multiset(b) && i < j < |b|
    ensures m < n < |a| && ((a[m] == b[i] && a[n] == b[j]) || (a[m] == b[j] && a[n] == b[i]))
  {
    if b[i] == b[j] {
      TwiceCounts(b, i, j);
      m, n := TwoPlaces(a, b[i]);
    } else {
      assert b[i] in multiset(b) && b[j] in multiset(b);
      assert b[i] in a && b[j] in a;
      m :| 0 <= m < |a| && a[m] == b[i];
      n :| 0 <= n < |a| && a[n] == b[j];
      if n < m { m, n := n, m; }
    }
  }

  lemma SameMembers(a: seq<Job>, b: seq<Job>)
    requires multiset(a) == multiset(b)
    ensures (forall j :: j in a <==> j in b) && KeySet(a) == KeySet(b)
  {
    forall j ensures j in a <==> j in b { assert j in a <==> j in multiset(a); }
  }

  lemma DistinctMoves(a: seq<Job>, b: seq<Job>)
    requires multiset(a) == multiset(b) && DistinctKeys(a) && DistinctDigests(a)
    ensures DistinctKeys(b) && DistinctDigests(b)
  {
    forall i, j | 0 <= i < j < |b|
      ensures b[i].key != b[j].key
      ensures b[i].Planned() && b[j].Planned() ==> b[i].planDigest != b[j].planDigest
    {
      var m, n := PlacesMove(a, b, i, j);
    }
  }

  lemma ValidMoves(compilerStep: string, a: seq<Job>, b: seq<Job>, existing: set<string>)
    requires multiset(a) == multiset(b) && ValidInput(compilerStep, a, existing)
    ensures ValidInput(compilerStep, b, existing) && ByKey(a) == ByKey(b)
  {
    hide ValidJob, Distinct, ByKey, KeySet;
    SameMembers(a, b);
    DistinctMoves(a, b);
    FiledJobs(a);
    FiledJobs(b);
    SameFiling(a, b);
  }

  lemma SameFiling(a: seq<Job>, b: seq<Job>)
    requires HoldsJobs(a) && HoldsJobs(b) && KeySet(a) == KeySet(b) && forall j :: j in a <==> j in b
    ensures ByKey(a) == ByKey(b)
  {
    hide ByKey, Normalized;
    forall k | k in ByKey(a) ensures ByKey(b)[k] == ByKey(a)[k] {
      var j :| j in a && j.key == k;
    }
  }

  /** What OrderJobs promises about its result. */
  ghost predicate OrderedAs(compilerStep: string, input: seq<Job>, existing: set<string>, r: Result<seq<Job>>) {
    && (r.Ok? <==> ValidInput(compilerStep, input, existing) && AcyclicNeeds(input))
    && (r.Ok? ==> forall j :: j in r.value <==> exists i :: i in input && j == Normalized(i))
    && (r.Ok? ==> IsLeastOrder(NeedsGraph(ByKey(input)), KeySet(input), KeysOf(r.value)))
  }

  /** The same jobs, listed in any order, are rejected alike or come out in the same order. */
  lemma InputOrderIsIrrelevant(compilerStep: string, a: seq<Job>, b: seq<Job>, existing: set<string>,
                               r: Result<seq<Job>>, s: Result<seq<Job>>)
    requires multiset(a) == multiset(b) && OrderedAs(compilerStep, a, existing, r)
    requires OrderedAs(compilerStep, b, existing, s)
    ensures r.Ok? <==> s.Ok?
    ensures r.Ok? ==> r.value == s.value
  {
    hide ValidInput, IsLeastOrder, OnCycle, Normalized;
    SameMembers(a, b);
    if ValidInput(compilerStep, a, existing) { ValidMoves(compilerStep, a, b, existing); }
    if ValidInput(compilerStep, b, existing) { ValidMoves(compilerStep, b, a, existing); }
    if r.Ok? {
      LeastOrderIsUnique(NeedsGraph(ByKey(a)), KeySet(a), KeysOf(r.value), KeysOf(s.value));
      ValidIsDistinct(compilerStep, a, existing);
      JobsInOneOrder(a, r.value, s.value);
    }
  }

  lemma ValidIsDistinct(compilerStep: string, input: seq<Job>, existing: set<string>)
    requires ValidInput(compilerStep, input, existing)
    ensures DistinctKeys(input)
  {
    hide ValidJob;
  }
}
