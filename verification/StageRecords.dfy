/** The records that the stages of one workflow hand down, and the checks on reading them. */
module StageRecords {
  import opened Pipelines
  import opened Claims

  const MAX_MATRIX_INSTANCES := 256
  const MAX_GRAPH_JOBS := 1024

  /** A matrix, or a runner selection, that reads the result of one producer step. */
  datatype Root = Root(job: string, producerJob: string, producerStepKey: string, runsOn: bool)

  datatype Instance = Instance(key: string, title: string, checkLabel: string)

  datatype Source = Source(path: string, digest: string, commit: string)

  datatype Continuation = Continuation(
    stepKey: string, first: Root, joined: seq<Root>, scheduling: bool, jobs: seq<string>,
    instances: map<string, seq<Instance>>, later: seq<string>, sources: map<string, Source>,
    locks: map<string, string>, jobBudget: int)
  {
    function Roots(): seq<Root> { [first] + joined }
  }

  datatype Entry = Entry(key: string, logicalJob: string, planDigest: string, needs: seq<string>)

  datatype Resolved = Resolved(job: string, rows: nat, skipped: bool, producerStepKey: string, resultDigest: string)

  datatype Record = Record(
    namespace: string, runtimes: set<string>, continuation: Continuation, others: seq<Continuation>,
    resolved: seq<Resolved>, graph: seq<Entry>, approvalGates: set<string>)
  {
    /** The importer's record has no continuation. */
    predicate Importer() { continuation.stepKey == "" }
  }

  function RootJobs(roots: seq<Root>): (jobs: seq<string>)
    ensures |jobs| == |roots| && forall i :: 0 <= i < |roots| ==> jobs[i] == roots[i].job
  {
    seq(|roots|, i requires 0 <= i < |roots| => roots[i].job)
  }

  function GraphKeys(graph: seq<Entry>): (keys: seq<string>)
    ensures |keys| == |graph| && forall i :: 0 <= i < |graph| ==> keys[i] == graph[i].key
  {
    seq(|graph|, i requires 0 <= i < |graph| => graph[i].key)
  }

  function ResolvedJobs(resolved: seq<Resolved>): (jobs: seq<string>)
    ensures |jobs| == |resolved| && forall i :: 0 <= i < |resolved| ==> jobs[i] == resolved[i].job
  {
    seq(|resolved|, i requires 0 <= i < |resolved| => resolved[i].job)
  }

  // ----- counting the instances of dependents -----

  ghost function InstanceCount(m: map<string, seq<Instance>>): nat {
    if m == map[] then 0
    else
      var k :| k in m;
      |m[k]| + InstanceCount(m - {k})
  }

  /** The order in which the map is walked does not matter. */
  lemma {:induction false} CountPicks(m: map<string, seq<Instance>>, k: string)
    requires k in m
    ensures InstanceCount(m) == |m[k]| + InstanceCount(m - {k})
    decreases |m|
  {
    var first :| first in m && InstanceCount(m) == |m[first]| + InstanceCount(m - {first});
    if first != k {
      CountPicks(m - {first}, k);
      CountPicks(m - {k}, first);
      assert m - {first} - {k} == m - {k} - {first};
    }
  }

  ghost function DependentInstances(c: Continuation): nat {
    |c.later| + InstanceCount(c.instances)
  }

  method CountDependents(c: Continuation) returns (count: nat)
    ensures count == DependentInstances(c)
  {
    count := |c.later|;
    var rest := c.instances;
    while rest != map[]
      invariant count + InstanceCount(rest) == DependentInstances(c)
      decreases |rest|
    {
      var k :| k in rest;
      CountPicks(rest, k);
      count := count + |rest[k]|;
      rest := rest - {k};
    }
  }

  // ----- the shape of a continuation -----

  predicate FullInstance(i: Instance) {
    i.key != "" && i.title != "" && i.checkLabel != ""
  }

  predicate ValidSource(s: Source) {
    s.path != "" && ValidDigest(s.digest)
  }

  /** Roots, later matrices and dependents with known instances: every deferred job is one of them. */
  ghost predicate ShapeOk(c: Continuation) {
    && (c.scheduling ==> c.joined == [] && c.later == [])
    && c.stepKey != "" && c.jobs != [] && c.jobs[0] == c.first.job
    && RootsOk(c)
    && (forall j :: j in c.later ==> j !in RootJobs(c.Roots()) && j !in c.instances && j in c.jobs)
    && |c.instances| + |c.later| == |c.jobs| - |c.Roots()|
    && (forall j :: j in c.jobs && j !in RootJobs(c.Roots()) && j !in c.later ==>
          j in c.instances && c.instances[j] != [] && forall i :: i in c.instances[j] ==> FullInstance(i))
    && |c.sources| == |c.jobs| && (forall j :: j in c.jobs ==> j in c.sources && ValidSource(c.sources[j]))
    && |c.Roots()| + DependentInstances(c) <= c.jobBudget <= MAX_GRAPH_JOBS
  }

  ghost predicate RootsOk(c: Continuation) {
    && Distinct(RootJobs(c.Roots()))
    && forall r :: r in c.Roots() ==> RootOk(c, r)
  }

  predicate RootOk(c: Continuation, r: Root) {
    && (r.runsOn ==> c.joined == [] && c.later == [])
    && r.producerStepKey != "" && r.job in c.jobs && r.job !in c.instances
  }

  method CheckRoots(c: Continuation) returns (ok: bool)
    ensures ok <==> RootsOk(c)
  {
    hide Distinct;
    var all := c.Roots();
    var roots := {};
    NoRoots(all);
    for i := 0 to |all|
      invariant Distinct(RootJobs(all[..i])) && roots == KeysIn(RootJobs(all[..i]))
      invariant forall k :: 0 <= k < i ==> RootOk(c, all[k])
    {
      var job := all[i].job;
      RootsGrow(all, i);
      assert all[i] in all;
      if all[i].runsOn && (c.joined != [] || c.later != []) {
        assert !RootOk(c, all[i]);
        return false;
      }
      if job in roots {
        return false;
      }
      if all[i].producerStepKey == "" || job !in c.jobs || job in c.instances {
        assert !RootOk(c, all[i]);
        return false;
      }
      roots := roots + {job};
    }
    assert all[..|all|] == all;
    ok := true;
  }

  lemma NoRoots(all: seq<Root>)
    ensures Distinct(RootJobs(all[..0])) && KeysIn(RootJobs(all[..0])) == {}
  {
  }

  lemma RootsGrow(all: seq<Root>, i: nat)
    requires i < |all| && Distinct(RootJobs(all[..i]))
    ensures RootJobs(all[..i + 1]) == RootJobs(all[..i]) + [all[i].job]
    ensures Distinct(RootJobs(all[..i + 1])) <==> all[i].job !in RootJobs(all[..i])
    ensures Distinct(RootJobs(all)) ==> Distinct(RootJobs(all[..i + 1]))
  {
    var more := RootJobs(all[..i + 1]);
    assert more == RootJobs(all[..i]) + [all[i].job];
    if all[i].job in RootJobs(all[..i]) {
      var k :| 0 <= k < i && RootJobs(all[..i])[k] == all[i].job;
      assert more[k] == more[i];
    }
  }

  method CheckShape(c: Continuation) returns (ok: bool)
    ensures ok <==> ShapeOk(c)
  {
    hide RootsOk, RootOk, ValidDigest, DependentInstances, RootJobs;
    if c.scheduling && (c.joined != [] || c.later != []) { return false; }
    if c.stepKey == "" || c.jobs == [] || c.jobs[0] != c.first.job { return false; }
    ok := CheckRoots(c);
    if !ok { return false; }
    var roots := RootJobs(c.Roots());
    if !(forall j :: j in c.later ==> j !in roots && j !in c.instances && j in c.jobs) { return false; }
    if |c.instances| + |c.later| != |c.jobs| - |c.Roots()| { return false; }
    if !(forall j :: j in c.jobs && j !in roots && j !in c.later ==>
           j in c.instances && c.instances[j] != [] && forall i :: i in c.instances[j] ==>
             i.key != "" && i.title != "" && i.checkLabel != "") { return false; }
    if |c.sources| != |c.jobs| || !(forall j :: j in c.jobs ==>
      j in c.sources && c.sources[j].path != "" && ValidDigest(c.sources[j].digest)) { return false; }
    var dependents := CountDependents(c);
    ok := |c.Roots()| + dependents <= c.jobBudget <= MAX_GRAPH_JOBS;
  }

  // ----- what the shape means -----

  lemma {:induction false} SizeAtMost(s: seq<string>)
    ensures |KeysIn(s)| <= |s|
    ensures |KeysIn(s)| == |s| ==> Distinct(s)
  {
    if s == [] {
      assert KeysIn(s) == {};
    } else {
      var front, last := s[..|s| - 1], s[|s| - 1];
      SizeAtMost(front);
      assert s == front + [last];
      assert KeysIn(s) == KeysIn(front) + {last};
      if last in front { assert KeysIn(s) == KeysIn(front); }
    }
  }

  /** The jobs are exactly the roots, the later matrices and the jobs with recorded instances,
      and no job is two of these. */
  lemma ShapePartitions(c: Continuation)
    requires ShapeOk(c) && Distinct(c.jobs)
    ensures KeysIn(c.jobs) == KeysIn(RootJobs(c.Roots())) + KeysIn(c.later) + c.instances.Keys
    ensures KeysIn(RootJobs(c.Roots())) !! KeysIn(c.later) && KeysIn(RootJobs(c.Roots())) !! c.instances.Keys
    ensures KeysIn(c.later) !! c.instances.Keys && Distinct(c.later)
  {
    hide FullInstance, ValidSource, DependentInstances, RootJobs;
    RootsKnown(c);
    DistinctSize(c.jobs);
    DistinctSize(RootJobs(c.Roots()));
    SizeAtMost(c.later);
    assert |c.instances.Keys| == |c.instances|;
    CountingFits(KeysIn(c.jobs), KeysIn(RootJobs(c.Roots())), KeysIn(c.later), c.instances.Keys, |c.later|);
  }

  /** Too few instances and later matrices to repeat any or to name a stranger. */
  lemma CountingFits(jobs: set<string>, roots: set<string>, later: set<string>, dependents: set<string>, n: nat)
    requires roots <= jobs && later <= jobs && roots !! later && roots !! dependents && later !! dependents
    requires jobs - roots - later <= dependents
    requires |dependents| + n == |jobs| - |roots| && |later| <= n
    ensures dependents == jobs - roots - later && |later| == n
  {
    var rest := jobs - roots - later;
    assert jobs == (roots + later) + rest;
    assert |jobs| == |roots + later| + |rest| == |roots| + |later| + |rest|;
    SubsetIsNoLarger(rest, dependents);
    SameSizeSame(rest, dependents);
  }

  lemma RootsKnown(c: Continuation)
    requires RootsOk(c)
    ensures forall j :: j in RootJobs(c.Roots()) ==> j in c.jobs && j !in c.instances
  {
    forall j | j in RootJobs(c.Roots()) ensures j in c.jobs && j !in c.instances {
      var i :| 0 <= i < |c.Roots()| && c.Roots()[i].job == j;
      assert RootOk(c, c.Roots()[i]);
    }
  }

  // ----- placeholders -----

  /** A dependent has one step for each instance, any other deferred job a single one. */
  function PlaceholderCount(c: Continuation, job: string): nat {
    if job in c.instances && c.instances[job] != [] then |c.instances[job]| else 1
  }

  function PlaceholdersOf(c: Continuation, jobs: seq<string>): nat {
    if jobs == [] then 0 else PlaceholdersOf(c, jobs[..|jobs| - 1]) + PlaceholderCount(c, jobs[|jobs| - 1])
  }

  /** Jobs with instances count as many, others one. */
  lemma {:induction false} PlaceholdersCount(c: Continuation, jobs: seq<string>, inst: map<string, seq<Instance>>)
    requires Distinct(jobs) && inst.Keys <= KeysIn(jobs) && forall k :: k in inst ==>
        k in c.instances && inst[k] == c.instances[k]
    requires forall j :: j in jobs && j in c.instances ==> j in inst && c.instances[j] != []
    ensures PlaceholdersOf(c, jobs) + |inst| == |jobs| + InstanceCount(inst)
  {
    hide InstanceCount, Distinct;
    if jobs == [] {
      assert inst == map[] by { assert inst.Keys == {}; }
      assert InstanceCount(inst) == 0 by { NoInstances(); }
    } else {
      var front, last := jobs[..|jobs| - 1], jobs[|jobs| - 1];
      LastApart(jobs);
      PlaceholdersCount(c, front, inst - {last});
      if last in inst {
        CountPicks(inst, last);
        CardOf(inst, last);
      } else {
        assert inst - {last} == inst;
      }
    }
  }

  lemma NoInstances()
    ensures InstanceCount(map[]) == 0
  {
  }

  lemma LastApart(s: seq<string>)
    requires Distinct(s) && s != []
    ensures Distinct(s[..|s| - 1]) && s[|s| - 1] !in s[..|s| - 1]
    ensures forall x :: x in s <==> x in s[..|s| - 1] || x == s[|s| - 1]
  {
    assert s == s[..|s| - 1] + [s[|s| - 1]];
  }

  lemma CardOf(m: map<string, seq<Instance>>, k: string)
    requires k in m
    ensures |m - {k}| == |m| - 1
  {
    assert |m.Keys| == |m| && |(m - {k}).Keys| == |m - {k}|;
    assert (m - {k}).Keys == m.Keys - {k};
  }

  /** Skipping the whole component fits into its budget, whatever the producers do. */
  lemma SkippingAllFits(c: Continuation)
    requires ShapeOk(c) && Distinct(c.jobs)
    ensures PlaceholdersOf(c, c.jobs) == |c.Roots()| + DependentInstances(c) <= c.jobBudget
  {
    hide FullInstance, ValidSource, RootJobs, RootsOk;
    ShapePartitions(c);
    PlaceholdersCount(c, c.jobs, c.instances);
  }

  // ----- reading a record -----

  function Components(r: Record): seq<Continuation> { [r.continuation] + r.others }

  function JobsOf(cs: seq<Continuation>): seq<string> {
    if cs == [] then [] else JobsOf(cs[..|cs| - 1]) + cs[|cs| - 1].jobs
  }

  /** The entry is an uploaded instance of the job with a plan. */
  predicate Publishes(graph: seq<Entry>, key: string, logicalJob: string) {
    exists e :: e in graph && e.key == key && e.logicalJob == logicalJob && ValidDigest(e.planDigest)
  }

  predicate PublishesSome(graph: seq<Entry>, key: string) {
    exists e :: e in graph && e.key == key && ValidDigest(e.planDigest)
  }

  predicate ResolvedOk(graph: seq<Entry>, m: Resolved) {
    && m.job != "" && (if m.skipped then m.rows == 0 else 1 <= m.rows <= MAX_MATRIX_INSTANCES)
    && PublishesSome(graph, m.producerStepKey) && ValidDigest(m.resultDigest)
  }

  ghost predicate Decodes(r: Record) {
    && ShapeOk(r.continuation)
    && (forall o :: o in r.others ==>
          ShapeOk(o) && o.stepKey != r.continuation.stepKey && o.first.job != r.continuation.first.job)
    && r.graph != [] && Distinct(GraphKeys(r.graph))
    && (forall root :: root in r.continuation.Roots() ==> Publishes(r.graph, root.producerStepKey, root.producerJob))
    // No job is in two components, or deferred and resolved, or resolved twice.
    && Distinct(JobsOf(Components(r)) + ResolvedJobs(r.resolved))
    && (forall m :: m in r.resolved ==> ResolvedOk(r.graph, m))
  }

  /** Claims the jobs of every component, then those already resolved. */
  method CheckOwners(r: Record) returns (ok: bool)
    ensures ok <==> Distinct(JobsOf(Components(r)) + ResolvedJobs(r.resolved))
  {
    hide Distinct;
    var cs := Components(r);
    var owners := {};
    NothingOwned();
    for i := 0 to |cs|
      invariant Fresh({}, JobsOf(cs[..i])) && owners == KeysIn(JobsOf(cs[..i]))
    {
      assert cs[..i + 1][..i] == cs[..i];
      FreshInTurn({}, JobsOf(cs[..i]), cs[i].jobs);
      var free, owners' := Claim(owners, cs[i].jobs);
      if !free {
        OwnersClash(cs, i, ResolvedJobs(r.resolved));
        return false;
      }
      owners := owners';
    }
    assert cs[..|cs|] == cs;
    FreshInTurn({}, JobsOf(cs), ResolvedJobs(r.resolved));
    ok, owners := Claim(owners, ResolvedJobs(r.resolved));
  }

  lemma NothingOwned()
    ensures Fresh({}, JobsOf([])) && KeysIn(JobsOf([])) == {}
  {
  }

  lemma {:induction false} OwnersClash(cs: seq<Continuation>, i: nat, more: seq<string>)
    requires i < |cs| && !Fresh({}, JobsOf(cs[..i + 1]))
    ensures !Fresh({}, JobsOf(cs) + more)
  {
    hide Fresh;
    FreshInTurn({}, JobsOf(cs), more);
    if i == |cs| - 1 {
      assert cs[..i + 1] == cs;
    } else {
      var front := cs[..|cs| - 1];
      assert front[..i + 1] == cs[..i + 1];
      OwnersClash(front, i, cs[|cs| - 1].jobs);
    }
  }

  method Decode(r: Record) returns (ok: bool)
    ensures ok <==> Decodes(r)
  {
    hide ShapeOk, ValidDigest, Distinct;
    ok := CheckShape(r.continuation);
    if !ok { return false; }
    for i := 0 to |r.others|
      invariant forall k :: 0 <= k < i ==>
        ShapeOk(r.others[k]) && r.others[k].stepKey != r.continuation.stepKey &&
          r.others[k].first.job != r.continuation.first.job
    {
      ok := CheckShape(r.others[i]);
      if !ok || r.others[i].stepKey == r.continuation.stepKey || r.others[i].first.job == r.continuation.first.job {
        assert r.others[i] in r.others;
        return false;
      }
    }
    if r.graph == [] { return false; }
    var keys;
    ok, keys := Claim({}, GraphKeys(r.graph));
    FreshIsDistinct(GraphKeys(r.graph));
    if !ok { return false; }
    if !(forall root :: root in r.continuation.Roots() ==> exists e ::
           e in r.graph && e.key == root.producerStepKey && e.logicalJob == root.producerJob &&
             ValidDigest(e.planDigest))
    {
      return false;
    }
    ok := CheckOwners(r);
    if !ok { return false; }
    ok := forall m :: m in r.resolved ==>
      && m.job != "" && ValidDigest(m.resultDigest)
      && (exists e :: e in r.graph && e.key == m.producerStepKey && ValidDigest(e.planDigest))
      && (m.skipped ==> m.rows == 0) && (!m.skipped ==> 1 <= m.rows <= MAX_MATRIX_INSTANCES);
  }

  lemma FreshIsDistinct(keys: seq<string>)
    ensures Fresh({}, keys) <==> Distinct(keys)
  {
  }
}
