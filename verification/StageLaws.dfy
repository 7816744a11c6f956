/** What an accepted stage is, written out: which bundles are accepted, and what the stage adds and hands down. */
module StageLaws {
  import opened Pipelines
  import opened Claims
  import opened StageRecords
  import opened StageChain
  import opened StageRuns

  // ----- the jobs of an accepted bundle -----

  /** The recorded instance was compiled again: the same key, job and plan, and the same needs in any order. */
  predicate Unchanged(e: Entry, x: Built) {
    && x.entry.key == e.key && x.entry.logicalJob == e.logicalJob && x.entry.planDigest == e.planDigest
    && multiset(x.entry.needs) == multiset(e.needs)
  }

  predicate IsRecorded(r: Record, key: string) {
    exists e :: e in r.graph && e.key == key
  }

  /** A new job of a later stage is its own, on a platform with a runtime, from the recorded source, and every
      action it uses is the recorded revision. */
  predicate OwnJob(r: Record, x: Built) {
    var job, c := x.entry.logicalJob, r.continuation;
    && job in c.jobs && x.platform in r.runtimes
    && job in c.sources && c.sources[job] == x.source
    && forall id :: id in x.locks ==> id in c.locks && c.locks[id] == x.locks[id]
  }

  /** Every job has a plan; recorded ones come back unchanged, and none is missing; the others have a step
      and, after the importer, belong to the stage. */
  ghost predicate Reproduces(r: Record, b: Bundle) {
    && (forall x :: x in b.built ==> x.entry.planDigest != "")
    && (forall e :: e in r.graph ==>
          exists x :: x in b.built && Unchanged(e, x) && x.entry.logicalJob !in r.continuation.jobs)
    && (forall x :: x in b.built && !IsRecorded(r, x.entry.key) ==>
          x.entry.key in b.steps && (r.Importer() || OwnJob(r, x)))
  }

  lemma SameExactly(e: Entry, x: Built)
    ensures Same(e, x.entry) <==> Unchanged(e, x)
  {
  }

  lemma RecordedExactly(r: Record, key: string)
    ensures key in Recorded(r.graph) <==> IsRecorded(r, key)
    ensures key in Recorded(r.graph) ==> Recorded(r.graph)[key] in r.graph && Recorded(r.graph)[key].key == key
  {
    hide Recorded;
    RecordedEntries(r.graph);
    if key in GraphKeys(r.graph) {
      var i :| 0 <= i < |r.graph| && GraphKeys(r.graph)[i] == key;
      assert r.graph[i] in r.graph;
    }
    if e :| e in r.graph && e.key == key {
      var i :| 0 <= i < |r.graph| && r.graph[i] == e;
      assert GraphKeys(r.graph)[i] == key;
    }
  }

  lemma OneEntry(r: Record, e: Entry)
    requires Distinct(GraphKeys(r.graph)) && e in r.graph
    ensures e.key in Recorded(r.graph) && Recorded(r.graph)[e.key] == e
  {
    hide Recorded;
    RecordedExactly(r, e.key);
    var i :| 0 <= i < |r.graph| && r.graph[i] == e;
    var j :| 0 <= j < |r.graph| && r.graph[j] == Recorded(r.graph)[e.key];
    assert GraphKeys(r.graph)[i] == GraphKeys(r.graph)[j];
  }

  /** What becomes of one compiled job. */
  lemma FateExactly(r: Record, b: Bundle, x: Built)
    requires r.Importer() ==> r.graph == []
    ensures FateOf(r, b, x).Reproduced? <==>
              && x.entry.planDigest != "" && x.entry.logicalJob !in r.continuation.jobs
              && x.entry.key in Recorded(r.graph) && Unchanged(Recorded(r.graph)[x.entry.key], x)
    ensures FateOf(r, b, x).New? <==>
              && x.entry.planDigest != "" && !IsRecorded(r, x.entry.key)
              && x.entry.key in b.steps && (r.Importer() || OwnJob(r, x))
  {
    hide Recorded, Same, Unchanged, IsRecorded;
    RecordedExactly(r, x.entry.key);
    if x.entry.key in Recorded(r.graph) { SameExactly(Recorded(r.graph)[x.entry.key], x); }
  }

  lemma OneBuilt(b: Bundle, x: Built, y: Built)
    requires Distinct(BuiltKeys(b)) && x in b.built && y in b.built && x.entry.key == y.entry.key
    ensures x == y
  {
    var i :| 0 <= i < |b.built| && b.built[i] == x;
    var j :| 0 <= j < |b.built| && b.built[j] == y;
    assert BuiltKeys(b)[i] == BuiltKeys(b)[j];
  }

  lemma AcceptedReproduces(r: Record, b: Bundle)
    requires Distinct(BuiltKeys(b)) && Distinct(GraphKeys(r.graph)) && (r.Importer() ==> r.graph == [])
    requires EntriesOk(r, b)
    ensures Reproduces(r, b)
  {
    hide FateOf, Recorded, Unchanged, IsRecorded, OwnJob, Distinct;
    AllReproduced(r, b);
    forall x | x in b.built
      ensures x.entry.planDigest != ""
      ensures !IsRecorded(r, x.entry.key) ==> x.entry.key in b.steps && (r.Importer() || OwnJob(r, x))
    {
      FateExactly(r, b, x);
      RecordedExactly(r, x.entry.key);
    }
    forall e | e in r.graph
      ensures exists x :: x in b.built && Unchanged(e, x) && x.entry.logicalJob !in r.continuation.jobs
    {
      OneEntry(r, e);
      RecordedEntries(r.graph);
      var x :| x in b.built && x.entry.key == e.key && FateOf(r, b, x).Reproduced?;
      FateExactly(r, b, x);
    }
  }

  lemma ReproducingIsAccepted(r: Record, b: Bundle)
    requires Distinct(BuiltKeys(b)) && Distinct(GraphKeys(r.graph)) && (r.Importer() ==> r.graph == [])
    requires Reproduces(r, b)
    ensures EntriesOk(r, b)
  {
    hide FateOf, Recorded, IsRecorded, OwnJob, Distinct;
    forall x | x in b.built ensures !FateOf(r, b, x).Rejected? {
      FateExactly(r, b, x);
      RecordedExactly(r, x.entry.key);
      if x.entry.key in Recorded(r.graph) {
        var e := Recorded(r.graph)[x.entry.key];
        var y :| y in b.built && Unchanged(e, y) && y.entry.logicalJob !in r.continuation.jobs;
        OneBuilt(b, x, y);
      }
    }
    RecordedEntries(r.graph);
    var keys := KeysWith(r, b, b.built, Reproduced);
    assert KeysOfBuilt(b.built) == BuiltKeys(b);
    KeysWithAre(r, b, b.built, Reproduced);
    forall k ensures k in KeysIn(keys) <==> k in Recorded(r.graph).Keys {
      if k in Recorded(r.graph) {
        var e := Recorded(r.graph)[k];
        var x :| x in b.built && Unchanged(e, x) && x.entry.logicalJob !in r.continuation.jobs;
        FateExactly(r, b, x);
        assert HasFate(r, b, b.built, Reproduced, k);
      }
      if k in keys { ReproducedIsRecorded(r, b, k); }
    }
    assert KeysIn(keys) == Recorded(r.graph).Keys;
    DistinctSize(keys);
    assert |Recorded(r.graph).Keys| == |Recorded(r.graph)|;
  }

  /** The jobs of a bundle are accepted exactly if they reproduce what is recorded. */
  lemma EntriesExactly(r: Record, b: Bundle)
    requires Distinct(BuiltKeys(b)) && Distinct(GraphKeys(r.graph)) && (r.Importer() ==> r.graph == [])
    ensures EntriesOk(r, b) <==> Reproduces(r, b)
    ensures forall x :: x in NewJobs(r, b, b.built) && EntriesOk(r, b) ==> x in b.built && !IsRecorded(r, x.entry.key)
    ensures forall x :: x in b.built && !IsRecorded(r, x.entry.key) && EntriesOk(r, b) ==> x in NewJobs(r, b, b.built)
  {
    hide FateOf, Recorded, IsRecorded, OwnJob, Distinct, EntriesOk, Reproduces;
    if EntriesOk(r, b) { AcceptedReproduces(r, b); }
    if Reproduces(r, b) { ReproducingIsAccepted(r, b); }
    NewJobsAre(r, b, b.built);
    forall x | x in b.built && EntriesOk(r, b) ensures FateOf(r, b, x).New? <==> !IsRecorded(r, x.entry.key) {
      FateExactly(r, b, x);
      PlannedAndPlaced(r, b, x);
    }
  }

  lemma PlannedAndPlaced(r: Record, b: Bundle, x: Built)
    requires Reproduces(r, b) && x in b.built
    ensures x.entry.planDigest != ""
    ensures !IsRecorded(r, x.entry.key) ==> x.entry.key in b.steps && (r.Importer() || OwnJob(r, x))
  {
    hide IsRecorded, OwnJob, Unchanged;
  }

  /** A recorded job that is not owned and comes back with another job, plan or needs is not accepted. */
  lemma ChangedIsRejected(r: Record, b: Bundle, e: Entry, x: Built, stepKey: string -> string)
    requires Distinct(BuiltKeys(b)) && Distinct(GraphKeys(r.graph)) && (r.Importer() ==> r.graph == [])
    requires e in r.graph && x in b.built && x.entry.key == e.key
    requires x.entry.logicalJob != e.logicalJob || x.entry.planDigest != e.planDigest ||
             multiset(x.entry.needs) != multiset(e.needs)
    ensures !AdvanceOk(r, b, stepKey)
  {
    hide Distinct, EntriesOk, ContinuationsOk, Handled, UploadCount, Writable, NextOf;
    EntriesExactly(r, b);
    if Reproduces(r, b) {
      var y :| y in b.built && Unchanged(e, y) && y.entry.logicalJob !in r.continuation.jobs;
      OneBuilt(b, x, y);
    }
  }

  // ----- the continuations of an accepted bundle -----

  predicate Foreign(r: Record, c: Continuation) {
    forall o :: o in r.others ==> o.stepKey != c.stepKey
  }

  /** A next stage has the shape of a continuation, expands matrices left for later, and takes over jobs of its
      parent with the sources and instances recorded for them. */
  ghost predicate Succeeds(parent: Continuation, next: Continuation) {
    && ShapeOk(next)
    && (forall i :: 0 <= i < |next.Roots()| ==> next.Roots()[i].job in parent.later)
    && forall job :: job in next.jobs ==>
         && job in parent.jobs
         && job in parent.sources && job in next.sources && parent.sources[job] == next.sources[job]
         && (job in parent.instances <==> job in next.instances)
         && (job in next.instances ==> parent.instances[job] == next.instances[job])
  }

  /** The other components are deferred as they were recorded, and at most one deferred step is left,
      which is the next stage of this one. */
  ghost predicate Continues(r: Record, b: Bundle) {
    && (forall o :: o in r.others ==> o in b.continuations)
    && (forall c, d :: c in b.continuations && d in b.continuations && Foreign(r, c) && Foreign(r, d) ==> c == d)
    && (forall c :: c in b.continuations && Foreign(r, c) ==>
          c.first.job in r.continuation.later && Succeeds(r.continuation, c))
  }

  lemma NextExactly(parent: Continuation, next: Continuation)
    ensures NextOk(parent, next) <==> Succeeds(parent, next)
  {
    hide RootsOk, DependentInstances;
    if NextOk(parent, next) || Succeeds(parent, next) {
      forall job | job in next.jobs ensures job in next.sources { }
    }
    assert (forall root :: root in next.Roots() ==> root.job in parent.later) <==>
           (forall i :: 0 <= i < |next.Roots()| ==> next.Roots()[i].job in parent.later);
  }

  lemma ForeignExactly(r: Record, c: Continuation)
    ensures Foreign(r, c) <==> c.stepKey !in OtherSteps(r.others)
  {
    hide OtherSteps;
    OtherStepsAre(r.others);
  }

  lemma OneOther(r: Record, o: Continuation)
    requires OneEach(Members(r.others)) && o in r.others
    ensures o.stepKey in OtherSteps(r.others) && OtherSteps(r.others)[o.stepKey] == o
  {
    hide OtherSteps;
    OtherStepsAre(r.others);
    assert o in Members(r.others) && OtherSteps(r.others)[o.stepKey] in Members(r.others);
  }

  lemma AcceptedContinues(r: Record, b: Bundle)
    requires !r.Importer() && DistinctStepKeys(b.continuations) && OneEach(Members(r.others)) && ContinuationsOk(r, b)
    ensures Continues(r, b)
  {
    hide OtherSteps, Matched, NextOk, Succeeds, OneEach, Foreign;
    var cs := b.continuations;
    MatchedMeans(r, cs);
    forall o | o in r.others ensures o in cs {
      OneOther(r, o);
      assert o.stepKey !in OtherSteps(r.others) - StepKeysOf(cs);
      var c :| c in cs && c.stepKey == o.stepKey;
    }
    forall c | c in cs && Foreign(r, c) ensures c.first.job in r.continuation.later && Succeeds(r.continuation, c) {
      ForeignExactly(r, c);
      NextExactly(r.continuation, c);
    }
    forall c, d | c in cs && d in cs && Foreign(r, c) && Foreign(r, d) ensures c == d {
      ForeignExactly(r, c);
      ForeignExactly(r, d);
      SameStep(cs, c, d, r.continuation.locks);
    }
  }

  lemma SameStep(cs: seq<Continuation>, c: Continuation, d: Continuation, locks: map<string, string>)
    requires DistinctStepKeys(cs) && c in cs && d in cs && c.(locks := locks) == d.(locks := locks)
    ensures c == d
  {
    assert c.stepKey == c.(locks := locks).stepKey == d.stepKey;
    var i :| 0 <= i < |cs| && cs[i] == c;
    var j :| 0 <= j < |cs| && cs[j] == d;
  }

  /** What matching has established so far if nothing was wrong. */
  ghost predicate Fits(r: Record, cs: seq<Continuation>) {
    && (forall c, o :: c in cs && o in r.others && c.stepKey == o.stepKey ==> c == o)
    && (forall c, d :: c in cs && d in cs && Foreign(r, c) && Foreign(r, d) ==> c == d)
    && (forall c :: c in cs && Foreign(r, c) ==> c.first.job in r.continuation.later && NextOk(r.continuation, c))
  }

  lemma {:induction false} FittingMatches(r: Record, cs: seq<Continuation>)
    requires !r.Importer() && DistinctStepKeys(cs) && OneEach(Members(r.others)) && Fits(r, cs)
    ensures Matched(r, cs).Matching? && MatchedSoFar(r, cs, Matched(r, cs))
  {
    hide NextOk, OtherSteps, Foreign, OneEach;
    if cs == [] {
      assert OtherSteps(r.others) - StepKeysOf(cs) == OtherSteps(r.others);
    } else {
      var front, c := cs[..|cs| - 1], cs[|cs| - 1];
      assert cs == front + [c];
      FittingMatches(r, front);
      LastKeyIsNew(cs);
      FittingStep(r, front, c);
      MatchStep(r, front, c);
    }
  }

  lemma FittingStep(r: Record, front: seq<Continuation>, c: Continuation)
    requires !r.Importer() && OneEach(Members(r.others)) && Fits(r, front + [c]) && c.stepKey !in StepKeysOf(front)
    requires MatchedSoFar(r, front, Matched(r, front))
    ensures Match(r, Matched(r, front), c).Matching?
  {
    hide NextOk, OtherSteps, Matched, Foreign, OneEach;
    var m := Matched(r, front);
    assert c in front + [c];
    ForeignExactly(r, c);
    OtherStepsAre(r.others);
    if c.stepKey !in OtherSteps(r.others) {
      if m.next != [] {
        var d :| d in front && d.stepKey !in OtherSteps(r.others) && m.next[0] == d.(locks := r.continuation.locks);
        ForeignExactly(r, d);
        OneForeign(r, front, c, d);
      }
    }
  }

  lemma OneForeign(r: Record, front: seq<Continuation>, c: Continuation, d: Continuation)
    requires Fits(r, front + [c]) && d in front && Foreign(r, c) && Foreign(r, d)
    ensures c.stepKey in StepKeysOf(front)
  {
    hide NextOk, Foreign;
    assert c in front + [c] && d in front + [c];
  }

  lemma ContinuingIsAccepted(r: Record, b: Bundle)
    requires !r.Importer() && DistinctStepKeys(b.continuations) && OneEach(Members(r.others)) && Continues(r, b)
    ensures ContinuationsOk(r, b)
  {
    hide OtherSteps, Matched, NextOk, Succeeds, OneEach, Foreign;
    var cs := b.continuations;
    forall c | c in cs && Foreign(r, c) ensures NextOk(r.continuation, c) {
      NextExactly(r.continuation, c);
    }
    forall c, o | c in cs && o in r.others && c.stepKey == o.stepKey ensures c == o {
      SameStepKey(cs, c, o);
    }
    FittingMatches(r, cs);
    OtherStepsAre(r.others);
    assert OtherSteps(r.others) - StepKeysOf(cs) == map[];
  }

  lemma SameStepKey(cs: seq<Continuation>, c: Continuation, d: Continuation)
    requires DistinctStepKeys(cs) && c in cs && d in cs && c.stepKey == d.stepKey
    ensures c == d
  {
    var i :| 0 <= i < |cs| && cs[i] == c;
    var j :| 0 <= j < |cs| && cs[j] == d;
  }

  /** The deferred steps of a later stage's bundle are accepted exactly if they continue what is recorded; the one
      that is left keeps the recorded action locks and is handed on. */
  lemma ContinuationsExactly(r: Record, b: Bundle)
    requires !r.Importer() && DistinctStepKeys(b.continuations) && OneEach(Members(r.others))
    ensures ContinuationsOk(r, b) <==> Continues(r, b)
    ensures ContinuationsOk(r, b) ==>
              && |NextOf(r, b)| <= 1
              && forall d :: d in NextOf(r, b) <==>
                   exists c :: c in b.continuations && Foreign(r, c) && d == c.(locks := r.continuation.locks)
  {
    hide OtherSteps, Matched, NextOk, Succeeds, OneEach, Foreign, ContinuationsOk, Continues;
    if ContinuationsOk(r, b) { AcceptedContinues(r, b); LeftOver(r, b); }
    if Continues(r, b) { ContinuingIsAccepted(r, b); }
  }

  lemma LeftOver(r: Record, b: Bundle)
    requires !r.Importer() && DistinctStepKeys(b.continuations) && ContinuationsOk(r, b)
    ensures |NextOf(r, b)| <= 1
    ensures forall d :: d in NextOf(r, b) <==>
              exists c :: c in b.continuations && Foreign(r, c) && d == c.(locks := r.continuation.locks)
  {
    hide OtherSteps, Matched, NextOk, Foreign;
    MatchedMeans(r, b.continuations);
    forall c | c in b.continuations ensures Foreign(r, c) <==> c.stepKey !in OtherSteps(r.others) {
      ForeignExactly(r, c);
    }
  }

  // ----- what the stage adds and hands down -----

  /** A job that is skipped leaves a step for each instance known of it, or one under its own key. */
  ghost predicate Replaces(c: Continuation, skipped: set<string>, stepKey: string -> string, key: string) {
    exists job :: job in c.jobs && job in skipped &&
      if job in c.instances && c.instances[job] != []
      then exists n :: 0 <= n < |c.instances[job]| && c.instances[job][n].key == key
      else key == stepKey(job)
  }

  lemma {:induction false} ReplacedBy(c: Continuation, jobs: seq<string>, skipped: set<string>,
                                      stepKey: string -> string)
    ensures forall k :: k in SkippedSteps(c, jobs, skipped, stepKey) <==>
              exists job :: job in jobs && job in skipped && k in Placeholders(c, job, stepKey)
  {
    hide Placeholders;
    if jobs != [] {
      var front, last := jobs[..|jobs| - 1], jobs[|jobs| - 1];
      ReplacedBy(c, front, skipped, stepKey);
      assert jobs == front + [last];
      forall k | exists job :: job in jobs && job in skipped && k in Placeholders(c, job, stepKey)
        ensures k in SkippedSteps(c, jobs, skipped, stepKey)
      {
        var job :| job in jobs && job in skipped && k in Placeholders(c, job, stepKey);
        if job != last { assert job in front; }
      }
      forall k | k in SkippedSteps(c, jobs, skipped, stepKey)
        ensures exists job :: job in jobs && job in skipped && k in Placeholders(c, job, stepKey)
      {
        if k in SkippedSteps(c, front, skipped, stepKey) {
          var job :| job in front && job in skipped && k in Placeholders(c, job, stepKey);
          assert job in jobs;
        } else {
          assert last in jobs;
        }
      }
    }
  }

  lemma PlaceholderKeys(c: Continuation, job: string, stepKey: string -> string)
    ensures forall k :: k in Placeholders(c, job, stepKey) <==>
              if job in c.instances && c.instances[job] != []
              then exists n :: 0 <= n < |c.instances[job]| && c.instances[job][n].key == k
              else k == stepKey(job)
  {
    if job in c.instances && c.instances[job] != [] {
      var keys := InstanceKeys(c.instances[job]);
      assert forall n :: 0 <= n < |keys| ==> keys[n] == c.instances[job][n].key && keys[n] in keys;
    }
  }

  lemma ReplacedExactly(c: Continuation, skipped: set<string>, stepKey: string -> string)
    ensures forall k :: k in SkippedSteps(c, c.jobs, skipped, stepKey) <==> Replaces(c, skipped, stepKey, k)
  {
    hide Placeholders, SkippedSteps;
    ReplacedBy(c, c.jobs, skipped, stepKey);
    forall job ensures forall k :: k in Placeholders(c, job, stepKey) <==>
              if job in c.instances && c.instances[job] != []
              then exists n :: 0 <= n < |c.instances[job]| && c.instances[job][n].key == k
              else k == stepKey(job)
    {
      PlaceholderKeys(c, job, stepKey);
    }
  }

  lemma {:induction false} ProducersOnce(roots: seq<Root>)
    ensures Distinct(Producers(roots))
    ensures forall k :: k in Producers(roots) <==> exists n :: 0 <= n < |roots| && roots[n].producerStepKey == k
  {
    if roots != [] { ProducersOnce(roots[..|roots| - 1]); }
  }

  /** The matrices resolved by a stage, with the rows, skips and results that it read. */
  ghost predicate Resolves(roots: seq<Root>, o: Outputs, ms: seq<Resolved>) {
    && |ms| == |roots|
    && forall n :: 0 <= n < |roots| ==>
         && ms[n].job == roots[n].job && ms[n].producerStepKey == roots[n].producerStepKey
         && ms[n].rows == (if roots[n].job in o.rows then o.rows[roots[n].job] else 0)
         && (ms[n].skipped <==> roots[n].job in o.skipped)
         && ms[n].resultDigest ==
              (if roots[n].producerStepKey in o.results then o.results[roots[n].producerStepKey] else "")
  }

  /** The record of a next stage: the continuation with the budget that is left, all other components, all jobs
      compiled so far, the matrices resolved so far, and the gates that exist once the upload is in place. */
  ghost predicate HandedDown(r: Record, b: Bundle, o: Outputs, a: StageResult, next: Continuation, child: Record) {
    && child.namespace == r.namespace && child.runtimes == r.runtimes
    && child.continuation.(jobBudget := next.jobBudget) == next
    && child.continuation.jobBudget ==
         (if r.Importer() then next.jobBudget else r.continuation.jobBudget - |a.jobs| - |a.placeholders|)
    && (forall c :: c in child.others <==> c in b.continuations && c.stepKey != next.stepKey)
    && |child.graph| == |b.built| && (forall n :: 0 <= n < |b.built| ==> child.graph[n] == b.built[n].entry)
    && (if r.Importer() then child.resolved == r.resolved
        else
          && r.resolved <= child.resolved
          && Resolves(r.continuation.Roots(), o, child.resolved[|r.resolved|..]))
    && forall g :: g in child.approvalGates <==>
         g in r.approvalGates || (r.Importer() && g in b.gates) ||
         (g != "" && exists x :: x in a.jobs && x.entry.key in b.steps && b.steps[x.entry.key] == g)
  }

  /** The step of a next stage waits for each producer once; with scheduling, for every job compiled so far. */
  ghost predicate StageStepIs(b: Bundle, next: Continuation, s: StageStep) {
    && s.key == next.stepKey
    && if next.scheduling then
         |s.dependencies| == |b.built| && forall n :: 0 <= n < |b.built| ==> s.dependencies[n] == b.built[n].entry.key
       else
         && Distinct(s.dependencies)
         && forall k :: k in s.dependencies <==>
              exists n :: 0 <= n < |next.Roots()| && next.Roots()[n].producerStepKey == k
  }

  lemma ChildIs(r: Record, b: Bundle, o: Outputs, stepKey: string -> string, n: nat)
    requires AdvanceOk(r, b, stepKey) && n < |Advanced(r, b, o, stepKey).next|
    ensures var a := Advanced(r, b, o, stepKey);
            HandedDown(r, b, o, a, a.next[n], a.records[n]) && StageStepIs(b, a.next[n], a.steps[n])
  {
    hide AdvanceOk, NewJobs, SkippedSteps, NextOf, Except, Producers, ResolvedBy, Distinct, Writable;
    var a := Advanced(r, b, o, stepKey);
    ExceptAre(b.continuations, a.next[n].stepKey);
    ProducersOnce(a.next[n].Roots());
    ResolvedIs(r.continuation.Roots(), o);
    if !r.Importer() {
      assert a.records[n].resolved[|r.resolved|..] == ResolvedBy(r.continuation.Roots(), o);
    }
  }

  lemma ResolvedIs(roots: seq<Root>, o: Outputs)
    ensures Resolves(roots, o, ResolvedBy(roots, o))
  {
  }

  /** Some of the jobs, in the order of the bundle. */
  predicate Among(xs: seq<Built>, all: seq<Built>) {
    xs == [] ||
    (all != [] &&
     (Among(xs, all[..|all| - 1]) ||
      (xs[|xs| - 1] == all[|all| - 1] && Among(xs[..|xs| - 1], all[..|all| - 1]))))
  }

  lemma AmongPrefix(xs: seq<Built>, all: seq<Built>)
    requires all != [] && Among(xs, all[..|all| - 1])
    ensures Among(xs, all)
  {
  }

  lemma {:induction false} NewJobsAmong(r: Record, b: Bundle, xs: seq<Built>)
    ensures Among(NewJobs(r, b, xs), xs)
  {
    hide FateOf;
    if xs != [] {
      var front := NewJobs(r, b, xs[..|xs| - 1]);
      NewJobsAmong(r, b, xs[..|xs| - 1]);
      if FateOf(r, b, xs[|xs| - 1]).New? {
        assert NewJobs(r, b, xs) == front + [xs[|xs| - 1]];
        assert (front + [xs[|xs| - 1]])[..|front|] == front;
      } else {
        assert NewJobs(r, b, xs) == front;
        AmongPrefix(front, xs);
      }
    }
  }

  /** An accepted stage adds the new jobs and a placeholder for each skipped one, and hands down, for each next
      stage, a record and a step. */
  lemma AdvancedExactly(r: Record, b: Bundle, o: Outputs, stepKey: string -> string)
    requires Distinct(BuiltKeys(b)) && Distinct(GraphKeys(r.graph)) && (r.Importer() ==> r.graph == [])
    requires AdvanceOk(r, b, stepKey)
    ensures var a := Advanced(r, b, o, stepKey);
            && (forall x :: x in a.jobs <==> x in b.built && !IsRecorded(r, x.entry.key)) && Among(a.jobs, b.built)
            && (forall k :: k in a.placeholders <==>
              !r.Importer() && Replaces(r.continuation, b.skippedJobs, stepKey, k))
            && |a.records| == |a.next| == |a.steps|
            && (!r.Importer() ==> |a.jobs| + |a.placeholders| <= r.continuation.jobBudget)
            && forall n :: 0 <= n < |a.next| ==>
                 HandedDown(r, b, o, a, a.next[n], a.records[n]) && StageStepIs(b, a.next[n], a.steps[n])
  {
    hide EntriesOk, ContinuationsOk, NewJobs, SkippedSteps, NextOf, Handled, Writable, HandedDown, StageStepIs,
      Distinct,
      IsRecorded, Replaces, ChildRecord, StepOf, GatesAfter;
    EntriesExactly(r, b);
    NewJobsAmong(r, b, b.built);
    ReplacedExactly(r.continuation, b.skippedJobs, stepKey);
    forall n | 0 <= n < |Advanced(r, b, o, stepKey).next|
      ensures var a := Advanced(r, b, o, stepKey);
              HandedDown(r, b, o, a, a.next[n], a.records[n]) && StageStepIs(b, a.next[n], a.steps[n])
    {
      ChildIs(r, b, o, stepKey, n);
    }
  }
}
