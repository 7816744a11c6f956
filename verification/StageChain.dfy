/** stageRecord.advance: a stage recompiles the workflow, proves that it reproduced what earlier
    stages uploaded, and uploads what it owns. The compilation may return any bundle. */
module StageChain {
  import opened Pipelines
  import opened StageRecords

  /** One job instance of a bundle; locks maps the IDs of the actions it uses to their revisions. */
  datatype Built = Built(entry: Entry, platform: string, source: Source, locks: map<string, string>)

  /** steps maps the keys of generated steps to their approval gates, "" for none. */
  datatype Bundle = Bundle(
    built: seq<Built>, steps: map<string, string>, gates: set<string>,
    continuations: seq<Continuation>, skippedJobs: set<string>)

  /** The matrices this stage resolved: rows of each root, skipped roots, and results by producer. */
  datatype Outputs = Outputs(rows: map<string, nat>, skipped: set<string>, results: map<string, string>)

  datatype StageStep = StageStep(key: string, dependencies: seq<string>)

  datatype StageResult = StageResult(
    jobs: seq<Built>, placeholders: seq<string>, next: seq<Continuation>, records: seq<Record>, steps: seq<StageStep>)

  // ----- the jobs of the bundle -----

  function Recorded(graph: seq<Entry>): map<string, Entry> {
    if graph == [] then map[]
    else Recorded(graph[..|graph| - 1])[graph[|graph| - 1].key := graph[|graph| - 1]]
  }

  lemma {:induction false} RecordedEntries(graph: seq<Entry>)
    ensures forall k :: k in Recorded(graph) <==> k in GraphKeys(graph)
    ensures forall k :: k in Recorded(graph) ==> Recorded(graph)[k] in graph && Recorded(graph)[k].key == k
  {
    if graph != [] {
      var front, last := graph[..|graph| - 1], graph[|graph| - 1];
      RecordedEntries(front);
      assert graph == front + [last] && GraphKeys(graph) == GraphKeys(front) + [last.key];
    }
  }

  /** The same instance: key, job, plan, and dependencies up to their order. */
  predicate Same(a: Entry, b: Entry) {
    a.key == b.key && a.logicalJob == b.logicalJob && a.planDigest == b.planDigest &&
      multiset(a.needs) == multiset(b.needs)
  }

  datatype Fate = Reproduced | New | Rejected

  /** A job a later stage may upload: its own, on a known platform, from the recorded source and actions. */
  predicate Admissible(r: Record, x: Built) {
    var job, c := x.entry.logicalJob, r.continuation;
    && job in c.jobs && x.entry.key !in Recorded(r.graph) && x.platform in r.runtimes
    && job in c.sources && c.sources[job] == x.source
    && forall id :: id in x.locks ==> id in c.locks && c.locks[id] == x.locks[id]
  }

  function FateOf(r: Record, b: Bundle, x: Built): Fate {
    if x.entry.planDigest == "" then Rejected
    else if x.entry.key in Recorded(r.graph) && x.entry.logicalJob !in r.continuation.jobs then
      if Same(Recorded(r.graph)[x.entry.key], x.entry) then Reproduced else Rejected
    else if (r.Importer() || Admissible(r, x)) && x.entry.key in b.steps then New
    else Rejected
  }

  function KeysWith(r: Record, b: Bundle, xs: seq<Built>, fate: Fate): seq<string> {
    if xs == [] then []
    else KeysWith(r, b, xs[..|xs| - 1], fate) + if FateOf(r, b, xs[|xs| - 1]) == fate then [xs[|xs| - 1].entry.key]
      else []
  }

  function NewJobs(r: Record, b: Bundle, xs: seq<Built>): seq<Built> {
    if xs == [] then []
    else NewJobs(r, b, xs[..|xs| - 1]) + if FateOf(r, b, xs[|xs| - 1]).New? then [xs[|xs| - 1]] else []
  }

  function LogicalJobs(xs: seq<Built>): set<string> {
    set x | x in xs :: x.entry.logicalJob
  }

  /** Nothing is out of place, and every recorded job was compiled again. */
  ghost predicate EntriesOk(r: Record, b: Bundle) {
    && (forall x :: x in b.built ==> !FateOf(r, b, x).Rejected?)
    && |KeysWith(r, b, b.built, Reproduced)| == |Recorded(r.graph)|
  }

  method CheckEntries(r: Record, b: Bundle) returns (ok: bool, jobs: seq<Built>, compiled: set<string>)
    ensures ok <==> EntriesOk(r, b)
    ensures ok ==> jobs == NewJobs(r, b, b.built) && compiled == LogicalJobs(jobs)
  {
    hide FateOf;
    var reproduced := 0;
    jobs, compiled := [], {};
    for i := 0 to |b.built|
      invariant forall k :: 0 <= k < i ==> !FateOf(r, b, b.built[k]).Rejected?
      invariant reproduced == |KeysWith(r, b, b.built[..i], Reproduced)|
      invariant jobs == NewJobs(r, b, b.built[..i]) && compiled == LogicalJobs(jobs)
    {
      var x := b.built[i];
      assert b.built[..i + 1][..i] == b.built[..i];
      match FateOf(r, b, x) {
        case Rejected =>
          assert x in b.built;
          return false, [], {};
        case Reproduced => reproduced := reproduced + 1;
        case New =>
          jobs, compiled := jobs + [x], compiled + {x.entry.logicalJob};
      }
    }
    assert b.built[..|b.built|] == b.built;
    ok := reproduced == |Recorded(r.graph)|;
  }

  // ----- the continuations of the bundle -----

  function OtherSteps(others: seq<Continuation>): map<string, Continuation> {
    if others == [] then map[]
    else OtherSteps(others[..|others| - 1])[others[|others| - 1].stepKey := others[|others| - 1]]
  }

  ghost predicate NextOk(parent: Continuation, next: Continuation) {
    && ShapeOk(next)
    && (forall root :: root in next.Roots() ==> root.job in parent.later)
    && (forall job :: job in next.jobs ==> job in parent.jobs && SameInput(parent, next, job))
  }

  predicate SameInput(parent: Continuation, next: Continuation, job: string) {
    && (job in parent.sources <==> job in next.sources) &&
      (job in next.sources && job in parent.sources ==> parent.sources[job] == next.sources[job])
    && (job in parent.instances <==> job in next.instances)
    && (job in next.instances && job in parent.instances ==> parent.instances[job] == next.instances[job])
  }

  method CheckNextStage(parent: Continuation, next: Continuation) returns (ok: bool)
    ensures ok <==> NextOk(parent, next)
  {
    hide ShapeOk;
    ok := CheckShape(next);
    if !ok { return false; }
    ok := (forall root :: root in next.Roots() ==> root.job in parent.later) &&
          (forall job :: job in next.jobs ==> job in parent.jobs && SameInput(parent, next, job));
  }

  /** left: recorded continuations not met yet; next: those a later stage of this one expands. */
  datatype Matching = Matching(left: map<string, Continuation>, next: seq<Continuation>) | Mismatch

  ghost function Match(r: Record, m: Matching, c: Continuation): Matching {
    if m.Mismatch? then Mismatch
    else if c.stepKey in m.left then
      if m.left[c.stepKey] == c then m.(left := m.left - {c.stepKey}) else Mismatch
    else if r.Importer() then m.(next := m.next + [c])
    else if c.first.job in r.continuation.later && m.next == [] && NextOk(r.continuation, c) then
      m.(next := [c.(locks := r.continuation.locks)])
    else Mismatch
  }

  ghost function Matched(r: Record, cs: seq<Continuation>): Matching {
    if cs == [] then Matching(OtherSteps(r.others), [])
    else Match(r, Matched(r, cs[..|cs| - 1]), cs[|cs| - 1])
  }

  ghost predicate ContinuationsOk(r: Record, b: Bundle) {
    var m := Matched(r, b.continuations);
    m.Matching? && m.left == map[]
  }

  /** What the stage leaves deferred for later stages. */
  ghost function NextOf(r: Record, b: Bundle): seq<Continuation> {
    var m := Matched(r, b.continuations);
    if m.Matching? then m.next else []
  }

  lemma {:induction false} MismatchStays(r: Record, cs: seq<Continuation>, n: nat)
    requires n <= |cs| && Matched(r, cs[..n]).Mismatch?
    ensures Matched(r, cs).Mismatch?
  {
    if n == |cs| {
      assert cs[..n] == cs;
    } else {
      assert cs[..|cs| - 1][..n] == cs[..n];
      MismatchStays(r, cs[..|cs| - 1], n);
    }
  }

  method CheckContinuations(r: Record, b: Bundle) returns (ok: bool, next: seq<Continuation>)
    ensures ok <==> ContinuationsOk(r, b)
    ensures ok ==> next == NextOf(r, b)
  {
    hide NextOk;
    var others := map[];
    for i := 0 to |r.others|
      invariant others == OtherSteps(r.others[..i])
    {
      assert r.others[..i + 1][..i] == r.others[..i];
      others := others[r.others[i].stepKey := r.others[i]];
    }
    assert r.others[..|r.others|] == r.others;
    next := [];
    for i := 0 to |b.continuations|
      invariant Matched(r, b.continuations[..i]) == Matching(others, next)
    {
      var c := b.continuations[i];
      assert b.continuations[..i + 1][..i] == b.continuations[..i];
      if c.stepKey in others {
        if others[c.stepKey] != c {
          MismatchStays(r, b.continuations, i + 1);
          return false, [];
        }
        others := others - {c.stepKey};
      } else if r.Importer() {
        next := next + [c];
      } else {
        var fits := CheckNextStage(r.continuation, c);
        if c.first.job !in r.continuation.later || next != [] || !fits {
          MismatchStays(r, b.continuations, i + 1);
          return false, [];
        }
        next := [c.(locks := r.continuation.locks)];
      }
    }
    assert b.continuations[..|b.continuations|] == b.continuations;
    ok := others == map[];
  }

  // ----- skipped jobs -----

  function InstanceKeys(all: seq<Instance>): (keys: seq<string>)
    ensures |keys| == |all|
  {
    seq(|all|, i requires 0 <= i < |all| => all[i].key)
  }

  function Placeholders(c: Continuation, job: string, stepKey: string -> string): (keys: seq<string>)
    ensures |keys| == PlaceholderCount(c, job)
  {
    if job in c.instances && c.instances[job] != [] then InstanceKeys(c.instances[job]) else [stepKey(job)]
  }

  function SkippedSteps(c: Continuation, jobs: seq<string>, skipped: set<string>,
                        stepKey: string -> string): seq<string> {
    if jobs == [] then []
    else
      var last := jobs[|jobs| - 1];
      SkippedSteps(c, jobs[..|jobs| - 1], skipped, stepKey) + if last in skipped then Placeholders(c, last, stepKey)
        else []
  }

  lemma {:induction false} SkippedFit(c: Continuation, jobs: seq<string>, skipped: set<string>,
                                      stepKey: string -> string)
    ensures |SkippedSteps(c, jobs, skipped, stepKey)| <= PlaceholdersOf(c, jobs)
    ensures (forall j :: j in jobs ==> j in skipped) ==>
        |SkippedSteps(c, jobs, skipped, stepKey)| == PlaceholdersOf(c, jobs)
  {
    hide PlaceholderCount;
    if jobs != [] {
      SkippedFit(c, jobs[..|jobs| - 1], skipped, stepKey);
      assert jobs == jobs[..|jobs| - 1] + [jobs[|jobs| - 1]];
    }
  }

  method SkippedJobs(c: Continuation, skipped: set<string>, stepKey: string -> string) returns (keys: seq<string>)
    ensures keys == SkippedSteps(c, c.jobs, skipped, stepKey)
  {
    keys := [];
    for i := 0 to |c.jobs|
      invariant keys == SkippedSteps(c, c.jobs[..i], skipped, stepKey)
    {
      assert c.jobs[..i + 1][..i] == c.jobs[..i];
      if c.jobs[i] in skipped {
        keys := keys + Placeholders(c, c.jobs[i], stepKey);
      }
    }
    assert c.jobs[..|c.jobs|] == c.jobs;
  }

  // ----- the records and steps of the next stages -----

  function Entries(xs: seq<Built>): (es: seq<Entry>)
    ensures |es| == |xs| && forall i :: 0 <= i < |xs| ==> es[i] == xs[i].entry
  {
    seq(|xs|, i requires 0 <= i < |xs| => xs[i].entry)
  }

  function Except(cs: seq<Continuation>, stepKey: string): seq<Continuation> {
    if cs == [] then []
    else Except(cs[..|cs| - 1], stepKey) + if cs[|cs| - 1].stepKey == stepKey then [] else [cs[|cs| - 1]]
  }

  function At<T>(m: map<string, T>, k: string, default: T): T {
    if k in m then m[k] else default
  }

  function ResolvedBy(roots: seq<Root>, o: Outputs): (ms: seq<Resolved>)
    ensures |ms| == |roots| && forall i :: 0 <= i < |roots| ==> ms[i].job == roots[i].job
  {
    seq(|roots|, i requires 0 <= i < |roots| =>
      Resolved(roots[i].job, At(o.rows, roots[i].job, 0), roots[i].job in o.skipped,
               roots[i].producerStepKey, At(o.results, roots[i].producerStepKey, "")))
  }

  function GatesAfter(r: Record, b: Bundle, jobs: seq<Built>): set<string> {
    r.approvalGates + (if r.Importer() then b.gates else {}) +
    (set x | x in jobs && x.entry.key in b.steps && b.steps[x.entry.key] != "" :: b.steps[x.entry.key])
  }

  function ChildRecord(r: Record, b: Bundle, o: Outputs, next: Continuation, uploaded: nat,
                       gates: set<string>): Record {
    Record(r.namespace, r.runtimes,
           if r.Importer() then next else next.(jobBudget := r.continuation.jobBudget - uploaded),
           Except(b.continuations, next.stepKey),
           if r.Importer() then r.resolved else r.resolved + ResolvedBy(r.continuation.Roots(), o),
           Entries(b.built), gates)
  }

  /** The producers of the roots are compiled, and the first of them has a step to copy from. */
  predicate Writable(b: Bundle, c: Continuation) {
    && (forall root :: root in c.Roots() ==> root.producerStepKey in GraphKeys(Entries(b.built)))
    && c.first.producerStepKey in b.steps
  }

  function Producers(roots: seq<Root>): seq<string> {
    if roots == [] then []
    else
      var front, last := Producers(roots[..|roots| - 1]), roots[|roots| - 1].producerStepKey;
      if last in front then front else front + [last]
  }

  /** With scheduling, the step waits for every job compiled so far; otherwise for each producer once. */
  function StepOf(b: Bundle, c: Continuation): StageStep {
    StageStep(c.stepKey, if c.scheduling then GraphKeys(Entries(b.built)) else Producers(c.Roots()))
  }

  method WriteStep(b: Bundle, c: Continuation) returns (r: Result<StageStep>)
    ensures r.Ok? <==> Writable(b, c)
    ensures r.Ok? ==> r.value == StepOf(b, c)
  {
    var keys := GraphKeys(Entries(b.built));
    var dependencies := [];
    var roots := c.Roots();
    for i := 0 to |roots|
      invariant forall k :: 0 <= k < i ==> roots[k].producerStepKey in keys
      invariant dependencies == Producers(roots[..i])
    {
      assert roots[..i + 1][..i] == roots[..i];
      if roots[i].producerStepKey !in keys {
        assert roots[i] in roots;
        return Err("a matrix producer has no plan");
      }
      if roots[i].producerStepKey !in dependencies {
        dependencies := dependencies + [roots[i].producerStepKey];
      }
    }
    assert roots[..|roots|] == roots;
    if c.scheduling {
      dependencies := keys;
    }
    if c.first.producerStepKey !in b.steps {
      return Err("the matrix producer has no generated step");
    }
    r := Ok(StageStep(c.stepKey, dependencies));
  }

  function ChildRecords(r: Record, b: Bundle, o: Outputs, next: seq<Continuation>, uploaded: nat,
                        gates: set<string>): (rs: seq<Record>)
    ensures |rs| == |next| && forall i :: 0 <= i < |next| ==> rs[i] == ChildRecord(r, b, o, next[i], uploaded, gates)
  {
    seq(|next|, i requires 0 <= i < |next| => ChildRecord(r, b, o, next[i], uploaded, gates))
  }

  function StepsOf(b: Bundle, next: seq<Continuation>): (ss: seq<StageStep>)
    ensures |ss| == |next| && forall i :: 0 <= i < |next| ==> ss[i] == StepOf(b, next[i])
  {
    seq(|next|, i requires 0 <= i < |next| => StepOf(b, next[i]))
  }

  // ----- the stage -----

  /** Each owned job is compiled, skipped, or handed to the next stage. */
  predicate Handled(r: Record, b: Bundle, compiled: set<string>, next: seq<Continuation>) {
    forall job :: job in r.continuation.jobs ==>
      job in compiled || job in b.skippedJobs || (next != [] && job in next[0].jobs)
  }

  function UploadCount(r: Record, b: Bundle, stepKey: string -> string): nat {
    |NewJobs(r, b, b.built)| +
    if r.Importer() then 0 else |SkippedSteps(r.continuation, r.continuation.jobs, b.skippedJobs, stepKey)|
  }

  ghost predicate AdvanceOk(r: Record, b: Bundle, stepKey: string -> string) {
    && EntriesOk(r, b)
    && ContinuationsOk(r, b)
    && (!r.Importer() ==>
          Handled(r, b, LogicalJobs(NewJobs(r, b, b.built)), NextOf(r, b)) &&
          UploadCount(r, b, stepKey) <= r.continuation.jobBudget)
    && forall c :: c in NextOf(r, b) ==> Writable(b, c)
  }

  ghost function Advanced(r: Record, b: Bundle, o: Outputs, stepKey: string -> string): StageResult
    requires AdvanceOk(r, b, stepKey)
  {
    var jobs, next := NewJobs(r, b, b.built), NextOf(r, b);
    StageResult(jobs,
                if r.Importer() then [] else SkippedSteps(r.continuation, r.continuation.jobs, b.skippedJobs, stepKey),
                next, ChildRecords(r, b, o, next, UploadCount(r, b, stepKey), GatesAfter(r, b, jobs)), StepsOf(b, next))
  }

  /** Checks a compilation against the record and says what the stage adds to the build. */
  method Advance(r: Record, b: Bundle, o: Outputs, stepKey: string -> string) returns (result: Result<StageResult>)
    ensures result.Ok? <==> AdvanceOk(r, b, stepKey)
    ensures result.Ok? ==> result.value == Advanced(r, b, o, stepKey)
  {
    hide EntriesOk, ContinuationsOk, NextOf, NewJobs, SkippedSteps, GatesAfter, ChildRecord, StepOf, Writable, Recorded;
    var ok, jobs, compiled := CheckEntries(r, b);
    if !ok { return Err("the workflow inputs changed"); }
    var next;
    ok, next := CheckContinuations(r, b);
    if !ok { return Err("the deferred steps of the workflow changed"); }
    var placeholders := [];
    if !r.Importer() {
      for i := 0 to |r.continuation.jobs|
        invariant forall k :: 0 <= k < i ==>
          var job := r.continuation.jobs[k];
          job in compiled || job in b.skippedJobs || (next != [] && job in next[0].jobs)
      {
        var job := r.continuation.jobs[i];
        if job !in compiled && job !in b.skippedJobs && (next == [] || job !in next[0].jobs) {
          assert job in r.continuation.jobs;
          return Err("a deferred job was neither compiled nor deferred");
        }
      }
      placeholders := SkippedJobs(r.continuation, b.skippedJobs, stepKey);
      if |jobs| + |placeholders| > r.continuation.jobBudget { return Err("the stage exceeds its job budget"); }
    }
    var gates := GatesAfter(r, b, jobs);
    var records, steps := [], [];
    for i := 0 to |next|
      invariant forall k :: 0 <= k < i ==> Writable(b, next[k])
      invariant |records| == i && forall k :: 0 <= k < i ==>
          records[k] == ChildRecord(r, b, o, next[k], |jobs| + |placeholders|, gates)
      invariant |steps| == i && forall k :: 0 <= k < i ==> steps[k] == StepOf(b, next[k])
    {
      var step := WriteStep(b, next[i]);
      if step.Err? {
        assert next[i] in next;
        return Err(step.reason);
      }
      records := records + [ChildRecord(r, b, o, next[i], |jobs| + |placeholders|, gates)];
      steps := steps + [step.value];
    }
    assert records == ChildRecords(r, b, o, next, |jobs| + |placeholders|, gates);
    assert steps == StepsOf(b, next);
    result := Ok(StageResult(jobs, placeholders, next, records, steps));
  }
}
