/** ProcessingReport.Finalize and compactDiagnostics. */
module Diagnostics {
  import opened Pipelines
  import opened StableOrder

  datatype Location = Location(path: string, line: int, column: int)

  datatype Diagnostic = Diagnostic(
    level: string, code: string, category: string, stage: string, blocker: string, blockerDetail: string,
    runnerLabelDetail: string, message: string, detail: string, setupURL: string, location: Option<Location>,
    job: string, instance: string, action: string, step: int)

  /** What makes two diagnostics the same finding; the instance is not part of it. */
  datatype Finding = Finding(
    level: string, code: string, category: string, stage: string, blocker: string, blockerDetail: string,
    message: string, detail: string, setupURL: string, location: Option<Location>, job: string, action: string,
      step: int)

  function FindingOf(d: Diagnostic): Finding {
    var policy := d.blocker == "runner_policy";
    Finding(d.level, d.code, d.category, d.stage,
            if policy then "runner_label" else d.blocker, if policy then d.runnerLabelDetail else d.blockerDetail,
            d.message, d.detail, d.setupURL, d.location, d.job, d.action, d.step)
  }

  // ----- what compaction computes -----

  function Place(out: seq<Diagnostic>, f: Finding): (i: nat)
    ensures i <= |out| && (i < |out| ==> FindingOf(out[i]) == f) && forall k :: 0 <= k < i ==> FindingOf(out[k]) != f
  {
    if out == [] then 0
    else if FindingOf(out[0]) == f then 0
    else
      var rest := Place(out[1..], f);
      assert forall k :: 1 <= k < rest + 1 ==> out[k] == out[1..][k - 1];
      rest + 1
  }

  /** One more diagnostic: a new finding is added, a known one loses an instance it does not share. */
  function Merged(out: seq<Diagnostic>, d: Diagnostic): seq<Diagnostic> {
    var i := Place(out, FindingOf(d));
    if i == |out| then out + [d]
    else if out[i].instance == d.instance then out
    else out[i := out[i].(instance := "")]
  }

  function Compacted(ds: seq<Diagnostic>): seq<Diagnostic> {
    if ds == [] then [] else Merged(Compacted(ds[..|ds| - 1]), ds[|ds| - 1])
  }

  // ----- what it means -----

  ghost predicate OneEach(out: seq<Diagnostic>) {
    forall i, j :: 0 <= i < j < |out| ==> FindingOf(out[i]) != FindingOf(out[j])
  }

  function Findings(ds: seq<Diagnostic>): set<Finding> {
    set d | d in ds :: FindingOf(d)
  }

  /** The findings in the order in which they first occur. */
  function FirstOccurrences(ds: seq<Diagnostic>): seq<Finding> {
    if ds == [] then []
    else
      var front, last := ds[..|ds| - 1], FindingOf(ds[|ds| - 1]);
      FirstOccurrences(front) + if last in Findings(front) then [] else [last]
  }

  /** The first diagnostic of a finding, with its instance if all of them share it. */
  ghost predicate Represents(ds: seq<Diagnostic>, d: Diagnostic) {
    exists i :: 0 <= i < |ds| && IsFirst(ds, i) && d == ds[i].(instance := d.instance) &&
      d.instance == if SharesInstance(ds, ds[i]) then ds[i].instance else ""
  }

  ghost predicate IsFirst(ds: seq<Diagnostic>, i: nat)
    requires i < |ds|
  {
    forall k :: 0 <= k < i ==> FindingOf(ds[k]) != FindingOf(ds[i])
  }

  ghost predicate SharesInstance(ds: seq<Diagnostic>, d: Diagnostic) {
    forall e :: e in ds && FindingOf(e) == FindingOf(d) ==> e.instance == d.instance
  }

  lemma FindingIgnoresInstance(d: Diagnostic, instance: string)
    ensures FindingOf(d.(instance := instance)) == FindingOf(d)
  {
  }

  lemma MergedFindings(out: seq<Diagnostic>, d: Diagnostic)
    ensures |Merged(out, d)| == |out| + if FindingOf(d) in Findings(out) then 0 else 1
    ensures forall i :: 0 <= i < |out| ==> FindingOf(Merged(out, d)[i]) == FindingOf(out[i])
    ensures FindingOf(d) !in Findings(out) ==> Merged(out, d) == out + [d]
    ensures OneEach(out) ==> OneEach(Merged(out, d))
  {
    hide FindingOf;
    var i := Place(out, FindingOf(d));
    if i < |out| {
      assert out[i] in out;
      FindingIgnoresInstance(out[i], "");
    } else {
      forall e | e in out ensures FindingOf(e) != FindingOf(d) {
        var k :| 0 <= k < |out| && out[k] == e;
      }
    }
  }

  function FindingSeq(ds: seq<Diagnostic>): (fs: seq<Finding>)
    ensures |fs| == |ds| && forall i :: 0 <= i < |ds| ==> fs[i] == FindingOf(ds[i])
  {
    seq(|ds|, i requires 0 <= i < |ds| => FindingOf(ds[i]))
  }

  lemma {:induction false} CompactedFindings(ds: seq<Diagnostic>)
    ensures OneEach(Compacted(ds)) && Findings(Compacted(ds)) == Findings(ds)
    ensures FindingSeq(Compacted(ds)) == FirstOccurrences(ds)
  {
    hide FindingOf, Merged;
    if ds != [] {
      var front, last := ds[..|ds| - 1], ds[|ds| - 1];
      CompactedFindings(front);
      MergedFindings(Compacted(front), last);
      assert ds == front + [last];
      SameFindings(Compacted(front), Compacted(ds), last);
      assert Findings(ds) == Findings(front) + {FindingOf(last)};
      if FindingOf(last) in Findings(front) {
        assert FindingSeq(Compacted(ds)) == FindingSeq(Compacted(front)) + [];
      }
    }
  }

  lemma SameFindings(out: seq<Diagnostic>, merged: seq<Diagnostic>, d: Diagnostic)
    requires |merged| == |out| + if FindingOf(d) in Findings(out) then 0 else 1
    requires forall i :: 0 <= i < |out| ==> FindingOf(merged[i]) == FindingOf(out[i])
    requires FindingOf(d) !in Findings(out) ==> merged == out + [d]
    ensures Findings(merged) == Findings(out) + {FindingOf(d)}
  {
    hide FindingOf;
    forall f ensures f in Findings(merged) <==> f in Findings(out) || f == FindingOf(d) {
      if f in Findings(out) {
        var e :| e in out && FindingOf(e) == f;
        var i :| 0 <= i < |out| && out[i] == e;
        assert merged[i] in merged;
      }
      if f in Findings(merged) {
        var e :| e in merged && FindingOf(e) == f;
        var i :| 0 <= i < |merged| && merged[i] == e;
        if i < |out| { assert out[i] in out; }
      }
      if f == FindingOf(d) && f !in Findings(out) { assert d in merged; }
    }
  }

  /** A diagnostic that stands for the earlier ones stands for one more of another finding. */
  lemma RepresentsOther(front: seq<Diagnostic>, d: Diagnostic, last: Diagnostic)
    requires Represents(front, d) && FindingOf(last) != FindingOf(d)
    ensures Represents(front + [last], d)
  {
    hide FindingOf;
    var ds := front + [last];
    var i :| 0 <= i < |front| && IsFirst(front, i) && d == front[i].(instance := d.instance) &&
      d.instance == if SharesInstance(front, front[i]) then front[i].instance else "";
    FindingIgnoresInstance(front[i], d.instance);
    assert ds[i] == front[i] && IsFirst(ds, i);
    assert forall e :: e in ds <==> e in front || e == last;
    assert SharesInstance(ds, ds[i]) <==> SharesInstance(front, front[i]);
  }

  /** And for one more of the same finding, once its instance has been compared. */
  lemma RepresentsSame(front: seq<Diagnostic>, d: Diagnostic, last: Diagnostic)
    requires Represents(front, d) && FindingOf(last) == FindingOf(d)
    ensures Represents(front + [last], if d.instance == last.instance then d else d.(instance := ""))
  {
    hide FindingOf;
    var ds := front + [last];
    var i :| 0 <= i < |front| && IsFirst(front, i) && d == front[i].(instance := d.instance) &&
      d.instance == if SharesInstance(front, front[i]) then front[i].instance else "";
    FindingIgnoresInstance(front[i], d.instance);
    assert ds[i] == front[i] && IsFirst(ds, i);
    assert forall e :: e in ds <==> e in front || e == last;
    assert SharesInstance(ds, ds[i]) <==> SharesInstance(front, front[i]) && last.instance == front[i].instance;
  }

  lemma RepresentsNew(front: seq<Diagnostic>, last: Diagnostic)
    requires FindingOf(last) !in Findings(front)
    ensures Represents(front + [last], last)
  {
    hide FindingOf;
    var ds := front + [last];
    forall k | 0 <= k < |front| ensures FindingOf(ds[k]) != FindingOf(last) { assert front[k] in front; }
    assert ds[|front|] == last && IsFirst(ds, |front|);
    forall e | e in ds && FindingOf(e) == FindingOf(last) ensures e.instance == last.instance {
      assert e in front || e == last;
    }
    assert SharesInstance(ds, ds[|front|]);
  }

  /** Every entry of the result is the first diagnostic of its finding, and keeps the instance exactly
      when all diagnostics of that finding share it. */
  lemma {:induction false} CompactedRepresents(ds: seq<Diagnostic>, j: nat)
    requires j < |Compacted(ds)|
    ensures Represents(ds, Compacted(ds)[j])
  {
    hide FindingOf, Represents;
    var front, last := ds[..|ds| - 1], ds[|ds| - 1];
    var out := Compacted(front);
    assert ds == front + [last];
    CompactedFindings(front);
    MergedFindings(out, last);
    var i := Place(out, FindingOf(last));
    if j == |out| {
      RepresentsNew(front, last);
    } else {
      CompactedRepresents(front, j);
      if j == i {
        RepresentsSame(front, out[j], last);
      } else {
        assert FindingOf(out[j]) != FindingOf(last) by { OtherPlace(out, last, j); }
        RepresentsOther(front, out[j], last);
      }
    }
  }

  lemma OtherPlace(out: seq<Diagnostic>, d: Diagnostic, j: nat)
    requires OneEach(out) && j < |out| && j != Place(out, FindingOf(d))
    ensures FindingOf(out[j]) != FindingOf(d)
  {
    hide FindingOf;
    var i := Place(out, FindingOf(d));
    if i < |out| && j != i {
      if i < j { assert FindingOf(out[i]) != FindingOf(out[j]); }
    }
  }

  /** A compacted list is left alone. */
  lemma {:induction false} CompactedStays(ds: seq<Diagnostic>)
    requires OneEach(ds)
    ensures Compacted(ds) == ds
  {
    hide FindingOf;
    if ds != [] {
      var front, last := ds[..|ds| - 1], ds[|ds| - 1];
      CompactedStays(front);
      assert forall k :: 0 <= k < |front| ==> FindingOf(ds[k]) != FindingOf(ds[|ds| - 1]);
      PlaceIs(front, FindingOf(last), |front|);
      assert ds == front + [last];
    }
  }

  // ----- compaction in place -----

  /** Where a finding was written, and the instances it was seen with; None once one had no instance. */
  datatype Seen = Seen(index: nat, instances: Option<set<string>>)

  ghost predicate Tracked(out: seq<Diagnostic>, seen: map<Finding, Seen>) {
    && seen.Keys == Findings(out)
    && forall f :: f in seen ==> SeenOk(out, f, seen[f])
  }

  ghost predicate SeenOk(out: seq<Diagnostic>, f: Finding, s: Seen) {
    && s.index < |out| && s.index == Place(out, f)
    && (s.instances.None? ==> out[s.index].instance == "")
    && (s.instances.Some? ==>
          "" !in s.instances.value &&
          (out[s.index].instance != "" ==> s.instances.value == {out[s.index].instance}))
  }

  /** What the loop does with one diagnostic, on the record of what was seen. */
  function SeenAfter(s: Seen, instance: string): Seen {
    if instance == "" then s.(instances := None)
    else if s.instances.None? then s
    else s.(instances := Some(s.instances.value + {instance}))
  }

  predicate ClearsInstance(s: Seen, instance: string) {
    instance == "" || (s.instances.Some? && instance !in s.instances.value)
  }

  lemma ClearingMerges(out: seq<Diagnostic>, seen: map<Finding, Seen>, d: Diagnostic)
    requires Tracked(out, seen) && FindingOf(d) in seen
    ensures var s := seen[FindingOf(d)];
            && s.index < |out|
            && Merged(out, d) == (if ClearsInstance(s, d.instance) then out[s.index := out[s.index].(instance := "")]
              else out)
            && Tracked(Merged(out, d), seen[FindingOf(d) := SeenAfter(s, d.instance)])
  {
    hide FindingOf, Place, Findings, SeenOk, Merged, SeenAfter, ClearsInstance;
    var f := FindingOf(d);
    var s := seen[f];
    assert SeenOk(out, f, s);
    SelfMerges(out, f, s, d);
    var after := Merged(out, d);
    SamePlaces(out, after);
    assert seen[f := SeenAfter(s, d.instance)].Keys == seen.Keys;
    forall g | g in seen && g != f ensures SeenOk(after, g, seen[g]) {
      assert SeenOk(out, g, seen[g]);
      OtherStaysSeen(out, after, f, s, g, seen[g]);
    }
  }

  lemma SelfMerges(out: seq<Diagnostic>, f: Finding, s: Seen, d: Diagnostic)
    requires SeenOk(out, f, s) && FindingOf(d) == f
    ensures s.index < |out|
    ensures Merged(out, d) == if ClearsInstance(s, d.instance) then out[s.index := out[s.index].(instance := "")]
        else out
    ensures forall i :: 0 <= i < |out| ==> FindingOf(Merged(out, d)[i]) == FindingOf(out[i])
    ensures SeenOk(Merged(out, d), f, SeenAfter(s, d.instance))
  {
    hide FindingOf, Place;
    FindingIgnoresInstance(out[s.index], "");
    if out[s.index].instance == "" { assert out[s.index := out[s.index].(instance := "")] == out; }
    var after := Merged(out, d);
    SamePlaces(out, after);
  }

  lemma OtherStaysSeen(out: seq<Diagnostic>, after: seq<Diagnostic>, f: Finding, s: Seen, g: Finding, t: Seen)
    requires SeenOk(out, f, s) && SeenOk(out, g, t) && f != g && Place(after, g) == Place(out, g)
    requires after == out || after == out[s.index := out[s.index].(instance := "")]
    ensures SeenOk(after, g, t)
  {
    hide FindingOf, Place;
    PlacesDiffer(out, f, g);
  }

  lemma PlacesDiffer(out: seq<Diagnostic>, f: Finding, g: Finding)
    requires f != g && Place(out, f) < |out| && Place(out, g) < |out|
    ensures Place(out, f) != Place(out, g)
  {
  }

  lemma PlaceIs(out: seq<Diagnostic>, f: Finding, i: nat)
    requires i <= |out| && forall k :: 0 <= k < i ==> FindingOf(out[k]) != f
    requires i < |out| ==> FindingOf(out[i]) == f
    ensures Place(out, f) == i
  {
    hide FindingOf;
  }

  lemma SamePlaces(a: seq<Diagnostic>, b: seq<Diagnostic>)
    requires |a| == |b| && forall i :: 0 <= i < |a| ==> FindingOf(a[i]) == FindingOf(b[i])
    ensures forall f :: Place(a, f) == Place(b, f)
    ensures Findings(a) == Findings(b)
  {
    hide FindingOf;
    forall f ensures Place(a, f) == Place(b, f) {
      PlaceIs(b, f, Place(a, f));
    }
    forall f ensures f in Findings(a) <==> f in Findings(b) {
      InFindings(a, f);
      InFindings(b, f);
    }
  }

  lemma InFindings(ds: seq<Diagnostic>, f: Finding)
    ensures f in Findings(ds) <==> Place(ds, f) < |ds|
  {
    hide FindingOf;
    if d :| d in ds && FindingOf(d) == f {
      var i :| 0 <= i < |ds| && ds[i] == d;
    }
    if Place(ds, f) < |ds| { assert ds[Place(ds, f)] in ds; }
  }

  lemma AddingMerges(out: seq<Diagnostic>, seen: map<Finding, Seen>, d: Diagnostic)
    requires Tracked(out, seen) && FindingOf(d) !in seen
    ensures Merged(out, d) == out + [d]
    ensures Tracked(out + [d], seen[FindingOf(d) := Seen(|out|, if d.instance == "" then None else Some({d.instance}))])
  {
    hide FindingOf, Place;
    var f := FindingOf(d);
    InFindings(out, f);
    var after := out + [d];
    assert Findings(after) == Findings(out) + {f};
    forall g | g in seen ensures SeenOk(after, g, seen[g]) {
      assert SeenOk(out, g, seen[g]);
      PlaceInMore(out, d, g);
    }
    PlaceInMore(out, d, f);
  }

  lemma PlaceInMore(out: seq<Diagnostic>, d: Diagnostic, f: Finding)
    ensures Place(out, f) < |out| ==> Place(out + [d], f) == Place(out, f)
    ensures Place(out, f) == |out| && FindingOf(d) == f ==> Place(out + [d], f) == |out|
  {
    hide FindingOf;
    var after := out + [d];
    assert forall k :: 0 <= k < |out| ==> after[k] == out[k];
    if Place(out, f) < |out| || FindingOf(d) == f { PlaceIs(after, f, Place(out, f)); }
  }

  /** Compacts over the array it reads: what is written never runs ahead of what is read. */
  method CompactDiagnostics(a: array<Diagnostic>) returns (n: nat)
    modifies a
    ensures n <= a.Length && a[..n] == Compacted(old(a[..]))
  {
    hide Compacted, Merged, Tracked, FindingOf, SeenAfter, ClearsInstance;
    ghost var read := a[..];
    NothingSeen();
    if a.Length < 2 {
      ShortStays(read);
      return a.Length;
    }
    var seen: map<Finding, Seen> := map[];
    n := 0;
    for i := 0 to a.Length
      invariant n <= i && a[i..] == read[i..]
      invariant a[..n] == Compacted(read[..i])
      invariant Tracked(a[..n], seen)
    {
      var d := a[i];
      assert d == a[i..][0] == read[i];
      CompactedStep(read, i);
      var f := FindingOf(d);
      ghost var out := a[..n];
      if f in seen {
        var s := seen[f];
        ClearingMerges(out, seen, d);
        if ClearsInstance(s, d.instance) {
          a[s.index] := a[s.index].(instance := "");
          assert a[..n] == out[s.index := out[s.index].(instance := "")];
        }
        seen := seen[f := SeenAfter(s, d.instance)];
      } else {
        AddingMerges(out, seen, d);
        seen := seen[f := Seen(n, if d.instance == "" then None else Some({d.instance}))];
        a[n] := d;
        n := n + 1;
        assert a[..n] == out + [d];
      }
      assert a[i + 1..] == read[i + 1..];
    }
    assert read[..a.Length] == read;
  }

  lemma NothingSeen()
    ensures Compacted([]) == [] && Tracked([], map[])
  {
  }

  lemma ShortStays(ds: seq<Diagnostic>)
    requires |ds| < 2
    ensures Compacted(ds) == ds
  {
    if |ds| == 1 { assert ds[..0] == []; }
  }

  lemma CompactedStep(ds: seq<Diagnostic>, i: nat)
    requires i < |ds|
    ensures Compacted(ds[..i + 1]) == Merged(Compacted(ds[..i]), ds[i])
  {
    assert ds[..i + 1][..i] == ds[..i];
  }

  // ----- the report -----

  datatype JobResult = JobResult(id: string, instance: string, result: string)

  datatype ActionResult = ActionResult(reference: string, job: string, step: int, result: string)

  const PASSED := "passed"
  const FAILED := "failed"
  const NOT_EVALUATED := "not-evaluated"

  function StageOrder(stages: seq<string>, stage: string): int {
    if stages == [] then 0
    else if stages[|stages| - 1] == stage then |stages| - 1
    else StageOrder(stages[..|stages| - 1], stage)
  }

  function JobSortKey(j: JobResult): Key { [Str(j.id), Str(j.instance)] }

  function ActionSortKey(a: ActionResult): Key { [Str(a.job), Num(a.step), Str(a.reference)] }

  function DiagnosticSortKey(stages: seq<string>, d: Diagnostic): Key {
    var l := if d.location.Some? then d.location.value else Location("", 0, 0);
    [Num(StageOrder(stages, d.stage)), Str(l.path), Num(l.line), Num(l.column), Str(d.code), Str(d.message),
      Str(d.detail), Str(d.setupURL)]
  }

  function ByStage(stages: seq<string>): Diagnostic -> Key {
    (d: Diagnostic) => DiagnosticSortKey(stages, d)
  }

  /** The first decided stage that failed fails the report; otherwise one that passed passes it. */
  function StageStatus(results: seq<string>): string {
    if results == [] then NOT_EVALUATED
    else
      var front, last := StageStatus(results[..|results| - 1]), results[|results| - 1];
      if front == FAILED || last == FAILED then FAILED else if last == PASSED then PASSED else front
  }

  predicate HasError(ds: seq<Diagnostic>) {
    exists d :: d in ds && d.level == "error"
  }

  function StatusOf(results: seq<string>, ds: seq<Diagnostic>): string {
    if HasError(ds) then FAILED else StageStatus(results)
  }

  datatype Report = Report(
    results: seq<string>, status: string, result: string, jobs: seq<JobResult>, actions: seq<ActionResult>,
      diagnostics: seq<Diagnostic>)

  /** stages are the stage definitions in order. */
  function Finalized(stages: seq<string>, r: Report): Report {
    var status := StatusOf(r.results, r.diagnostics);
    Report(r.results, status, if r.result == NOT_EVALUATED then status else r.result,
           StableSort(r.jobs, JobSortKey), StableSort(r.actions, ActionSortKey),
           Compacted(StableSort(r.diagnostics, ByStage(stages))))
  }

  class ProcessingReport {
    const stages: seq<string>
    var results: seq<string>
    var status: string
    var result: string
    var jobs: seq<JobResult>
    var actions: seq<ActionResult>
    var diagnostics: array<Diagnostic>
    var count: nat

    constructor (stages: seq<string>, results: seq<string>, jobs: seq<JobResult>, actions: seq<ActionResult>,
      diagnostics: array<Diagnostic>)
      ensures Valid() && Now() == Report(results, NOT_EVALUATED, NOT_EVALUATED, jobs, actions, diagnostics[..])
      ensures this.stages == stages && this.diagnostics == diagnostics
    {
      this.stages, this.results, this.jobs, this.actions, this.diagnostics := stages, results, jobs, actions,
        diagnostics;
      status, result, count := NOT_EVALUATED, NOT_EVALUATED, diagnostics.Length;
    }

    ghost predicate Valid()
      reads this
    {
      count <= diagnostics.Length
    }

    function Now(): Report
      requires Valid()
      reads this, diagnostics
    {
      Report(results, status, result, jobs, actions, diagnostics[..count])
    }

    /** Works on a copy of the diagnostics: an array that is shared with an earlier copy of the report
        is not written. */
    method Finalize()
      requires Valid()
      modifies this
      ensures Valid() && fresh(diagnostics)
      ensures Now() == Finalized(stages, old(Now()))
    {
      hide StableSort, Compacted, StatusOf;
      ghost var before := Now();
      var ds := diagnostics[..count];
      var found := ComputeStatus(results, ds);
      status := found;
      if result == NOT_EVALUATED {
        result := status;
      }
      jobs := StableSort(jobs, JobSortKey);
      actions := StableSort(actions, ActionSortKey);
      var sorted := StableSort(ds, ByStage(stages));
      diagnostics := new Diagnostic[|sorted|](i requires 0 <= i < |sorted| => sorted[i]);
      assert diagnostics[..] == sorted;
      count := CompactDiagnostics(diagnostics);
    }
  }

  method ComputeStatus(results: seq<string>, ds: seq<Diagnostic>) returns (status: string)
    ensures status == StatusOf(results, ds)
  {
    status := NOT_EVALUATED;
    var i := 0;
    while i < |results| && status != FAILED
      invariant i <= |results| && status == StageStatus(results[..i])
    {
      assert results[..i + 1][..i] == results[..i];
      if results[i] == FAILED {
        status := FAILED;
      } else if results[i] == PASSED {
        status := PASSED;
      }
      i := i + 1;
    }
    if i < |results| { FailedStays(results, i); }
    assert i == |results| ==> results[..i] == results;
    for n := 0 to |ds|
      invariant status == StageStatus(results)
      invariant forall k :: 0 <= k < n ==> ds[k].level != "error"
    {
      if ds[n].level == "error" {
        assert ds[n] in ds;
        return FAILED;
      }
    }
  }

  lemma {:induction false} FailedStays(results: seq<string>, i: nat)
    requires i <= |results| && StageStatus(results[..i]) == FAILED
    ensures StageStatus(results) == FAILED
  {
    if i == |results| {
      assert results[..i] == results;
    } else {
      assert results[..|results| - 1][..i] == results[..i];
      FailedStays(results[..|results| - 1], i);
    }
  }

  // ----- finalizing again changes nothing -----

  lemma MergedKeepsOrder(stages: seq<string>, out: seq<Diagnostic>, ds: seq<Diagnostic>, d: Diagnostic)
    requires InOrder(out, ByStage(stages)) && forall i :: 0 <= i < |out| ==>
        !Less(DiagnosticSortKey(stages, d), DiagnosticSortKey(stages, out[i]))
    ensures InOrder(Merged(out, d), ByStage(stages))
  {
    hide Less, FindingOf, StageOrder;
    var i := Place(out, FindingOf(d));
    if i < |out| {
      var cleared := out[i].(instance := "");
      assert DiagnosticSortKey(stages, cleared) == DiagnosticSortKey(stages, out[i]);
    }
  }

  /** Entries of the compacted list sort as some diagnostic of the original one. */
  lemma {:induction false} CompactedKeepsOrder(stages: seq<string>, ds: seq<Diagnostic>)
    requires InOrder(ds, ByStage(stages))
    ensures InOrder(Compacted(ds), ByStage(stages))
    ensures forall i :: 0 <= i < |Compacted(ds)| ==> SortsIn(stages, ds, Compacted(ds)[i])
  {
    hide Less, FindingOf, Merged, InOrder, DiagnosticSortKey;
    if ds == [] {
      NothingInOrder(stages);
    } else {
      var front, last := ds[..|ds| - 1], ds[|ds| - 1];
      FrontInOrder(stages, ds);
      CompactedKeepsOrder(stages, front);
      var out := Compacted(front);
      forall i | 0 <= i < |out| ensures !Less(DiagnosticSortKey(stages, last), DiagnosticSortKey(stages, out[i])) {
        LastIsNotLess(stages, ds, out[i]);
      }
      MergedKeepsOrder(stages, out, ds, last);
      forall i | 0 <= i < |Merged(out, last)| ensures SortsIn(stages, ds, Merged(out, last)[i]) {
        MergedSortsIn(stages, ds, out, i);
      }
    }
  }

  ghost predicate SortsIn(stages: seq<string>, ds: seq<Diagnostic>, d: Diagnostic) {
    exists k :: 0 <= k < |ds| && DiagnosticSortKey(stages, ds[k]) == DiagnosticSortKey(stages, d)
  }

  lemma NothingInOrder(stages: seq<string>)
    ensures InOrder(Compacted([]), ByStage(stages))
  {
  }

  lemma FrontInOrder(stages: seq<string>, ds: seq<Diagnostic>)
    requires InOrder(ds, ByStage(stages)) && ds != []
    ensures InOrder(ds[..|ds| - 1], ByStage(stages))
  {
    hide Less, DiagnosticSortKey;
  }

  lemma LastIsNotLess(stages: seq<string>, ds: seq<Diagnostic>, d: Diagnostic)
    requires InOrder(ds, ByStage(stages)) && ds != [] && SortsIn(stages, ds[..|ds| - 1], d)
    ensures !Less(DiagnosticSortKey(stages, ds[|ds| - 1]), DiagnosticSortKey(stages, d))
  {
    hide Less, DiagnosticSortKey;
    var front := ds[..|ds| - 1];
    var k :| 0 <= k < |front| && DiagnosticSortKey(stages, front[k]) == DiagnosticSortKey(stages, d);
    assert ByStage(stages)(ds[|ds| - 1]) == DiagnosticSortKey(stages, ds[|ds| - 1]);
    assert ByStage(stages)(ds[k]) == DiagnosticSortKey(stages, ds[k]);
    assert front[k] == ds[k];
  }

  lemma MergedSortsIn(stages: seq<string>, ds: seq<Diagnostic>, out: seq<Diagnostic>, i: nat)
    requires ds != [] && i < |Merged(out, ds[|ds| - 1])|
    requires forall j :: 0 <= j < |out| ==> SortsIn(stages, ds[..|ds| - 1], out[j])
    ensures SortsIn(stages, ds, Merged(out, ds[|ds| - 1])[i])
  {
    hide FindingOf, StageOrder;
    var front, last := ds[..|ds| - 1], ds[|ds| - 1];
    var d := Merged(out, last)[i];
    if i < |out| {
      assert SortsIn(stages, front, out[i]);
      var k :| 0 <= k < |front| && DiagnosticSortKey(stages, front[k]) == DiagnosticSortKey(stages, out[i]);
      assert d == out[i] || d == out[i].(instance := "");
      assert DiagnosticSortKey(stages, d) == DiagnosticSortKey(stages, out[i]);
      assert ds[k] == front[k];
    } else {
      assert d == last;
    }
  }

  /** Compaction loses no error, and finds none that was not there. */
  lemma CompactedErrors(ds: seq<Diagnostic>)
    ensures HasError(Compacted(ds)) <==> HasError(ds)
  {
    hide Compacted, FindingOf;
    CompactedFindings(ds);
    ErrorsByFinding(ds);
    ErrorsByFinding(Compacted(ds));
  }

  lemma ErrorsByFinding(ds: seq<Diagnostic>)
    ensures HasError(ds) <==> exists f :: f in Findings(ds) && f.level == "error"
  {
    if HasError(ds) {
      var d :| d in ds && d.level == "error";
      assert FindingOf(d) in Findings(ds) && FindingOf(d).level == "error";
    }
    if f :| f in Findings(ds) && f.level == "error" {
      var d :| d in ds && FindingOf(d) == f;
      assert d.level == "error";
    }
  }

  lemma SortedErrors(stages: seq<string>, ds: seq<Diagnostic>)
    ensures HasError(StableSort(ds, ByStage(stages))) <==> HasError(ds)
  {
    hide StableSort;
    var sorted := StableSort(ds, ByStage(stages));
    StableSortSorts(ds, ByStage(stages));
    forall d ensures d in sorted <==> d in ds {
      assert d in sorted <==> d in multiset(sorted);
      assert d in ds <==> d in multiset(ds);
    }
  }

  /** Rendering may finalize a report that its owner finalizes again: the second time changes nothing. */
  lemma FinalizeIsIdempotent(stages: seq<string>, r: Report)
    ensures Finalized(stages, Finalized(stages, r)) == Finalized(stages, r)
  {
    hide StableSort, Compacted, InOrder, HasError;
    var once := Finalized(stages, r);
    var sorted := StableSort(r.diagnostics, ByStage(stages));
    StableSortSorts(r.jobs, JobSortKey);
    SortedStays(once.jobs, JobSortKey);
    StableSortSorts(r.actions, ActionSortKey);
    SortedStays(once.actions, ActionSortKey);
    StableSortSorts(r.diagnostics, ByStage(stages));
    CompactedKeepsOrder(stages, sorted);
    SortedStays(once.diagnostics, ByStage(stages));
    CompactedFindings(sorted);
    CompactedStays(once.diagnostics);
    SortedErrors(stages, r.diagnostics);
    CompactedErrors(sorted);
  }
}
