/** What a finalized report says, read off the fields of what went into it. */
module ReportLaws {
  import opened Pipelines
  import opened Ordering
  import opened StableOrder
  import opened Diagnostics

  // ----- findings -----

  /** Two diagnostics are one finding if they differ in the instance at most; a refusal by runner policy counts as a
      blocked runner label, with the label of the report. */
  predicate SameFinding(a: Diagnostic, b: Diagnostic) {
    && a.level == b.level && a.code == b.code && a.category == b.category && a.stage == b.stage
    && a.message == b.message && a.detail == b.detail && a.setupURL == b.setupURL && a.location == b.location
    && a.job == b.job && a.action == b.action && a.step == b.step
    && if a.blocker == "runner_policy" then
         if b.blocker == "runner_policy" then a.runnerLabelDetail == b.runnerLabelDetail
         else b.blocker == "runner_label" && b.blockerDetail == a.runnerLabelDetail
       else if b.blocker == "runner_policy" then a.blocker == "runner_label" && a.blockerDetail == b.runnerLabelDetail
       else a.blocker == b.blocker && a.blockerDetail == b.blockerDetail
  }

  lemma FindingExactly(a: Diagnostic, b: Diagnostic)
    ensures FindingOf(a) == FindingOf(b) <==> SameFinding(a, b)
  {
  }

  /** out has one entry for each finding, in the order of the first diagnostics; an entry is that diagnostic, without
      its instance if another one of the finding has a different one. */
  ghost predicate Compaction(ds: seq<Diagnostic>, out: seq<Diagnostic>, firsts: seq<nat>) {
    && |firsts| == |out|
    && (forall j :: 0 <= j < |firsts| ==> firsts[j] < |ds|)
    && (forall j, k :: 0 <= j < k < |firsts| ==> firsts[j] < firsts[k])
    && (forall j, i :: 0 <= j < |firsts| && 0 <= i < firsts[j] ==> !SameFinding(ds[i], ds[firsts[j]]))
    && (forall i :: 0 <= i < |ds| ==> exists j :: 0 <= j < |firsts| && SameFinding(ds[i], ds[firsts[j]]))
    && forall j :: 0 <= j < |out| ==> Stands(ds, ds[firsts[j]], out[j])
  }

  ghost predicate Stands(ds: seq<Diagnostic>, first: Diagnostic, d: Diagnostic) {
    if forall e :: e in ds && SameFinding(e, first) ==> e.instance == first.instance then d == first
    else d == first.(instance := "")
  }

  /** The places of the first diagnostics. */
  ghost predicate Firsts(ds: seq<Diagnostic>, out: seq<Diagnostic>, firsts: seq<nat>) {
    && |firsts| == |out|
    && (forall j :: 0 <= j < |firsts| ==>
          firsts[j] < |ds| && IsFirst(ds, firsts[j]) && FindingOf(out[j]) == FindingOf(ds[firsts[j]]))
    && forall j, k :: 0 <= j < k < |firsts| ==> firsts[j] < firsts[k]
  }

  lemma {:induction false} FirstsOf(ds: seq<Diagnostic>) returns (firsts: seq<nat>)
    ensures Firsts(ds, Compacted(ds), firsts)
  {
    hide FindingOf, Merged;
    if ds == [] {
      firsts := [];
    } else {
      var front, last := ds[..|ds| - 1], ds[|ds| - 1];
      assert ds == front + [last];
      var before := FirstsOf(front);
      MergedFindings(Compacted(front), last);
      CompactedFindings(front);
      forall j | 0 <= j < |before| ensures IsFirst(ds, before[j]) && ds[before[j]] == front[before[j]] { }
      if FindingOf(last) in Findings(front) {
        firsts := before;
      } else {
        firsts := before + [|front|];
        forall k | 0 <= k < |front| ensures FindingOf(ds[k]) != FindingOf(last) { assert ds[k] in front; }
      }
    }
  }

  lemma StandsFor(ds: seq<Diagnostic>, d: Diagnostic, i: nat)
    requires Represents(ds, d) && i < |ds| && IsFirst(ds, i) && FindingOf(d) == FindingOf(ds[i])
    ensures Stands(ds, ds[i], d)
  {
    hide FindingOf, SameFinding;
    var k :| 0 <= k < |ds| && IsFirst(ds, k) && d == ds[k].(instance := d.instance) &&
      d.instance == if SharesInstance(ds, ds[k]) then ds[k].instance else "";
    FindingIgnoresInstance(ds[k], d.instance);
    assert k == i;
    forall e ensures FindingOf(e) == FindingOf(ds[i]) <==> SameFinding(e, ds[i]) { FindingExactly(e, ds[i]); }
  }

  /** Compaction, said with the fields of the diagnostics. */
  lemma CompactedExactly(ds: seq<Diagnostic>) returns (firsts: seq<nat>)
    ensures Compaction(ds, Compacted(ds), firsts)
  {
    hide FindingOf, SameFinding, Stands, Represents, Compacted;
    firsts := FirstsOf(ds);
    var out := Compacted(ds);
    CompactedFindings(ds);
    forall j | 0 <= j < |out| ensures Stands(ds, ds[firsts[j]], out[j]) {
      CompactedRepresents(ds, j);
      StandsFor(ds, out[j], firsts[j]);
    }
    forall j, i | 0 <= j < |firsts| && 0 <= i < firsts[j] ensures !SameFinding(ds[i], ds[firsts[j]]) {
      FindingExactly(ds[i], ds[firsts[j]]);
    }
    forall i | 0 <= i < |ds| ensures exists j :: 0 <= j < |firsts| && SameFinding(ds[i], ds[firsts[j]]) {
      IsListed(ds, out, firsts, i);
    }
  }

  lemma IsListed(ds: seq<Diagnostic>, out: seq<Diagnostic>, firsts: seq<nat>, i: nat)
    requires Firsts(ds, out, firsts) && Findings(out) == Findings(ds) && i < |ds|
    ensures exists j :: 0 <= j < |firsts| && SameFinding(ds[i], ds[firsts[j]])
  {
    hide FindingOf, SameFinding;
    assert ds[i] in ds && FindingOf(ds[i]) in Findings(out);
    var e :| e in out && FindingOf(e) == FindingOf(ds[i]);
    var j :| 0 <= j < |out| && out[j] == e;
    FindingExactly(ds[i], ds[firsts[j]]);
  }

  // ----- order -----

  ghost predicate JobBefore(a: JobResult, b: JobResult) {
    if a.id != b.id then Before(a.id, b.id) else Before(a.instance, b.instance)
  }

  ghost predicate ActionBefore(a: ActionResult, b: ActionResult) {
    if a.job != b.job then Before(a.job, b.job)
    else if a.step != b.step then a.step < b.step
    else Before(a.reference, b.reference)
  }

  /** A stage has the place of its definition, and the first place without one. */
  predicate IsPlace(stages: seq<string>, stage: string, n: int) {
    if stage in stages then
      0 <= n < |stages| && stages[n] == stage && forall k :: n < k < |stages| ==> stages[k] != stage
    else n == 0
  }

  ghost predicate TextBefore(a: Diagnostic, b: Diagnostic) {
    if a.code != b.code then Before(a.code, b.code)
    else if a.message != b.message then Before(a.message, b.message)
    else if a.detail != b.detail then Before(a.detail, b.detail)
    else Before(a.setupURL, b.setupURL)
  }

  /** By stage, then location, then text; a diagnostic without location sorts as one at the start of an empty path. */
  ghost predicate DiagnosticBefore(stages: seq<string>, a: Diagnostic, b: Diagnostic) {
    exists m: int, n: int :: IsPlace(stages, a.stage, m) && IsPlace(stages, b.stage, n) &&
      var x := if a.location.Some? then a.location.value else Location("", 0, 0);
      var y := if b.location.Some? then b.location.value else Location("", 0, 0);
      if m != n then m < n
      else if x.path != y.path then Before(x.path, y.path)
      else if x.line != y.line then x.line < y.line
      else if x.column != y.column then x.column < y.column
      else TextBefore(a, b)
  }

  lemma PartExactly(a: string, b: string)
    ensures PartLess(Str(a), Str(b)) <==> Before(a, b)
    ensures !Before(a, a)
  {
    LeqExactly(a, b);
  }

  /** The first part decides unless it is the same. */
  lemma LessParts(p: Part, q: Part, a: Key, b: Key)
    ensures Less([p] + a, [q] + b) <==> if p != q then PartLess(p, q) else Less(a, b)
  {
    assert ([p] + a)[1..] == a && ([q] + b)[1..] == b;
  }

  lemma JobsExactly(a: JobResult, b: JobResult)
    ensures Less(JobSortKey(a), JobSortKey(b)) <==> JobBefore(a, b)
  {
    hide Less, PartLess, Before;
    LessParts(Str(a.id), Str(b.id), [Str(a.instance)], [Str(b.instance)]);
    LessParts(Str(a.instance), Str(b.instance), [], []);
    assert !Less([], []) by { NothingLess(); }
    PartExactly(a.id, b.id);
    PartExactly(a.instance, b.instance);
    assert JobSortKey(a) == [Str(a.id)] + [Str(a.instance)] && [Str(a.instance)] + [] == [Str(a.instance)];
    assert JobSortKey(b) == [Str(b.id)] + [Str(b.instance)] && [Str(b.instance)] + [] == [Str(b.instance)];
  }

  lemma NothingLess()
    ensures !Less([], [])
  {
  }

  lemma ActionsExactly(a: ActionResult, b: ActionResult)
    ensures Less(ActionSortKey(a), ActionSortKey(b)) <==> ActionBefore(a, b)
  {
    hide Less, Before;
    LessParts(Str(a.job), Str(b.job), [Num(a.step), Str(a.reference)], [Num(b.step), Str(b.reference)]);
    LessParts(Num(a.step), Num(b.step), [Str(a.reference)], [Str(b.reference)]);
    LessParts(Str(a.reference), Str(b.reference), [], []);
    NothingLess();
    PartExactly(a.job, b.job);
    PartExactly(a.reference, b.reference);
    assert ActionSortKey(a) == [Str(a.job)] + [Num(a.step), Str(a.reference)];
    assert ActionSortKey(b) == [Str(b.job)] + [Num(b.step), Str(b.reference)];
    assert [Num(a.step), Str(a.reference)] == [Num(a.step)] + [Str(a.reference)];
    assert [Num(b.step), Str(b.reference)] == [Num(b.step)] + [Str(b.reference)];
    assert [Str(a.reference)] == [Str(a.reference)] + [] && [Str(b.reference)] == [Str(b.reference)] + [];
  }

  lemma {:induction false} PlaceExactly(stages: seq<string>, stage: string, n: int)
    ensures IsPlace(stages, stage, n) <==> n == StageOrder(stages, stage)
  {
    if stages != [] {
      var front := stages[..|stages| - 1];
      assert stages == front + [stages[|stages| - 1]];
      if stages[|stages| - 1] != stage {
        PlaceExactly(front, stage, n);
        assert stage in stages <==> stage in front;
        if stage in stages {
          assert 0 <= n < |front| ==> front[n] == stages[n];
          assert forall k :: 0 <= k < |front| ==> front[k] == stages[k];
        }
      }
    }
  }

  function TextKey(d: Diagnostic): Key { [Str(d.code), Str(d.message), Str(d.detail), Str(d.setupURL)] }

  lemma TextsExactly(a: Diagnostic, b: Diagnostic)
    ensures Less(TextKey(a), TextKey(b)) <==> TextBefore(a, b)
  {
    hide Less, Before, PartLess;
    var p, q := [Str(a.message), Str(a.detail), Str(a.setupURL)], [Str(b.message), Str(b.detail), Str(b.setupURL)];
    LessParts(Str(a.code), Str(b.code), p, q);
    assert TextKey(a) == [Str(a.code)] + p && TextKey(b) == [Str(b.code)] + q;
    LessParts(Str(a.message), Str(b.message), [Str(a.detail), Str(a.setupURL)], [Str(b.detail), Str(b.setupURL)]);
    assert p == [Str(a.message)] + [Str(a.detail), Str(a.setupURL)];
    assert q == [Str(b.message)] + [Str(b.detail), Str(b.setupURL)];
    LessParts(Str(a.detail), Str(b.detail), [Str(a.setupURL)], [Str(b.setupURL)]);
    assert [Str(a.detail), Str(a.setupURL)] == [Str(a.detail)] + [Str(a.setupURL)];
    assert [Str(b.detail), Str(b.setupURL)] == [Str(b.detail)] + [Str(b.setupURL)];
    LessParts(Str(a.setupURL), Str(b.setupURL), [], []);
    assert [Str(a.setupURL)] == [Str(a.setupURL)] + [] && [Str(b.setupURL)] == [Str(b.setupURL)] + [];
    NothingLess();
    PartExactly(a.code, b.code);
    PartExactly(a.message, b.message);
    PartExactly(a.detail, b.detail);
    PartExactly(a.setupURL, b.setupURL);
  }

  function LocationKey(l: Location, rest: Key): Key { [Str(l.path), Num(l.line), Num(l.column)] + rest }

  lemma LocationsExactly(x: Location, y: Location, r: Key, s: Key)
    ensures Less(LocationKey(x, r), LocationKey(y, s)) <==>
              if x.path != y.path then Before(x.path, y.path)
              else if x.line != y.line then x.line < y.line
              else if x.column != y.column then x.column < y.column
              else Less(r, s)
  {
    hide Less, Before;
    LessParts(Str(x.path), Str(y.path), [Num(x.line)] + ([Num(x.column)] + r), [Num(y.line)] + ([Num(y.column)] + s));
    LessParts(Num(x.line), Num(y.line), [Num(x.column)] + r, [Num(y.column)] + s);
    LessParts(Num(x.column), Num(y.column), r, s);
    PartExactly(x.path, y.path);
    assert LocationKey(x, r) == [Str(x.path)] + ([Num(x.line)] + ([Num(x.column)] + r));
    assert LocationKey(y, s) == [Str(y.path)] + ([Num(y.line)] + ([Num(y.column)] + s));
  }

  lemma DiagnosticsExactly(stages: seq<string>, a: Diagnostic, b: Diagnostic)
    ensures Less(DiagnosticSortKey(stages, a), DiagnosticSortKey(stages, b)) <==> DiagnosticBefore(stages, a, b)
  {
    hide Less, Before, TextBefore, IsPlace, StageOrder;
    var x := if a.location.Some? then a.location.value else Location("", 0, 0);
    var y := if b.location.Some? then b.location.value else Location("", 0, 0);
    var m, n := StageOrder(stages, a.stage), StageOrder(stages, b.stage);
    forall k ensures IsPlace(stages, a.stage, k) <==> k == m { PlaceExactly(stages, a.stage, k); }
    forall k ensures IsPlace(stages, b.stage, k) <==> k == n { PlaceExactly(stages, b.stage, k); }
    assert IsPlace(stages, a.stage, m) && IsPlace(stages, b.stage, n);
    LessParts(Num(m), Num(n), LocationKey(x, TextKey(a)), LocationKey(y, TextKey(b)));
    LocationsExactly(x, y, TextKey(a), TextKey(b));
    TextsExactly(a, b);
    assert DiagnosticSortKey(stages, a) == [Num(m)] + LocationKey(x, TextKey(a));
    assert DiagnosticSortKey(stages, b) == [Num(n)] + LocationKey(y, TextKey(b));
  }

  // ----- the whole report -----

  lemma {:induction false} StageStatusExactly(results: seq<string>)
    ensures StageStatus(results) ==
              if "failed" in results then "failed" else if "passed" in results then "passed" else "not-evaluated"
  {
    if results != [] {
      StageStatusExactly(results[..|results| - 1]);
      assert results == results[..|results| - 1] + [results[|results| - 1]];
    }
  }

  /** The same elements, and none before one that it has to follow. */
  ghost predicate JobsSorted(before: seq<JobResult>, after: seq<JobResult>) {
    multiset(before) == multiset(after) && forall i, j :: 0 <= i < j < |after| ==> !JobBefore(after[j], after[i])
  }

  ghost predicate ActionsSorted(before: seq<ActionResult>, after: seq<ActionResult>) {
    multiset(before) == multiset(after) && forall i, j :: 0 <= i < j < |after| ==> !ActionBefore(after[j], after[i])
  }

  ghost predicate DiagnosticsSorted(stages: seq<string>, before: seq<Diagnostic>, after: seq<Diagnostic>) {
    && multiset(before) == multiset(after)
    && forall i, j :: 0 <= i < j < |after| ==> !DiagnosticBefore(stages, after[j], after[i])
  }

  /** The report after Finalize: an error or a failed stage fails it; a result that was open becomes the status; jobs,
      actions and diagnostics are sorted, what sorts alike in its old order, and the diagnostics compacted. */
  lemma FinalizedExactly(stages: seq<string>, r: Report) returns (sorted: seq<Diagnostic>, firsts: seq<nat>)
    ensures var f := Finalized(stages, r);
            && f.results == r.results
            && f.status == (if "failed" in r.results || (exists d :: d in r.diagnostics && d.level == "error")
                            then "failed" else if "passed" in r.results then "passed" else "not-evaluated")
            && f.result == (if r.result == "not-evaluated" then f.status else r.result)
            && JobsSorted(r.jobs, f.jobs) && ActionsSorted(r.actions, f.actions)
            && DiagnosticsSorted(stages, r.diagnostics, sorted) && Compaction(sorted, f.diagnostics, firsts)
            && forall k :: WithKey(f.jobs, JobSortKey, k) == WithKey(r.jobs, JobSortKey, k) &&
                 WithKey(f.actions, ActionSortKey, k) == WithKey(r.actions, ActionSortKey, k) &&
                 WithKey(sorted, ByStage(stages), k) == WithKey(r.diagnostics, ByStage(stages), k)
  {
    hide StableSort, Compacted, Less, JobBefore, ActionBefore, DiagnosticBefore, Compaction, DiagnosticSortKey,
      JobSortKey, ActionSortKey, StageStatus;
    var f := Finalized(stages, r);
    StageStatusExactly(r.results);
    StableSortSorts(r.jobs, JobSortKey);
    forall i, j | 0 <= i < j < |f.jobs| ensures !JobBefore(f.jobs[j], f.jobs[i]) {
      JobsExactly(f.jobs[j], f.jobs[i]);
    }
    StableSortSorts(r.actions, ActionSortKey);
    forall i, j | 0 <= i < j < |f.actions| ensures !ActionBefore(f.actions[j], f.actions[i]) {
      ActionsExactly(f.actions[j], f.actions[i]);
    }
    sorted := StableSort(r.diagnostics, ByStage(stages));
    StableSortSorts(r.diagnostics, ByStage(stages));
    forall i, j | 0 <= i < j < |sorted| ensures !DiagnosticBefore(stages, sorted[j], sorted[i]) {
      DiagnosticsExactly(stages, sorted[j], sorted[i]);
      assert ByStage(stages)(sorted[j]) == DiagnosticSortKey(stages, sorted[j]);
      assert ByStage(stages)(sorted[i]) == DiagnosticSortKey(stages, sorted[i]);
    }
    firsts := CompactedExactly(sorted);
  }
}
