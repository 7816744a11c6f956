/** Emitted steps follow the entries that were checked: their queue order and dependencies,
    the compiler step apart. */
module Emission {
  import opened Pipelines
  import opened Uploads
  import opened StepNeeds
  import opened QueueCheck
  import opened EmittedSteps

  // ----- order: the emitted steps follow the checked entries -----

  predicate CompilerDep(d: Dependency, compilerStep: string) {
    compilerStep != "" && d == Dependency(compilerStep, false)
  }

  /** The step of a checked entry, which may wait for the compiler step as well. */
  ghost predicate FromEntry(s: Step, entries: seq<Step>, compilerStep: string) {
    exists e :: e in entries && e.key == s.key && e.group == s.group &&
      forall d :: d in s.needs ==> d in e.needs || CompilerDep(d, compilerStep)
  }

  ghost predicate Leaf(s: Step, compilerStep: string) {
    s.group == "" && forall d :: d in s.needs ==> CompilerDep(d, compilerStep)
  }

  ghost predicate Before(entries: seq<Step>, a: string, b: string) {
    exists i, j :: 0 <= i < j < |entries| && entries[i].key == a && entries[j].key == b
  }

  ghost predicate Follows(steps: seq<Step>, entries: seq<Step>, compilerStep: string) {
    && (forall i :: 0 <= i < |steps| ==> FromEntry(steps[i], entries, compilerStep) || Leaf(steps[i], compilerStep))
    && (forall i, j :: 0 <= i < j < |steps| && steps[i].group != "" && steps[j].group != "" ==>
          Before(entries, steps[i].key, steps[j].key))
  }

  lemma EntryKept(s: Step, a: seq<Step>, b: seq<Step>, compilerStep: string)
    requires FromEntry(s, a, compilerStep) || FromEntry(s, b, compilerStep)
    ensures FromEntry(s, a + b, compilerStep)
  {
    var e :| e in a + b && e.key == s.key && e.group == s.group &&
      forall d :: d in s.needs ==> d in e.needs || CompilerDep(d, compilerStep);
  }

  lemma BeforeKept(a: seq<Step>, b: seq<Step>, k: string, l: string)
    requires Before(a, k, l) || Before(b, k, l) ||
        ((exists e :: e in a && e.key == k) && exists e :: e in b && e.key == l)
    ensures Before(a + b, k, l)
  {
    var all := a + b;
    if Before(a, k, l) {
      var i, j :| 0 <= i < j < |a| && a[i].key == k && a[j].key == l;
      assert all[i].key == k && all[j].key == l;
    } else if Before(b, k, l) {
      var i, j :| 0 <= i < j < |b| && b[i].key == k && b[j].key == l;
      assert all[|a| + i].key == k && all[|a| + j].key == l;
    } else {
      var e :| e in a && e.key == k;
      var f :| f in b && f.key == l;
      var i :| 0 <= i < |a| && a[i] == e;
      var j :| 0 <= j < |b| && b[j] == f;
      assert all[i].key == k && all[|a| + j].key == l;
    }
  }

  lemma GroupedFromEntry(s: Step, entries: seq<Step>, compilerStep: string)
    requires s.group != "" && (FromEntry(s, entries, compilerStep) || Leaf(s, compilerStep))
    ensures exists e :: e in entries && e.key == s.key
  {
  }

  lemma FollowsJoin(s: seq<Step>, a: seq<Step>, t: seq<Step>, b: seq<Step>, compilerStep: string)
    requires Follows(s, a, compilerStep) && Follows(t, b, compilerStep)
    ensures Follows(s + t, a + b, compilerStep)
  {
    hide FromEntry, Leaf, Before;
    var all := s + t;
    forall i | 0 <= i < |all| ensures FromEntry(all[i], a + b, compilerStep) || Leaf(all[i], compilerStep) {
      if !Leaf(all[i], compilerStep) { EntryKept(all[i], a, b, compilerStep); }
    }
    forall i, j | 0 <= i < j < |all| && all[i].group != "" && all[j].group != ""
      ensures Before(a + b, all[i].key, all[j].key)
    {
      if i < |s| <= j {
        GroupedFromEntry(all[i], a, compilerStep);
        GroupedFromEntry(all[j], b, compilerStep);
      } else if j < |s| {
        assert Before(a, s[i].key, s[j].key);
      } else {
        assert Before(b, t[i - |s|].key, t[j - |s|].key);
      }
      BeforeKept(a, b, all[i].key, all[j].key);
    }
  }

  function RankOf(rank: map<string, nat>, key: string): nat {
    if key in rank then rank[key] else 0
  }

  lemma BeforeRanks(entries: seq<Step>, rank: map<string, nat>, s: Step, t: Step, compilerStep: string)
    requires KeyRank(entries, rank) && DistinctSteps(entries) && Before(entries, s.key, t.key)
    requires s.group != "" && s.group == t.group
    requires FromEntry(s, entries, compilerStep) || Leaf(s, compilerStep)
    requires FromEntry(t, entries, compilerStep) || Leaf(t, compilerStep)
    ensures RankOf(rank, s.key) < RankOf(rank, t.key)
  {
    var i, j :| 0 <= i < j < |entries| && entries[i].key == s.key && entries[j].key == t.key;
    var e :| e in entries && e.key == s.key && e.group == s.group;
    var x :| 0 <= x < |entries| && entries[x] == e;
    assert x == i;
    var f :| f in entries && f.key == t.key && f.group == t.group;
    var y :| 0 <= y < |entries| && entries[y] == f;
    assert y == j;
  }

  lemma NeedRanks(entries: seq<Step>, rank: map<string, nat>, s: Step, key: string, compilerStep: string)
    requires KeyRank(entries, rank) && (FromEntry(s, entries, compilerStep) || Leaf(s, compilerStep))
    requires Needs(s, key) && key != compilerStep
    ensures RankOf(rank, key) < RankOf(rank, s.key)
  {
    var d :| d in s.needs && d.step == key;
    assert !CompilerDep(d, compilerStep);
    var e :| e in entries && e.key == s.key && d in e.needs;
    var x :| 0 <= x < |entries| && entries[x] == e;
  }

  lemma FollowersOrderable(steps: seq<Step>, entries: seq<Step>, compilerStep: string)
    requires Follows(steps, entries, compilerStep) && QueuesOrderable(entries) && DistinctSteps(entries)
    requires forall i :: 0 <= i < |steps| ==> compilerStep == "" || steps[i].key != compilerStep
    requires compilerStep == "" ==> forall i :: 0 <= i < |steps| ==> steps[i].key != ""
    ensures Orderable(steps)
  {
    hide FromEntry, Leaf, Before, KeyRank, DistinctSteps, Needs;
    var rank :| KeyRank(entries, rank);
    var places := seq(|steps|, i requires 0 <= i < |steps| => RankOf(rank, steps[i].key));
    forall i, j | 0 <= i < |steps| && 0 <= j < |steps| && WaitsFor(steps, i, j) ensures places[j] < places[i] {
      if Needs(steps[i], steps[j].key) {
        NeedRanks(entries, rank, steps[i], steps[j].key, compilerStep);
      } else {
        BeforeRanks(entries, rank, steps[j], steps[i], compilerStep);
      }
    }
    assert RanksSteps(steps, places);
  }

  // ----- one workflow -----

  lemma StepsFollowEntries(w: PreparedWorkflow, compilerStep: string)
    ensures Follows(Steps(w, compilerStep), Entries(w, compilerStep), compilerStep)
  {
    hide Steps, Entries, Dropped, FromEntry, Leaf;
    var s, e := Steps(w, compilerStep), Entries(w, compilerStep);
    if Dropped(w) {
      SoleStep(w, compilerStep);
    } else {
      StepsMatch(w, compilerStep);
      forall i, j | 0 <= i < j < |s| && s[i].group != "" && s[j].group != "" ensures Before(e, s[i].key, s[j].key) {
        assert e[i].key == s[i].key && e[j].key == s[j].key;
      }
    }
  }

  lemma SoleStep(w: PreparedWorkflow, compilerStep: string)
    requires Dropped(w)
    ensures |Steps(w, compilerStep)| == 1 && Leaf(Steps(w, compilerStep)[0], compilerStep)
  {
  }

  /** The entries that are checked, then the approval gates. */
  lemma InnerMatches(w: PreparedWorkflow, compilerStep: string)
    ensures var inner, e := Inner(w, compilerStep), Entries(w, compilerStep);
            var approvals := ApprovalEntries(w, |w.approvalGates|, compilerStep);
            && |inner| == |e| + |approvals|
            && (forall i :: 0 <= i < |e| ==>
                  inner[i] == e[i] || inner[i] == e[i].(needs := CompilerNeed(w, compilerStep)))
            && forall i :: |e| <= i < |inner| ==> inner[i] == approvals[i - |e|]
  {
    hide GateEntries, JobEntries, WorkflowCloseNeeds, ApprovalEntries, CompilerNeed;
  }

  /** Same places for all that is checked; approval gates come after. */
  lemma StepsMatch(w: PreparedWorkflow, compilerStep: string)
    requires !Dropped(w)
    ensures var s, e := Steps(w, compilerStep), Entries(w, compilerStep);
            && |e| <= |s|
            && (forall i :: 0 <= i < |e| ==> s[i].key == e[i].key && FromEntry(s[i], e, compilerStep))
            && (forall i :: |e| <= i < |s| ==> Leaf(s[i], compilerStep) && s[i].group == "")
  {
    hide Inner, Entries, FromEntry, Leaf, ApprovalEntries, Within, CompilerNeed;
    var s, e := Steps(w, compilerStep), Entries(w, compilerStep);
    var inner := Inner(w, compilerStep);
    InnerMatches(w, compilerStep);
    forall i | 0 <= i < |e| ensures s[i].key == e[i].key && FromEntry(s[i], e, compilerStep) {
      PlacedFromEntry(w, compilerStep, inner[i], e[i], e);
    }
    forall i | |e| <= i < |s| ensures Leaf(s[i], compilerStep) && s[i].group == "" {
      ApprovalsAreLeaves(w, |w.approvalGates|, compilerStep, i - |e|);
    }
  }

  lemma PlacedFromEntry(w: PreparedWorkflow, compilerStep: string, s: Step, e: Step, entries: seq<Step>)
    requires e in entries
    requires s == e || s == e.(needs := CompilerNeed(w, compilerStep))
    ensures Within(w, compilerStep, s).key == e.key
    ensures FromEntry(Within(w, compilerStep, s), entries, compilerStep)
  {
  }

  lemma {:induction false} ApprovalsAreLeaves(w: PreparedWorkflow, n: nat, compilerStep: string, i: nat)
    requires i < n <= |w.approvalGates|
    ensures Leaf(Within(w, compilerStep, ApprovalEntries(w, n, compilerStep)[i]), compilerStep)
    ensures Within(w, compilerStep, ApprovalEntries(w, n, compilerStep)[i]).group == ""
    ensures ApprovalEntries(w, n, compilerStep)[i] == Step(w.approvalGates[i].key, "", Strict(compilerStep))
  {
    if i < n - 1 { ApprovalsAreLeaves(w, n - 1, compilerStep, i); }
  }

  lemma {:induction false} AllStepsFollow(ws: seq<PreparedWorkflow>, compilerStep: string)
    ensures Follows(AllSteps(ws, compilerStep), AllEntries(ws, compilerStep), compilerStep)
  {
    hide Follows, Steps, Entries;
    if ws == [] {
      NothingFollows(compilerStep);
    } else {
      AllStepsFollow(ws[..|ws| - 1], compilerStep);
      StepsFollowEntries(ws[|ws| - 1], compilerStep);
      FollowsJoin(AllSteps(ws[..|ws| - 1], compilerStep), AllEntries(ws[..|ws| - 1], compilerStep),
                  Steps(ws[|ws| - 1], compilerStep), Entries(ws[|ws| - 1], compilerStep), compilerStep);
    }
  }

  lemma NothingFollows(compilerStep: string)
    ensures Follows([], [], compilerStep)
  {
  }
}
