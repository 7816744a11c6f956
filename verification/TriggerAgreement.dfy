/** The emitted condition and the explanation of a skip say the same about an event. */
module TriggerAgreement {
  import opened Pipelines
  import opened Globs
  import opened RefFilters
  import opened Triggers

  // ----- conditions built from lists -----

  lemma {:induction false} AllOfMeans(cs: Classes, e: Setting, first: Cond, rest: seq<Cond>)
    ensures Holds(cs, e, AllOf(first, rest)) <==> Holds(cs, e, first) && forall i :: 0 <= i < |rest| ==>
        Holds(cs, e, rest[i])
  {
    if rest != [] {
      AllOfMeans(cs, e, first, rest[..|rest| - 1]);
      assert rest == rest[..|rest| - 1] + [rest[|rest| - 1]];
    }
  }

  lemma {:induction false} AnyOfMeans(cs: Classes, e: Setting, action: string, types: seq<string>)
    ensures Holds(cs, e, AnyOf(Text(action), types)) <==> action in types
  {
    if |types| > 1 {
      AnyOfMeans(cs, e, action, types[..|types| - 1]);
      assert types == types[..|types| - 1] + [types[|types| - 1]];
    }
  }

  // ----- one trigger -----

  lemma OnePrefix(e: EventData)
    ensures !(SnapshotOf(e).branch.Some? && SnapshotOf(e).tag.Some?)
  {
    assert "refs/heads/"[5] == 'h' && "refs/tags/"[5] == 't';
    assert "refs/heads/" <= e.ref ==> e.ref[5] == 'h';
  }

  /** The condition holds exactly if there is no reason to skip. */
  predicate Agrees(cs: Classes, e: Setting, c: Option<Cond>, m: Result<bool>) {
    m.Ok? && ((c.Some? && Holds(cs, e, c.value)) <==> !m.value)
  }

  lemma FilterOnText(cs: Classes, e: Setting, value: string, included: Names, ignored: Names)
    requires FiltersOk(cs, included, ignored)
    ensures var c := FilterCond(cs, Text(value), included, ignored);
            && (c.Some? <==> Configured(included, ignored))
            && (c.Some? ==> (Holds(cs, e, c.value) <==> RefSelected(cs, value, included, ignored)))
            && (c.None? ==> RefSelected(cs, value, included, ignored))
  {
    hide FiltersOk, Holds, RefSelected;
    if Configured(included, ignored) {
      CompiledIsInterpreted(cs, e, Text(value), value, included, ignored);
    } else {
      NotConfigured(cs, value, included, ignored);
    }
  }

  lemma NotConfigured(cs: Classes, value: string, included: Names, ignored: Names)
    requires !Configured(included, ignored)
    ensures RefSelected(cs, value, included, ignored) && FilterCond(cs, Text(value), included, ignored).None?
  {
  }

  lemma FilterShape(cs: Classes, field: Operand, included: Names, ignored: Names)
    requires FiltersOk(cs, included, ignored)
    ensures FilterCond(cs, field, included, ignored).Some? <==> Configured(included, ignored)
  {
    hide Parsed;
    if included.Some? && included.value != [] { FoldedIsSome(cs, field, included.value, true, None); }
    if ignored.Some? { FoldedIsSome(cs, field, ignored.value, false, Some(Const(true))); }
  }

  lemma FoldedIsSome(cs: Classes, field: Operand, ps: seq<string>, including: bool, state: Option<Cond>)
    ensures ps != [] || state.Some? ==> Folded(cs, field, ps, including, state).Some?
  {
  }

  lemma TagDecides(cs: Classes, e: Setting, tag: Operand, b: Cond, c: Cond)
    ensures Holds(cs, e, IsNull(tag)) <==> ValueOf(e, tag).None?
    ensures Holds(cs, e, Not(IsNull(tag))) <==> ValueOf(e, tag).Some?
    ensures Holds(cs, e, Or(And(IsNull(tag), b), And(Not(IsNull(tag)), c))) <==>
              if ValueOf(e, tag).None? then Holds(cs, e, b) else Holds(cs, e, c)
  {
    assert Holds(cs, e, And(IsNull(tag), b)) <==> ValueOf(e, tag).None? && Holds(cs, e, b);
    assert Holds(cs, e, Not(IsNull(tag))) <==> ValueOf(e, tag).Some?;
    assert Holds(cs, e, And(Not(IsNull(tag)), c)) <==> ValueOf(e, tag).Some? && Holds(cs, e, c);
  }

  /** What the filters of a push trigger come to: those of the kind of ref that was pushed decide,
      and a trigger with filters for the other kind only does not match. */
  lemma PushPartsMean(cs: Classes, e: Setting, t: Trigger, x: Expressions)
    requires e.given(x.eventPredicate)
    ensures var branch, tag := FilterCond(cs, x.branch, t.branches, t.branchesIgnore),
        FilterCond(cs, x.tag, t.tags, t.tagsIgnore);
            Holds(cs, e, AllOf(Given(x.eventPredicate), PushParts(cs, t, x))) <==>
              if ValueOf(e, x.tag).None? then (if branch.Some? then Holds(cs, e, branch.value) else tag.None?)
              else if tag.Some? then Holds(cs, e, tag.value) else branch.None?
  {
    hide FilterCond;
    var parts := PushParts(cs, t, x);
    var branch, tag := FilterCond(cs, x.branch, t.branches, t.branchesIgnore),
      FilterCond(cs, x.tag, t.tags, t.tagsIgnore);
    AllOfMeans(cs, e, Given(x.eventPredicate), parts);
    assert Holds(cs, e, Given(x.eventPredicate));
    TagDecides(cs, e, x.tag, if branch.Some? then branch.value else Const(true), if tag.Some? then tag.value
      else Const(true));
    hide Holds, AllOf;
    if branch.Some? && tag.Some? {
      assert |parts| == 1;
    } else if branch.Some? {
      assert parts[0] == IsNull(x.tag) && parts[1] == branch.value;
    } else if tag.Some? {
      assert parts[0] == Not(IsNull(x.tag)) && parts[1] == tag.value;
    }
  }

  /** The condition of a push trigger before paths are looked at, on a branch. */
  lemma BranchPush(cs: Classes, e: Setting, t: Trigger, x: Expressions, s: Snapshot, branch: string)
    requires FiltersOk(cs, t.branches, t.branchesIgnore) && FiltersOk(cs, t.tags, t.tagsIgnore)
    requires s.branch == Some(branch) && s.tag == None && x.branch == Text(branch) && x.tag == Null
    requires e.given(x.eventPredicate)
    ensures Agrees(cs, e, Some(AllOf(Given(x.eventPredicate), PushParts(cs, t, x))), MismatchPush(cs, t, s))
    ensures Holds(cs, e, AllOf(Given(x.eventPredicate), PushParts(cs, t, x))) <==> PushBranchSelected(cs, t, branch)
  {
    PushPartsMean(cs, e, t, x);
    FilterShape(cs, x.tag, t.tags, t.tagsIgnore);
    FilterOnText(cs, e, branch, t.branches, t.branchesIgnore);
    hide FiltersOk, RefSelected, FilterCond, AllOf, Holds, PushParts;
  }

  /** The same, on a tag. */
  lemma TagPush(cs: Classes, e: Setting, t: Trigger, x: Expressions, s: Snapshot, tag: string)
    requires FiltersOk(cs, t.branches, t.branchesIgnore) && FiltersOk(cs, t.tags, t.tagsIgnore)
    requires s.branch == None && s.tag == Some(tag) && x.branch == Null && x.tag == Text(tag)
    requires e.given(x.eventPredicate)
    ensures Agrees(cs, e, Some(AllOf(Given(x.eventPredicate), PushParts(cs, t, x))), MismatchPush(cs, t, s))
  {
    PushPartsMean(cs, e, t, x);
    FilterShape(cs, x.branch, t.branches, t.branchesIgnore);
    FilterOnText(cs, e, tag, t.tags, t.tagsIgnore);
    hide FiltersOk, RefSelected, FilterCond, AllOf, Holds, PushParts;
  }

  /** Looking at the changed paths last, both ways come to the same. */
  lemma PathsAgree(cs: Classes, lint: string -> bool, e: Setting, t: Trigger, s: Snapshot, cond: Cond)
    requires t.PathFilters() && PathFiltersOk(cs, lint, t.paths, t.pathsIgnore) && Holds(cs, e, cond)
    requires t.event == "pull_request" || (t.event == "push" && s.tag.None?)
    requires WithPaths(cs, t, s, cond).Ok?
    ensures Agrees(cs, e, WithPaths(cs, t, s, cond).value, MismatchPaths(cs, lint, t, s))
  {
    hide PathFiltersOk, PathsSelected, Holds;
  }

  lemma AgreesOnPush(cs: Classes, lint: string -> bool, e: Setting, t: Trigger, ev: EventData, p: string)
    requires t.event == "push" && PathsAccepted(cs, lint, t) && e.given(p)
    requires TranslatePush(cs, t, ExpressionsOf(ev, p), SnapshotOf(ev), true).Ok?
    ensures Agrees(cs, e, TranslatePush(cs, t, ExpressionsOf(ev, p), SnapshotOf(ev), true).value,
        MismatchOf(cs, lint, t, SnapshotOf(ev)))
  {
    hide FiltersOk, PathFiltersOk, PathsSelected, Holds, RefSelected, MismatchPush, PushParts, PushBranchSelected;
    var x, s := ExpressionsOf(ev, p), SnapshotOf(ev);
    OnePrefix(ev);
    if s.branch.Some? { BranchPush(cs, e, t, x, s, s.branch.value); } else { TagPush(cs, e, t, x, s, s.tag.value); }
    var cond := AllOf(Given(p), PushParts(cs, t, x));
    if t.PathFilters() && s.tag.None? && PushBranchSelected(cs, t, s.branch.value) {
      PathsAgree(cs, lint, e, t, s, cond);
    }
  }

  lemma BaseCondition(cs: Classes, e: Setting, t: Trigger, base: Option<string>)
    requires FiltersOk(cs, t.branches, t.branchesIgnore) && (t.HasBranches() ==> base.Some?)
    ensures MismatchBase(cs, t, base).Ok?
    ensures var c := FilterCond(cs, Quoted(base), t.branches, t.branchesIgnore);
            MismatchBase(cs, t, base).value <==> c.Some? && !Holds(cs, e, c.value)
    ensures MismatchBase(cs, t, base).value <==>
        base.Some? && !RefSelected(cs, base.value, t.branches, t.branchesIgnore)
  {
    hide Holds, RefSelected;
    FilterShape(cs, Quoted(base), t.branches, t.branchesIgnore);
    if base.Some? { FilterOnText(cs, e, base.value, t.branches, t.branchesIgnore); }
  }

  /** The condition of a pull request trigger before paths are looked at. */
  lemma PullRequestCondition(cs: Classes, e: Setting, t: Trigger, x: Expressions, s: Snapshot, types: seq<string>)
    requires FiltersOk(cs, t.branches, t.branchesIgnore) && (t.HasBranches() ==> s.baseBranch.Some?)
    requires x.baseBranch == Quoted(s.baseBranch) && s.action.Some? && x.action == Text(s.action.value)
    requires e.given(x.eventPredicate)
    ensures MismatchBase(cs, t, s.baseBranch).Ok?
    ensures var branch := FilterCond(cs, x.baseBranch, t.branches, t.branchesIgnore);
            Holds(cs, e, AllOf(Given(x.eventPredicate),
              (if branch.Some? then [branch.value] else []) + [AnyOf(x.action, types)])) <==>
              !MismatchBase(cs, t, s.baseBranch).value && s.action.value in types
    ensures MismatchBase(cs, t, s.baseBranch).value <==>
              s.baseBranch.Some? && !RefSelected(cs, s.baseBranch.value, t.branches, t.branchesIgnore)
  {
    hide FiltersOk, RefSelected, FilterCond, AllOf, AnyOf;
    var branch := FilterCond(cs, x.baseBranch, t.branches, t.branchesIgnore);
    var rest := (if branch.Some? then [branch.value] else []) + [AnyOf(x.action, types)];
    AllOfMeans(cs, e, Given(x.eventPredicate), rest);
    AnyOfMeans(cs, e, s.action.value, types);
    BaseCondition(cs, e, t, s.baseBranch);
    hide MismatchBase;
    assert rest[|rest| - 1] == AnyOf(x.action, types) && (branch.Some? ==> rest[0] == branch.value);
  }

  lemma AgreesOnPullRequest(cs: Classes, lint: string -> bool, e: Setting, t: Trigger, ev: EventData, p: string)
    requires t.event == "pull_request" && PathsAccepted(cs, lint, t) && e.given(p)
    requires TranslatePullRequest(cs, t, ExpressionsOf(ev, p), SnapshotOf(ev), true).Ok?
    ensures Agrees(cs, e, TranslatePullRequest(cs, t, ExpressionsOf(ev, p), SnapshotOf(ev), true).value,
        MismatchOf(cs, lint, t, SnapshotOf(ev)))
  {
    hide FiltersOk, PathFiltersOk, PathsSelected, RefSelected, FilterCond, AllOf, AnyOf, Holds, MismatchBase,
      MismatchPaths;
    var x, s := ExpressionsOf(ev, p), SnapshotOf(ev);
    var types := if t.types.Some? then t.types.value else DEFAULT_PULL_REQUEST_ACTIONS;
    PullRequestCondition(cs, e, t, x, s, types);
    var branch := FilterCond(cs, x.baseBranch, t.branches, t.branchesIgnore);
    var cond := AllOf(Given(p), (if branch.Some? then [branch.value] else []) + [AnyOf(x.action, types)]);
    if t.PathFilters() {
      if Holds(cs, e, cond) { PathsAgree(cs, lint, e, t, s, cond); }
    } else {
      NoPaths(cs, lint, t, s);
    }
  }

  lemma NoPaths(cs: Classes, lint: string -> bool, t: Trigger, s: Snapshot)
    requires !t.PathFilters() || (t.event != "push" && t.event != "pull_request")
    ensures MismatchPaths(cs, lint, t, s) == Ok(false)
  {
  }

  lemma AgreesOnMergeGroup(cs: Classes, lint: string -> bool, e: Setting, t: Trigger, ev: EventData, p: string)
    requires t.event == "merge_group" && e.given(p)
    requires TranslateMergeGroup(cs, t, ExpressionsOf(ev, p), SnapshotOf(ev)).Ok?
    ensures Agrees(cs, e, TranslateMergeGroup(cs, t, ExpressionsOf(ev, p), SnapshotOf(ev)).value,
        MismatchOf(cs, lint, t, SnapshotOf(ev)))
  {
    hide FiltersOk, PathFiltersOk, PathsSelected, RefSelected, FilterCond, AllOf, AnyOf;
    var x, s := ExpressionsOf(ev, p), SnapshotOf(ev);
    var types := if Listed(t.types) == [] then ["checks_requested"] else Listed(t.types);
    var branch := FilterCond(cs, x.mergeBase, t.branches, t.branchesIgnore);
    var rest := [AnyOf(x.action, types)] + if branch.Some? then [branch.value] else [];
    AllOfMeans(cs, e, Given(p), rest);
    AnyOfMeans(cs, e, s.action.value, types);
    BaseCondition(cs, e, t, s.mergeBase);
    assert rest[0] == AnyOf(x.action, types) && (branch.Some? ==> rest[1] == branch.value);
    hide MismatchBase;
  }

  lemma AgreesOnActivity(cs: Classes, lint: string -> bool, e: Setting, t: Trigger, ev: EventData, p: string)
    requires t.event in ACTIVITY_EVENTS && e.given(p)
    requires TranslateActivity(t, ExpressionsOf(ev, p), SnapshotOf(ev)).Ok?
    ensures Agrees(cs, e, TranslateActivity(t, ExpressionsOf(ev, p), SnapshotOf(ev)).value,
        MismatchOf(cs, lint, t, SnapshotOf(ev)))
  {
    hide PathFiltersOk, PathsSelected, AnyOf, MismatchPaths, AllSupported;
    var x, s := ExpressionsOf(ev, p), SnapshotOf(ev);
    var types := if t.event == "release" && Listed(t.types) == [] then RELEASE_ACTIONS else Listed(t.types);
    if types != [] { AnyOfMeans(cs, e, s.action.value, types); }
    ActivitiesAreOwn(t.event);
    NoPaths(cs, lint, t, s);
    ActivityMismatch(cs, t, s);
    ActivityCondition(cs, e, t, x, s, types);
    hide Holds, MismatchFilters;
  }

  lemma ActivityCondition(cs: Classes, e: Setting, t: Trigger, x: Expressions, s: Snapshot, types: seq<string>)
    requires TranslateActivity(t, x, s).Ok? && e.given(x.eventPredicate)
    requires types == if t.event == "release" && Listed(t.types) == [] then RELEASE_ACTIONS else Listed(t.types)
    ensures TranslateActivity(t, x, s).value.Some?
    ensures Holds(cs, e, TranslateActivity(t, x, s).value.value) <==>
        types == [] || Holds(cs, e, AnyOf(x.action, types))
  {
    hide AnyOf, AllSupported;
  }

  lemma ActivitiesAreOwn(event: string)
    requires event in ACTIVITY_EVENTS
    ensures event != "push" && event != "pull_request" && event != "merge_group"
  {
  }

  lemma ActivityMismatch(cs: Classes, t: Trigger, s: Snapshot)
    requires t.event in ACTIVITY_EVENTS
    ensures var types := if t.event == "release" && Listed(t.types) == [] then RELEASE_ACTIONS else Listed(t.types);
            MismatchFilters(cs, t, s) == Ok(s.action.Some? && types != [] && s.action.value !in types)
  {
    ActivitiesAreOwn(t.event);
  }

  lemma AgreesOnOne(cs: Classes, lint: string -> bool, e: Setting, t: Trigger, ev: EventData, p: string)
    requires t.event != "workflow_call" && e.given(p)
    requires Translate(cs, lint, t, ExpressionsOf(ev, p), SnapshotOf(ev), true).Ok?
    ensures Agrees(cs, e, Translate(cs, lint, t, ExpressionsOf(ev, p), SnapshotOf(ev), true).value,
        MismatchOf(cs, lint, t, SnapshotOf(ev)))
  {
    hide TranslatePush, TranslatePullRequest, TranslateMergeGroup, TranslateActivity, MismatchOf, SnapshotOf,
      ExpressionsOf;
    if t.event == "push" {
      AgreesOnPush(cs, lint, e, t, ev, p);
    } else if t.event == "pull_request" {
      AgreesOnPullRequest(cs, lint, e, t, ev, p);
    } else if t.event == "merge_group" {
      AgreesOnMergeGroup(cs, lint, e, t, ev, p);
    } else if t.event in ACTIVITY_EVENTS {
      AgreesOnActivity(cs, lint, e, t, ev, p);
    } else {
      NothingToMismatch(cs, lint, t, SnapshotOf(ev));
      PredicateOf(ev, p);
    }
  }

  lemma PredicateOf(ev: EventData, p: string)
    ensures ExpressionsOf(ev, p).eventPredicate == p
  {
  }

  lemma NothingToMismatch(cs: Classes, lint: string -> bool, t: Trigger, s: Snapshot)
    requires t.event !in ACTIVITY_EVENTS && t.event != "push" && t.event != "pull_request" && t.event != "merge_group"
    ensures MismatchOf(cs, lint, t, s) == Ok(false)
  {
  }

  // ----- a list of triggers -----

  /** The trigger is for the event, and nothing speaks against it. */
  predicate Matches(cs: Classes, lint: string -> bool, t: Trigger, event: string, s: Snapshot) {
    t.event == event && MismatchOf(cs, lint, t, s) == Ok(false)
  }

  ghost predicate AnyMatches(cs: Classes, lint: string -> bool, ts: seq<Trigger>, event: string, s: Snapshot) {
    exists t :: t in ts && Matches(cs, lint, t, event, s)
  }

  /** The trigger that FilterMismatch looks at matches; the event may have none. */
  ghost predicate FirstMatches(cs: Classes, lint: string -> bool, ts: seq<Trigger>, event: string, s: Snapshot) {
    forall i :: 0 <= i < |ts| && IsFirst(ts, event, i) ==> Matches(cs, lint, ts[i], event, s)
  }

  ghost predicate AnyHolds(cs: Classes, e: Setting, conds: seq<Cond>) {
    exists c :: c in conds && Holds(cs, e, c)
  }

  /** The condition applies and holds. */
  predicate Runs(cs: Classes, e: Setting, c: Option<Cond>) {
    c.Some? && Holds(cs, e, c.value)
  }

  ghost predicate Translates(cs: Classes, lint: string -> bool, ts: seq<Trigger>, ev: EventData, p: string) {
    forall i :: 0 <= i < |ts| ==> !Stops(cs, lint, ts[i], ev.name, ExpressionsOf(ev, p), SnapshotOf(ev))
  }

  ghost function ConditionOf(cs: Classes, lint: string -> bool, ts: seq<Trigger>, ev: EventData,
                             p: string): Option<Cond> {
    SomeOf(Terms(cs, lint, ts, ev.name, ExpressionsOf(ev, p), SnapshotOf(ev)))
  }

  lemma {:induction false} SomeOfHolds(cs: Classes, e: Setting, conds: seq<Cond>)
    ensures Runs(cs, e, SomeOf(conds)) <==> AnyHolds(cs, e, conds)
  {
    hide Holds;
    if conds != [] {
      var front, last := conds[..|conds| - 1], conds[|conds| - 1];
      SomeOfHolds(cs, e, front);
      assert conds == front + [last];
      assert SomeOf(front).None? ==> front == [];
      OrHolds(cs, e, if front == [] then last else SomeOf(front).value, last);
    }
  }

  lemma OrHolds(cs: Classes, e: Setting, a: Cond, b: Cond)
    ensures Holds(cs, e, Or(a, b)) <==> Holds(cs, e, a) || Holds(cs, e, b)
  {
  }

  lemma {:induction false} TermsHold(cs: Classes, lint: string -> bool, e: Setting, ts: seq<Trigger>, ev: EventData,
                                     p: string)
    requires ev.name != "workflow_call" && e.given(p) && Translates(cs, lint, ts, ev, p)
    ensures AnyHolds(cs, e, Terms(cs, lint, ts, ev.name, ExpressionsOf(ev, p), SnapshotOf(ev))) <==>
              AnyMatches(cs, lint, ts, ev.name, SnapshotOf(ev))
  {
    hide Translate, MismatchOf, SnapshotOf, ExpressionsOf, Holds, AnyHolds, AnyMatches;
    if ts == [] {
      NothingInNone(cs, lint, e, ev.name, SnapshotOf(ev));
    } else {
      var front, last := ts[..|ts| - 1], ts[|ts| - 1];
      assert ts == front + [last];
      TermsHold(cs, lint, e, front, ev, p);
      var x, s := ExpressionsOf(ev, p), SnapshotOf(ev);
      if last.event == ev.name {
        assert !Stops(cs, lint, last, ev.name, x, s);
        AgreesOnOne(cs, lint, e, last, ev, p);
      }
      TermsSplit(cs, lint, e, front, last, ev.name, x, s);
      MatchesSplit(cs, lint, front, last, ev.name, s);
    }
  }

  lemma NothingInNone(cs: Classes, lint: string -> bool, e: Setting, event: string, s: Snapshot)
    ensures !AnyHolds(cs, e, []) && !AnyMatches(cs, lint, [], event, s)
  {
  }

  lemma MatchesSplit(cs: Classes, lint: string -> bool, front: seq<Trigger>, last: Trigger, event: string, s: Snapshot)
    ensures AnyMatches(cs, lint, front + [last], event, s) <==>
              AnyMatches(cs, lint, front, event, s) || Matches(cs, lint, last, event, s)
  {
    hide Matches;
    assert last in front + [last];
    if t :| t in front && Matches(cs, lint, t, event, s) { assert t in front + [last]; }
  }

  lemma TermsSplit(cs: Classes, lint: string -> bool, e: Setting, front: seq<Trigger>, last: Trigger,
                   event: string, x: Expressions, s: Snapshot)
    ensures var r := Own(cs, lint, last, event, x, s);
            AnyHolds(cs, e, Terms(cs, lint, front + [last], event, x, s)) <==>
              AnyHolds(cs, e, Terms(cs, lint, front, event, x, s)) ||
                (last.event == event && r.Ok? && Runs(cs, e, r.value))
  {
    hide Own, Holds;
    assert (front + [last])[..|front|] == front;
  }

  lemma {:induction false} FirstExists(ts: seq<Trigger>, event: string) returns (i: nat)
    requires Declares(ts, event)
    ensures i < |ts| && IsFirst(ts, event, i)
    ensures forall k :: 0 <= k < |ts| && IsFirst(ts, event, k) ==> k == i
  {
    i := 0;
    while ts[i].event != event
      invariant i < |ts| && forall k :: 0 <= k < i ==> ts[k].event != event
      invariant exists k :: i <= k < |ts| && ts[k].event == event
      decreases |ts| - i
    {
      i := i + 1;
    }
  }

  /** The condition asks whether any trigger of the event matches. */
  lemma ConditionTakesAny(cs: Classes, lint: string -> bool, e: Setting, ts: seq<Trigger>, ev: EventData, p: string)
    requires ev.name != "workflow_call" && e.given(p) && Translates(cs, lint, ts, ev, p)
    ensures Runs(cs, e, ConditionOf(cs, lint, ts, ev, p)) <==> AnyMatches(cs, lint, ts, ev.name, SnapshotOf(ev))
  {
    hide *;
    TermsHold(cs, lint, e, ts, ev, p);
    SomeOfHolds(cs, e, Terms(cs, lint, ts, ev.name, ExpressionsOf(ev, p), SnapshotOf(ev)));
    ConditionIs(cs, lint, ts, ev, p);
  }

  lemma ConditionIs(cs: Classes, lint: string -> bool, ts: seq<Trigger>, ev: EventData, p: string)
    ensures ConditionOf(cs, lint, ts, ev, p) ==
        SomeOf(Terms(cs, lint, ts, ev.name, ExpressionsOf(ev, p), SnapshotOf(ev)))
  {
    hide SomeOf, Terms;
  }

  /** No skip is explained: the event has a trigger, and the first one matches. */
  ghost predicate Unexplained(cs: Classes, lint: string -> bool, ts: seq<Trigger>, event: string, s: Snapshot) {
    Declares(ts, event) && FirstMatches(cs, lint, ts, event, s)
  }

  /** For every accepted list: the condition applies and holds exactly when neither explanation of a
      skip applies, if and only if the first trigger of the event matches or none of them does. */
  lemma PathsAgreeExactly(cs: Classes, lint: string -> bool, e: Setting, ts: seq<Trigger>, ev: EventData, p: string)
    requires ev.name != "workflow_call" && e.given(p) && Translates(cs, lint, ts, ev, p)
    ensures (Runs(cs, e, ConditionOf(cs, lint, ts, ev, p)) <==> Unexplained(cs, lint, ts, ev.name, SnapshotOf(ev))) <==>
              FirstMatches(cs, lint, ts, ev.name, SnapshotOf(ev)) || !AnyMatches(cs, lint, ts, ev.name, SnapshotOf(ev))
  {
    hide Matches, Translates, ConditionOf, Runs, SnapshotOf;
    ConditionTakesAny(cs, lint, e, ts, ev, p);
    var s := SnapshotOf(ev);
    if Declares(ts, ev.name) {
      var i := FirstExists(ts, ev.name);
      if FirstMatches(cs, lint, ts, ev.name, s) { assert ts[i] in ts && Matches(cs, lint, ts[i], ev.name, s); }
    } else {
      NoneMatches(cs, lint, ts, ev.name, s);
    }
  }

  lemma NoneMatches(cs: Classes, lint: string -> bool, ts: seq<Trigger>, event: string, s: Snapshot)
    requires !Declares(ts, event)
    ensures !AnyMatches(cs, lint, ts, event, s)
  {
    hide MismatchOf;
  }

  predicate AtMostOne(ts: seq<Trigger>, event: string) {
    forall i, j :: 0 <= i < j < |ts| ==> !(ts[i].event == event && ts[j].event == event)
  }

  /** With at most one trigger for the event the two always agree. */
  lemma TwoPathsAgree(cs: Classes, lint: string -> bool, e: Setting, ts: seq<Trigger>, ev: EventData, p: string)
    requires ev.name != "workflow_call" && e.given(p) && AtMostOne(ts, ev.name) && Translates(cs, lint, ts, ev, p)
    ensures Runs(cs, e, ConditionOf(cs, lint, ts, ev, p)) <==> Unexplained(cs, lint, ts, ev.name, SnapshotOf(ev))
  {
    hide Translates, ConditionOf, Runs, SnapshotOf, MismatchOf;
    PathsAgreeExactly(cs, lint, e, ts, ev, p);
    var s := SnapshotOf(ev);
    if t :| t in ts && Matches(cs, lint, t, ev.name, s) {
      var i :| 0 <= i < |ts| && ts[i] == t;
      forall k | 0 <= k < |ts| && IsFirst(ts, ev.name, k) ensures k == i { }
    }
  }

  /** selectWorkflowTrigger: the condition, whether it applies, and whether a skip is explained. */
  method SelectTrigger(cs: Classes, lint: string -> bool, ghost e: Setting, ts: seq<Trigger>, ev: EventData, p: string)
    returns (r: Result<(Option<Cond>, bool)>)
    requires ev.name != "workflow_call" && e.given(p)
    ensures r.Ok? <==> Translates(cs, lint, ts, ev, p)
    ensures r.Ok? ==> (Runs(cs, e, r.value.0) <==> AnyMatches(cs, lint, ts, ev.name, SnapshotOf(ev)))
    ensures r.Ok? ==> (r.value.1 <==> !Unexplained(cs, lint, ts, ev.name, SnapshotOf(ev)))
    ensures r.Ok? ==>
              ((Runs(cs, e, r.value.0) <==> !r.value.1) <==>
                FirstMatches(cs, lint, ts, ev.name, SnapshotOf(ev)) ||
                  !AnyMatches(cs, lint, ts, ev.name, SnapshotOf(ev)))
  {
    hide Stops, Terms, SomeOf, MismatchOf, Runs, SnapshotOf, ExpressionsOf, AnyMatches;
    var x, s := ExpressionsOf(ev, p), SnapshotOf(ev);
    var c := TranslateEvent(cs, lint, ts, ev.name, x, s);
    if c.Err? {
      return Err(c.reason);
    }
    ConditionTakesAny(cs, lint, e, ts, ev, p);
    PathsAgreeExactly(cs, lint, e, ts, ev, p);
    var declared := Declares(ts, ev.name);
    if !declared {
      return Ok((c.value, true));
    }
    var mismatch := FilterMismatch(cs, lint, ts, ev.name, s);
    FirstIsJudged(cs, lint, e, ts, ev, p);
    r := Ok((c.value, mismatch.value));
  }

  /** Looking at the first trigger never fails on an accepted list, and says whether it matches. */
  lemma FirstIsJudged(cs: Classes, lint: string -> bool, e: Setting, ts: seq<Trigger>, ev: EventData, p: string)
    requires ev.name != "workflow_call" && e.given(p) && Translates(cs, lint, ts, ev, p) && Declares(ts, ev.name)
    ensures forall i :: 0 <= i < |ts| && IsFirst(ts, ev.name, i) ==>
              var m := MismatchOf(cs, lint, ts[i], SnapshotOf(ev));
              m.Ok? && (m.value <==> !FirstMatches(cs, lint, ts, ev.name, SnapshotOf(ev)))
  {
    hide Translate, MismatchOf, SnapshotOf, ExpressionsOf, Holds;
    var i := FirstExists(ts, ev.name);
    assert !Stops(cs, lint, ts[i], ev.name, ExpressionsOf(ev, p), SnapshotOf(ev));
    AgreesOnOne(cs, lint, e, ts[i], ev, p);
  }

  // ----- where the two paths part -----

  function OnBranch(branch: string): Trigger {
    Trigger("push", None, Some([branch]), None, None, None, None, None, None)
  }

  const PUSH_TO_B := EventData("push", "refs/heads/b", None, None, None, None)

  lemma LetterGlob(cs: Classes, c: char, s: string)
    requires c == 'a' || c == 'b'
    ensures Parsed(cs, [c], false, 0) == Some([One(Literal(c))]) && Bare([c]) == [c]
    ensures Accepts(cs, [One(Literal(c))], s) <==> s == [c]
  {
    assert Parsed(cs, [c], false, 1) == Some([]);
    OneFirst(cs, Literal(c), [], s);
    assert [One(Literal(c))] + [] == [One(Literal(c))];
    if s != "" && s[0] == c && s[1..] == "" { assert s == [s[0]] + s[1..]; }
  }

  lemma LetterFilter(cs: Classes, e: Setting, c: char)
    requires c == 'a' || c == 'b'
    ensures FiltersOk(cs, Some([[c]]), None) && (RefSelected(cs, "b", Some([[c]]), None) <==> c == 'b')
  {
    LetterGlob(cs, c, "b");
    assert [[c]][..0] == [];
    assert Selected(cs, [[c]], "b", true, false) <==> Hits(cs, [c], "b", false);
  }

  /** A list on which the two paths part, outside the condition of PathsAgreeExactly: the second trigger
      matches and the first does not, so the condition holds although a mismatch is reported. */
  lemma SecondTriggerIsNotExplained(cs: Classes, lint: string -> bool, e: Setting)
    requires e.given("p")
    ensures var ts := [OnBranch("a"), OnBranch("b")];
            && Translates(cs, lint, ts, PUSH_TO_B, "p")
            && Runs(cs, e, ConditionOf(cs, lint, ts, PUSH_TO_B, "p"))
            && !FirstMatches(cs, lint, ts, "push", SnapshotOf(PUSH_TO_B)) && Declares(ts, "push")
  {
    hide *;
    var a, b := OnBranch("a"), OnBranch("b");
    FromLetters(cs, lint, e, a, false);
    FromLetters(cs, lint, e, b, true);
    SecondOnlyMatches(cs, lint, a, b, SnapshotOf(PUSH_TO_B));
    BothTranslate(cs, lint, a, b);
    PushEvent();
    ConditionTakesAny(cs, lint, e, [a, b], PUSH_TO_B, "p");
  }

  lemma PushEvent()
    ensures PUSH_TO_B.name == "push" && "push" != "workflow_call"
  {
  }

  lemma BothTranslate(cs: Classes, lint: string -> bool, a: Trigger, b: Trigger)
    requires a.event == "push" && Translate(cs, lint, a, ExpressionsOf(PUSH_TO_B, "p"), SnapshotOf(PUSH_TO_B), true).Ok?
    requires b.event == "push" && Translate(cs, lint, b, ExpressionsOf(PUSH_TO_B, "p"), SnapshotOf(PUSH_TO_B), true).Ok?
    ensures Translates(cs, lint, [a, b], PUSH_TO_B, "p")
  {
    hide Translate, ExpressionsOf, SnapshotOf;
  }

  /** A trigger for one branch of one letter translates, and matches if the letter is b. */
  lemma FromLetters(cs: Classes, lint: string -> bool, e: Setting, t: Trigger, matches: bool)
    requires e.given("p") && t == if matches then OnBranch("b") else OnBranch("a")
    ensures t.event == "push" && Translate(cs, lint, t, ExpressionsOf(PUSH_TO_B, "p"), SnapshotOf(PUSH_TO_B), true).Ok?
    ensures MismatchOf(cs, lint, t, SnapshotOf(PUSH_TO_B)) == Ok(!matches)
  {
    LetterFilter(cs, e, if matches then 'b' else 'a');
    hide RefSelected, SnapshotOf, ExpressionsOf, FilterCond, MismatchOf, Translate;
    BranchB();
    FiltersAbsent(cs);
    OneBranch(cs, lint, e, t, ExpressionsOf(PUSH_TO_B, "p"), SnapshotOf(PUSH_TO_B), matches);
  }

  lemma BranchB()
    ensures var x, s := ExpressionsOf(PUSH_TO_B, "p"), SnapshotOf(PUSH_TO_B);
            s.branch == Some("b") && s.tag == None && x.branch == Text("b") && x.tag == Null && x.eventPredicate == "p"
  {
    assert "refs/heads/b"[|"refs/heads/"|..] == "b";
    assert "refs/heads/"[5] == 'h' && "refs/tags/"[5] == 't' && "refs/heads/b"[5] == 'h';
  }

  lemma SecondOnlyMatches(cs: Classes, lint: string -> bool, a: Trigger, b: Trigger, s: Snapshot)
    requires a.event == "push" && MismatchOf(cs, lint, a, s) == Ok(true)
    requires b.event == "push" && MismatchOf(cs, lint, b, s) == Ok(false)
    ensures AnyMatches(cs, lint, [a, b], "push", s) && !FirstMatches(cs, lint, [a, b], "push", s)
    ensures Declares([a, b], "push")
  {
    hide MismatchOf;
    assert b in [a, b] && a in [a, b];
    assert IsFirst([a, b], "push", 0);
  }

  lemma FiltersAbsent(cs: Classes)
    ensures FiltersOk(cs, None, None)
  {
  }

  lemma OneBranch(cs: Classes, lint: string -> bool, e: Setting, t: Trigger, x: Expressions, s: Snapshot, matches: bool)
    requires t.branches.Some? && t.branches.value != [] && t == OnBranch(t.branches.value[0])
    requires FiltersOk(cs, t.branches, None) && FiltersOk(cs, None, None)
    requires s.branch == Some("b") && s.tag == None && x.branch == Text("b") && x.tag == Null
    requires x.eventPredicate != "" && e.given(x.eventPredicate)
    requires RefSelected(cs, "b", t.branches, None) <==> matches
    ensures Translate(cs, lint, t, x, s, true).Ok? && Translate(cs, lint, t, x, s, true).value.Some?
    ensures Holds(cs, e, Translate(cs, lint, t, x, s, true).value.value) <==> matches
    ensures MismatchOf(cs, lint, t, s) == Ok(!matches)
  {
    BranchPush(cs, e, t, x, s, "b");
    hide RefSelected, FiltersOk, FilterCond, AllOf, Holds, PushParts;
  }
}
