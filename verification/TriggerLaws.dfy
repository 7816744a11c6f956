/** When a trigger fires and when it is accepted, read off the trigger and the event themselves. */
module TriggerLaws {
  import opened Pipelines
  import opened Globs
  import opened RefFilters
  import opened Triggers
  import opened TriggerAgreement

  // ----- filters -----

  /** A pattern without the "!" in front. */
  function Body(p: string): string {
    if p != "" && p[0] == '!' then p[1..] else p
  }

  predicate Excludes(p: string) {
    p != "" && p[0] == '!'
  }

  ghost predicate NamedBy(cs: Classes, p: string, value: string, path: bool) {
    GlobMatches(cs, Body(p), path, 0, value)
  }

  /** An include list lets a value pass if the last pattern that names it has no "!", an ignore list if no pattern
      names it; without a list everything passes. */
  ghost predicate Passes(cs: Classes, included: Names, ignored: Names, value: string, path: bool) {
    if included.Some? then
      exists i :: 0 <= i < |included.value| && !Excludes(included.value[i]) &&
        NamedBy(cs, included.value[i], value, path) &&
        forall j :: i < j < |included.value| ==> !NamedBy(cs, included.value[j], value, path)
    else ignored.None? || forall i :: 0 <= i < |ignored.value| ==> !NamedBy(cs, ignored.value[i], value, path)
  }

  /** Lists that are accepted: only one of them; no empty or malformed pattern; in an include list a "!" only after a
      pattern without, in an ignore list none; in paths no escapes, and nothing that the linter refuses. */
  ghost predicate GoodLists(cs: Classes, lint: string -> bool, included: Names, ignored: Names, path: bool) {
    && (included.None? || ignored.None?)
    && (included.Some? ==> forall i :: 0 <= i < |included.value| ==>
          && Body(included.value[i]) != "" && GoodGlob(cs, lint, Body(included.value[i]), path)
          && (Excludes(included.value[i]) ==> exists j :: 0 <= j < i && !Excludes(included.value[j])))
    && (ignored.Some? ==> forall i :: 0 <= i < |ignored.value| ==>
          && !Excludes(ignored.value[i]) && GoodGlob(cs, lint, ignored.value[i], path)
          && (path ==> ignored.value[i] != ""))
  }

  ghost predicate GoodGlob(cs: Classes, lint: string -> bool, g: string, path: bool) {
    WellFormed(cs, g, path, 0) && (path ==> '\\' !in g && lint(g))
  }

  lemma HitIsName(cs: Classes, p: string, value: string, path: bool)
    requires Readable(cs, Bare(p), path)
    ensures Hits(cs, p, value, path) <==> NamedBy(cs, p, value, path)
  {
    hide Accepts, GlobMatches, Parsed;
    GlobMeaning(cs, Bare(p), path, 0, value);
  }

  lemma SelectedPasses(cs: Classes, ps: seq<string>, value: string, including: bool, path: bool)
    requires forall i :: 0 <= i < |ps| ==> Readable(cs, Bare(ps[i]), path)
    ensures Selected(cs, ps, value, including, path) <==>
              Passes(cs, if including then Some(ps) else None, if including then None else Some(ps), value, path)
  {
    hide Hits, NamedBy, Selected, Readable;
    LastMatchWins(cs, ps, value, including, path);
    forall i | 0 <= i < |ps| ensures Hits(cs, ps[i], value, path) <==> NamedBy(cs, ps[i], value, path) {
      HitIsName(cs, ps[i], value, path);
    }
  }

  /** Both forms of a ref filter select what the lists let pass. */
  lemma RefsPass(cs: Classes, value: string, included: Names, ignored: Names)
    requires FiltersOk(cs, included, ignored)
    ensures RefSelected(cs, value, included, ignored) <==> Passes(cs, included, ignored, value, false)
  {
    hide Selected, Readable, NamedBy, PositiveBefore;
    if included.Some? {
      SelectedPasses(cs, included.value, value, true, false);
    } else if ignored.Some? {
      forall i | 0 <= i < |ignored.value| ensures Readable(cs, Bare(ignored.value[i]), false) { }
      SelectedPasses(cs, ignored.value, value, false, false);
    }
  }

  lemma PathsPass(cs: Classes, lint: string -> bool, paths: seq<string>, included: Names, ignored: Names)
    requires PathFiltersOk(cs, lint, included, ignored) && Configured(included, ignored)
    ensures PathsSelected(cs, paths, included, ignored) <==>
              exists i :: 0 <= i < |paths| && Passes(cs, included, ignored, paths[i], true)
  {
    hide Selected, Readable, Passes, PositiveBefore;
    var ps := if ignored.Some? then ignored.value else included.value;
    forall i | 0 <= i < |paths|
      ensures Selected(cs, ps, paths[i], ignored.None?, true) <==> Passes(cs, included, ignored, paths[i], true)
    {
      SelectedPasses(cs, ps, paths[i], ignored.None?, true);
    }
  }

  lemma ReadableExactly(cs: Classes, g: string, path: bool)
    ensures Readable(cs, g, path) <==> WellFormed(cs, g, path, 0)
  {
    hide Parsed, WellFormed;
    ParsedExactly(cs, g, path, 0);
  }

  lemma RefListsExactly(cs: Classes, lint: string -> bool, included: Names, ignored: Names)
    ensures FiltersOk(cs, included, ignored) <==> GoodLists(cs, lint, included, ignored, false)
  {
    hide Readable, WellFormed;
    forall g ensures Readable(cs, g, false) <==> WellFormed(cs, g, false, 0) { ReadableExactly(cs, g, false); }
  }

  lemma PathListsExactly(cs: Classes, lint: string -> bool, included: Names, ignored: Names)
    ensures PathFiltersOk(cs, lint, included, ignored) <==> GoodLists(cs, lint, included, ignored, true)
  {
    hide Readable, WellFormed;
    forall g ensures Readable(cs, g, true) <==> WellFormed(cs, g, true, 0) { ReadableExactly(cs, g, true); }
  }

  // ----- when a trigger fires -----

  predicate Visible(s: Option<string>) {
    s.Some? && exists i :: 0 <= i < |s.value| && !Invisible(s.value[i])
  }

  predicate Invisible(c: char) {
    c in "\t\n\U{000B}\U{000C}\r \U{0085}\U{00A0}\U{1680}\U{2028}\U{2029}\U{202F}\U{205F}\U{3000}" ||
    '\U{2000}' <= c <= '\U{200A}'
  }

  /** The activities that a trigger asks for; what it asks for when it names none depends on the event. */
  predicate Wanted(t: Trigger, action: string) {
    if t.types.Some? && (t.types.value != [] || t.event == "pull_request") then action in t.types.value
    else if t.event == "pull_request" then action == "opened" || action == "synchronize" || action == "reopened"
    else if t.event == "merge_group" then action == "checks_requested"
    else if t.event == "release" then
      action in ["published", "unpublished", "created", "edited", "deleted", "prereleased", "released"]
    else true
  }

  /** Events that are filtered by what they are about, apart from pull requests and merge groups. */
  predicate ByActivity(event: string) {
    event in ["release", "milestone", "branch_protection_rule", "discussion", "discussion_comment", "label", "issues",
      "pull_request_review", "pull_request_review_comment", "issue_comment"]
  }

  predicate HasRefs(included: Names, ignored: Names) {
    included.Some? || ignored.Some?
  }

  /** Everything but the changed paths: a push of a branch asks the branch filters and is passed over by tag filters
      alone, and the other way round for a tag. */
  ghost predicate FiresOnRef(cs: Classes, t: Trigger, ev: EventData) {
    if t.event == "push" then
      if "refs/heads/" <= ev.ref then
        if HasRefs(t.branches, t.branchesIgnore) then Passes(cs, t.branches, t.branchesIgnore, ev.ref[11..], false)
        else !HasRefs(t.tags, t.tagsIgnore)
      else
        "refs/tags/" <= ev.ref &&
        if HasRefs(t.tags, t.tagsIgnore) then Passes(cs, t.tags, t.tagsIgnore, ev.ref[10..], false)
        else !HasRefs(t.branches, t.branchesIgnore)
    else if t.event == "pull_request" then
      && ev.action.Some? && Wanted(t, ev.action.value)
      && (HasRefs(t.branches, t.branchesIgnore) ==>
            ev.baseRef.Some? && Passes(cs, t.branches, t.branchesIgnore, ev.baseRef.value, false))
    else if t.event == "merge_group" then
      && ev.action.Some? && Wanted(t, ev.action.value)
      && (HasRefs(t.branches, t.branchesIgnore) ==>
            && ev.mergeBaseRef.Some? && "refs/heads/" <= ev.mergeBaseRef.value
            && Passes(cs, t.branches, t.branchesIgnore, ev.mergeBaseRef.value[11..], false))
    else ByActivity(t.event) ==> ev.action.Some? && Wanted(t, ev.action.value)
  }

  /** Path filters are asked on pull requests and on pushes of branches. */
  predicate AsksPaths(t: Trigger, ev: EventData) {
    HasRefs(t.paths, t.pathsIgnore) && (t.event == "pull_request" || (t.event == "push" && "refs/heads/" <= ev.ref))
  }

  ghost predicate Fires(cs: Classes, t: Trigger, ev: EventData) {
    && t.event == ev.name && FiresOnRef(cs, t, ev)
    && (AsksPaths(t, ev) ==>
          && ev.changedPaths.Some?
          && exists i :: 0 <= i < |ev.changedPaths.value| &&
               Passes(cs, t.paths, t.pathsIgnore, ev.changedPaths.value[i], true))
  }

  lemma BlankIsInvisible(s: Option<string>)
    ensures UnlessBlank(s) == if Visible(s) then s else None
    ensures Visible(s) ==> s.Some?
  {
    forall c ensures Space(c) <==> Invisible(c) { InvisibleIsSpace(c); }
  }

  lemma InvisibleIsSpace(c: char)
    ensures Space(c) <==> Invisible(c)
  {
    assert '\t' as int == 9 && '\n' as int == 10 && '\r' as int == 13;
  }

  /** The observed values, one by one. */
  lemma SnapshotIs(ev: EventData)
    ensures var s := SnapshotOf(ev);
            && s.branch == (if "refs/heads/" <= ev.ref then Some(ev.ref[11..]) else None)
            && s.tag == (if "refs/tags/" <= ev.ref then Some(ev.ref[10..]) else None)
            && !(s.branch.Some? && s.tag.Some?)
            && s.action == (if Visible(ev.action) then ev.action else None)
            && s.baseBranch == (if Visible(ev.baseRef) then ev.baseRef else None)
            && s.mergeBase == (if ev.mergeBaseRef.Some? && "refs/heads/" < ev.mergeBaseRef.value
                               then Some(ev.mergeBaseRef.value[11..]) else None)
            && s.changedPaths == ev.changedPaths
            && (s.action.Some? <==> Visible(ev.action)) && (s.baseBranch.Some? <==> Visible(ev.baseRef))
  {
    hide Visible;
    OnePrefix(ev);
    BlankIsInvisible(ev.action);
    BlankIsInvisible(ev.baseRef);
  }

  lemma PushFires(cs: Classes, lint: string -> bool, t: Trigger, ev: EventData, p: string)
    requires t.event == ev.name == "push" && PathsAccepted(cs, lint, t)
    requires TranslatePush(cs, t, ExpressionsOf(ev, p), SnapshotOf(ev), true).Ok?
    ensures MismatchOf(cs, lint, t, SnapshotOf(ev)) == Ok(false) <==> Fires(cs, t, ev)
  {
    hide FiltersOk, PathFiltersOk, PathsSelected, RefSelected, PushParts, SnapshotOf, Passes, Visible, FilterCond,
      AllOf;
    var s := SnapshotOf(ev);
    SnapshotIs(ev);
    if s.branch.Some? { RefsPass(cs, s.branch.value, t.branches, t.branchesIgnore); }
    if s.tag.Some? { RefsPass(cs, s.tag.value, t.tags, t.tagsIgnore); }
    if t.PathFilters() && s.changedPaths.Some? { PathsPass(cs, lint, s.changedPaths.value, t.paths, t.pathsIgnore); }
    AllPass(cs, t.branches, t.branchesIgnore);
    AllPass(cs, t.tags, t.tagsIgnore);
  }

  lemma AllPass(cs: Classes, included: Names, ignored: Names)
    ensures !HasRefs(included, ignored) ==> forall value, path :: Passes(cs, included, ignored, value, path)
  {
  }

  lemma PullRequestFires(cs: Classes, lint: string -> bool, t: Trigger, ev: EventData, p: string)
    requires t.event == ev.name == "pull_request" && PathsAccepted(cs, lint, t)
    requires TranslatePullRequest(cs, t, ExpressionsOf(ev, p), SnapshotOf(ev), true).Ok?
    ensures MismatchOf(cs, lint, t, SnapshotOf(ev)) == Ok(false) <==> Fires(cs, t, ev)
  {
    hide FiltersOk, PathFiltersOk, PathsSelected, RefSelected, SnapshotOf, Passes, Visible, FilterCond, AllOf, AnyOf,
      AllSupported;
    var s := SnapshotOf(ev);
    SnapshotIs(ev);
    if s.baseBranch.Some? { RefsPass(cs, s.baseBranch.value, t.branches, t.branchesIgnore); }
    if t.PathFilters() && s.changedPaths.Some? { PathsPass(cs, lint, s.changedPaths.value, t.paths, t.pathsIgnore); }
    AllPass(cs, t.branches, t.branchesIgnore);
  }

  lemma MergeGroupFires(cs: Classes, lint: string -> bool, t: Trigger, ev: EventData, p: string)
    requires t.event == ev.name == "merge_group"
    requires TranslateMergeGroup(cs, t, ExpressionsOf(ev, p), SnapshotOf(ev)).Ok?
    ensures MismatchOf(cs, lint, t, SnapshotOf(ev)) == Ok(false) <==> Fires(cs, t, ev)
  {
    hide FiltersOk, PathFiltersOk, PathsSelected, RefSelected, SnapshotOf, Passes, Visible, FilterCond, AllOf, AnyOf,
      AllSupported;
    var s := SnapshotOf(ev);
    SnapshotIs(ev);
    if s.mergeBase.Some? { RefsPass(cs, s.mergeBase.value, t.branches, t.branchesIgnore); }
    AllPass(cs, t.branches, t.branchesIgnore);
    NoPaths(cs, lint, t, s);
  }

  lemma ActivityFires(cs: Classes, lint: string -> bool, t: Trigger, ev: EventData, p: string)
    requires t.event == ev.name && t.event in ACTIVITY_EVENTS
    requires TranslateActivity(t, ExpressionsOf(ev, p), SnapshotOf(ev)).Ok?
    ensures MismatchOf(cs, lint, t, SnapshotOf(ev)) == Ok(false) <==> Fires(cs, t, ev)
  {
    hide PathFiltersOk, PathsSelected, SnapshotOf, Passes, Visible, AnyOf, AllSupported;
    var s := SnapshotOf(ev);
    SnapshotIs(ev);
    ActivitiesAreOwn(t.event);
    ActivityMismatch(cs, t, s);
    NoPaths(cs, lint, t, s);
  }

  // ----- when a trigger is accepted -----

  /** The activities that can be asked for. */
  predicate Activity(event: string, action: string) {
    if event == "pull_request" then
      action in ["assigned", "unassigned", "labeled", "unlabeled", "opened", "edited", "closed", "reopened",
        "synchronize", "converted_to_draft", "locked", "unlocked", "enqueued", "dequeued", "milestoned",
        "demilestoned", "ready_for_review", "review_requested", "review_request_removed", "auto_merge_enabled",
        "auto_merge_disabled"]
    else if event == "merge_group" then action in ["checks_requested", "destroyed"]
    else if event == "release" then
      action in ["published", "unpublished", "created", "edited", "deleted", "prereleased", "released"]
    else if event == "watch" then action == "started"
    else if event == "milestone" then action in ["created", "closed", "opened", "edited", "deleted"]
    else if event == "discussion" then
      action in ["created", "edited", "deleted", "transferred", "pinned", "unpinned", "labeled", "unlabeled",
        "locked", "unlocked", "category_changed", "answered", "unanswered", "closed", "reopened"]
    else if event == "issues" then
      action in ["opened", "edited", "deleted", "transferred", "field_added", "field_removed", "pinned", "unpinned",
        "closed", "reopened", "assigned", "unassigned", "labeled", "unlabeled", "locked", "unlocked", "milestoned",
        "demilestoned", "typed", "untyped"]
    else if event == "pull_request_review" then action in ["submitted", "edited", "dismissed"]
    else ByActivity(event) && action in ["created", "edited", "deleted"]
  }

  predicate ActivityListed(event: string, types: seq<string>) {
    forall i :: 0 <= i < |types| ==> Activity(event, types[i])
  }

  predicate Known(event: string) {
    ByActivity(event) || event in [
      "workflow_call", "workflow_dispatch", "schedule", "push", "pull_request", "merge_group", "deployment",
      "deployment_status", "create", "delete", "fork", "public", "gollum", "page_build", "watch"]
  }

  /** Path filters can be given to all events but three, and have to be good where they are used. */
  ghost predicate PathsDeclared(cs: Classes, lint: string -> bool, t: Trigger) {
    HasRefs(t.paths, t.pathsIgnore) ==>
      && t.event !in ["workflow_call", "workflow_dispatch", "schedule"]
      && (t.event == "push" || t.event == "pull_request" ==> GoodLists(cs, lint, t.paths, t.pathsIgnore, true))
  }

  /** What a trigger may say, whatever happened. */
  ghost predicate Declarable(cs: Classes, lint: string -> bool, t: Trigger) {
    && Known(t.event)
    && PathsDeclared(cs, lint, t)
    && (t.event != "workflow_call" ==>
          && t.workflows.None?
          && (t.types.Some? ==>
                && t.event !in ["push", "deployment", "deployment_status", "create", "delete", "workflow_dispatch",
                  "schedule"]
                && (t.event == "pull_request" ==> t.types.value != [])
                && ActivityListed(t.event, t.types.value)))
    && (t.event in ["workflow_dispatch", "schedule"] ==>
          !HasRefs(t.branches, t.branchesIgnore) && !HasRefs(t.tags, t.tagsIgnore))
    && (t.event == "pull_request" || t.event == "merge_group" ==> !HasRefs(t.tags, t.tagsIgnore))
    && (t.event == "push" || t.event == "pull_request" || t.event == "merge_group" ==>
          GoodLists(cs, lint, t.branches, t.branchesIgnore, false))
    && (t.event == "push" ==> GoodLists(cs, lint, t.tags, t.tagsIgnore, false))
  }

  /** What the event has to tell a trigger of its kind. The changed paths have to be known only if everything else
      about the trigger matches. */
  ghost predicate Told(cs: Classes, t: Trigger, ev: EventData) {
    && (t.event == "push" ==> "refs/heads/" <= ev.ref || "refs/tags/" <= ev.ref)
    && (t.event == "pull_request" || t.event == "merge_group" || ByActivity(t.event) ==> Visible(ev.action))
    && (t.event in ["merge_group", "pull_request_review", "pull_request_review_comment"] ==>
          ev.action.Some? && Activity(t.event, ev.action.value))
    && (t.event == "pull_request" && HasRefs(t.branches, t.branchesIgnore) ==> Visible(ev.baseRef))
    && (t.event == "merge_group" && HasRefs(t.branches, t.branchesIgnore) ==>
          ev.mergeBaseRef.Some? && "refs/heads/" < ev.mergeBaseRef.value)
    && (AsksPaths(t, ev) && FiresOnRef(cs, t, ev) ==> ev.changedPaths.Some?)
  }

  lemma MatchesExactly(cs: Classes, lint: string -> bool, t: Trigger, ev: EventData, p: string)
    requires t.event == ev.name != "workflow_call"
    requires Translate(cs, lint, t, ExpressionsOf(ev, p), SnapshotOf(ev), true).Ok?
    ensures MismatchOf(cs, lint, t, SnapshotOf(ev)) == Ok(false) <==> Fires(cs, t, ev)
  {
    hide TranslatePush, TranslatePullRequest, TranslateMergeGroup, TranslateActivity, MismatchOf, SnapshotOf, Fires,
      ExpressionsOf;
    if t.event == "push" {
      PushFires(cs, lint, t, ev, p);
    } else if t.event == "pull_request" {
      PullRequestFires(cs, lint, t, ev, p);
    } else if t.event == "merge_group" {
      MergeGroupFires(cs, lint, t, ev, p);
    } else if t.event in ACTIVITY_EVENTS {
      ActivityFires(cs, lint, t, ev, p);
    } else {
      NothingToMismatch(cs, lint, t, SnapshotOf(ev));
      NothingAsked(cs, t, ev);
    }
  }

  lemma NothingAsked(cs: Classes, t: Trigger, ev: EventData)
    requires t.event == ev.name && t.event !in ACTIVITY_EVENTS
    requires t.event != "push" && t.event != "pull_request" && t.event != "merge_group"
    ensures Fires(cs, t, ev)
  {
  }

  /** The condition that is emitted for an accepted list holds exactly if one of its triggers fires. */
  lemma RunsExactly(cs: Classes, lint: string -> bool, e: Setting, ts: seq<Trigger>, ev: EventData, p: string)
    requires ev.name != "workflow_call" && e.given(p) && Translates(cs, lint, ts, ev, p)
    ensures Runs(cs, e, ConditionOf(cs, lint, ts, ev, p)) <==> exists t :: t in ts && Fires(cs, t, ev)
  {
    hide Translate, MismatchOf, SnapshotOf, ExpressionsOf, Runs, Fires, ConditionOf;
    ConditionTakesAny(cs, lint, e, ts, ev, p);
    forall t | t in ts ensures TriggerAgreement.Matches(cs, lint, t, ev.name, SnapshotOf(ev)) <==> Fires(cs, t, ev) {
      OneFires(cs, lint, ts, t, ev, p);
    }
  }

  lemma OneFires(cs: Classes, lint: string -> bool, ts: seq<Trigger>, t: Trigger, ev: EventData, p: string)
    requires ev.name != "workflow_call" && Translates(cs, lint, ts, ev, p) && t in ts
    ensures TriggerAgreement.Matches(cs, lint, t, ev.name, SnapshotOf(ev)) <==> Fires(cs, t, ev)
  {
    hide Translate, MismatchOf, SnapshotOf, ExpressionsOf, FiresOnRef;
    var i :| 0 <= i < |ts| && ts[i] == t;
    if t.event == ev.name {
      assert !Stops(cs, lint, ts[i], ev.name, ExpressionsOf(ev, p), SnapshotOf(ev));
      MatchesExactly(cs, lint, t, ev, p);
    }
  }

  /** No skip is explained for an accepted list exactly if the first trigger of the event fires. */
  lemma UnexplainedExactly(cs: Classes, lint: string -> bool, ts: seq<Trigger>, ev: EventData, p: string)
    requires ev.name != "workflow_call" && Translates(cs, lint, ts, ev, p)
    ensures Unexplained(cs, lint, ts, ev.name, SnapshotOf(ev)) <==>
              exists i :: 0 <= i < |ts| && Fires(cs, ts[i], ev) && forall k :: 0 <= k < i ==> ts[k].event != ev.name
  {
    hide TriggerAgreement.Matches, SnapshotOf, Fires, Translates;
    forall t | t in ts ensures TriggerAgreement.Matches(cs, lint, t, ev.name, SnapshotOf(ev)) <==> Fires(cs, t, ev) {
      OneFires(cs, lint, ts, t, ev, p);
    }
    if Declares(ts, ev.name) {
      var i := FirstExists(ts, ev.name);
      assert ts[i] in ts;
      forall k | 0 <= k < |ts| ensures Fires(cs, ts[k], ev) ==> ts[k].event == ev.name { FiringIsOwn(cs, ts[k], ev); }
    } else {
      forall k | 0 <= k < |ts| ensures !Fires(cs, ts[k], ev) {
        FiringIsOwn(cs, ts[k], ev);
        assert ts[k] in ts;
      }
    }
  }

  lemma FiringIsOwn(cs: Classes, t: Trigger, ev: EventData)
    ensures Fires(cs, t, ev) ==> t.event == ev.name
  {
  }

  // ----- acceptance -----

  lemma KnownExactly(event: string)
    ensures SupportedEvent(event) <==> Known(event)
  {
  }

  lemma PathsExactly(cs: Classes, lint: string -> bool, t: Trigger)
    requires SupportedEvent(t.event)
    ensures PathsAccepted(cs, lint, t) <==> PathsDeclared(cs, lint, t)
  {
    hide PathFiltersOk, GoodLists;
    PathListsExactly(cs, lint, t.paths, t.pathsIgnore);
  }

  lemma PushDeclarable(cs: Classes, lint: string -> bool, t: Trigger, ev: EventData)
    requires t.event == "push"
    ensures Declarable(cs, lint, t) <==>
              && PathsDeclared(cs, lint, t) && t.workflows.None? && t.types.None?
              && GoodLists(cs, lint, t.branches, t.branchesIgnore, false)
              && GoodLists(cs, lint, t.tags, t.tagsIgnore, false)
    ensures Told(cs, t, ev) <==>
              && ("refs/heads/" <= ev.ref || "refs/tags/" <= ev.ref)
              && (AsksPaths(t, ev) && FiresOnRef(cs, t, ev) ==> ev.changedPaths.Some?)
  {
    hide GoodLists, AsksPaths, FiresOnRef, ActivityListed, Activity, Visible;
  }

  lemma PullRequestDeclarable(cs: Classes, lint: string -> bool, t: Trigger, ev: EventData)
    requires t.event == "pull_request"
    ensures Declarable(cs, lint, t) <==>
              && PathsDeclared(cs, lint, t) && t.workflows.None? && !HasRefs(t.tags, t.tagsIgnore)
              && (t.types.Some? ==> t.types.value != [] && ActivityListed(t.event, t.types.value))
              && GoodLists(cs, lint, t.branches, t.branchesIgnore, false)
    ensures Told(cs, t, ev) <==>
              && Visible(ev.action) && (HasRefs(t.branches, t.branchesIgnore) ==> Visible(ev.baseRef))
              && (AsksPaths(t, ev) && FiresOnRef(cs, t, ev) ==> ev.changedPaths.Some?)
  {
    hide GoodLists, AsksPaths, FiresOnRef, ActivityListed, Activity, Visible;
  }

  lemma MergeGroupDeclarable(cs: Classes, lint: string -> bool, t: Trigger, ev: EventData)
    requires t.event == "merge_group"
    ensures Declarable(cs, lint, t) <==>
              && PathsDeclared(cs, lint, t) && t.workflows.None? && !HasRefs(t.tags, t.tagsIgnore)
              && (t.types.Some? ==> ActivityListed(t.event, t.types.value))
              && GoodLists(cs, lint, t.branches, t.branchesIgnore, false)
    ensures Told(cs, t, ev) <==>
              && Visible(ev.action) && ev.action.value in MERGE_GROUP_ACTIONS
              && (HasRefs(t.branches, t.branchesIgnore) ==>
                    ev.mergeBaseRef.Some? && "refs/heads/" < ev.mergeBaseRef.value)
  {
    hide GoodLists, FiresOnRef, ActivityListed, Visible;
    BlankIsInvisible(ev.action);
  }

  lemma ActivityDeclarable(cs: Classes, lint: string -> bool, t: Trigger, ev: EventData)
    requires t.event in ACTIVITY_EVENTS
    ensures Declarable(cs, lint, t) <==>
              && PathsDeclared(cs, lint, t) && t.workflows.None?
              && (t.types.Some? ==> ActivityListed(t.event, t.types.value))
    ensures Told(cs, t, ev) <==>
              && Visible(ev.action)
              && (t.event == "pull_request_review" || t.event == "pull_request_review_comment" ==>
                    Activity(t.event, ev.action.value))
  {
    hide GoodLists, FiresOnRef, ActivityListed, Activity, Visible;
    BlankIsInvisible(ev.action);
    OwnEvents(t.event);
    ActivitiesAreOwn(t.event);
  }

  lemma PullRequestTypes(types: seq<string>)
    ensures AllSupported(types, PULL_REQUEST_ACTIONS) <==> ActivityListed("pull_request", types)
  {
  }

  lemma MergeGroupTypes(types: seq<string>)
    ensures AllSupported(types, MERGE_GROUP_ACTIONS) <==> ActivityListed("merge_group", types)
  {
  }

  lemma OwnTypes(event: string, types: seq<string>)
    requires event in ACTIVITY_EVENTS
    ensures AllSupported(types, SupportedActions(event)) <==> ActivityListed(event, types)
  {
    forall a ensures a in SupportedActions(event) <==> Activity(event, a) { OwnActivity(event, a); }
  }

  lemma OwnActivity(event: string, action: string)
    requires event in ACTIVITY_EVENTS
    ensures action in SupportedActions(event) <==> Activity(event, action)
  {
  }

  lemma DefaultTypes()
    ensures AllSupported(DEFAULT_PULL_REQUEST_ACTIONS, PULL_REQUEST_ACTIONS)
    ensures AllSupported(["checks_requested"], MERGE_GROUP_ACTIONS)
    ensures AllSupported(RELEASE_ACTIONS, SupportedActions("release"))
  {
  }

  lemma PullRequestWants(t: Trigger, action: string)
    requires t.event == "pull_request"
    ensures Wanted(t, action) <==>
              action in if t.types.Some? then t.types.value else DEFAULT_PULL_REQUEST_ACTIONS
  {
  }

  lemma OwnEvents(event: string)
    requires event in ACTIVITY_EVENTS
    ensures event !in ["workflow_call", "workflow_dispatch", "schedule", "push", "deployment", "deployment_status",
      "create", "delete"]
  {
  }

  lemma PushAccepted(cs: Classes, lint: string -> bool, t: Trigger, ev: EventData, p: string)
    requires t.event == ev.name == "push" && PathsDeclared(cs, lint, t) && p != ""
    ensures TranslatePush(cs, t, ExpressionsOf(ev, p), SnapshotOf(ev), true).Ok? <==>
              Declarable(cs, lint, t) && Told(cs, t, ev)
  {
    hide Declarable, Told, PathsDeclared, FiltersOk, PathsSelected, RefSelected, PushParts, SnapshotOf, Passes,
      FilterCond, AllOf, GoodLists;
    var s := SnapshotOf(ev);
    SnapshotIs(ev);
    PushDeclarable(cs, lint, t, ev);
    RefListsExactly(cs, lint, t.branches, t.branchesIgnore);
    RefListsExactly(cs, lint, t.tags, t.tagsIgnore);
    if FiltersOk(cs, t.branches, t.branchesIgnore) && s.branch.Some? {
      RefsPass(cs, s.branch.value, t.branches, t.branchesIgnore);
    }
  }

  lemma PullRequestAccepted(cs: Classes, lint: string -> bool, t: Trigger, ev: EventData, p: string)
    requires t.event == ev.name == "pull_request" && PathsDeclared(cs, lint, t) && p != ""
    ensures TranslatePullRequest(cs, t, ExpressionsOf(ev, p), SnapshotOf(ev), true).Ok? <==>
              Declarable(cs, lint, t) && Told(cs, t, ev)
  {
    hide Declarable, Told, PathsDeclared, FiltersOk, PathsSelected, RefSelected, SnapshotOf, Passes, Visible,
      FilterCond, AllOf, AnyOf, GoodLists, AllSupported, ActivityListed, Wanted;
    var s := SnapshotOf(ev);
    SnapshotIs(ev);
    PullRequestDeclarable(cs, lint, t, ev);
    PullRequestTypes(if t.types.Some? then t.types.value else DEFAULT_PULL_REQUEST_ACTIONS);
    DefaultTypes();
    if s.action.Some? { PullRequestWants(t, s.action.value); }
    RefListsExactly(cs, lint, t.branches, t.branchesIgnore);
    if FiltersOk(cs, t.branches, t.branchesIgnore) && s.baseBranch.Some? {
      RefsPass(cs, s.baseBranch.value, t.branches, t.branchesIgnore);
    }
    AllPass(cs, t.branches, t.branchesIgnore);
  }

  lemma MergeGroupAccepted(cs: Classes, lint: string -> bool, t: Trigger, ev: EventData, p: string)
    requires t.event == ev.name == "merge_group" && PathsDeclared(cs, lint, t) && p != ""
    ensures TranslateMergeGroup(cs, t, ExpressionsOf(ev, p), SnapshotOf(ev)).Ok? <==>
              Declarable(cs, lint, t) && Told(cs, t, ev)
  {
    hide Declarable, Told, PathsDeclared, FiltersOk, SnapshotOf, Visible, FilterCond, AllOf, AnyOf, GoodLists,
      AllSupported;
    SnapshotIs(ev);
    MergeGroupDeclarable(cs, lint, t, ev);
    MergeGroupTypes(if Listed(t.types) == [] then ["checks_requested"] else Listed(t.types));
    DefaultTypes();
    RefListsExactly(cs, lint, t.branches, t.branchesIgnore);
  }

  lemma ActivityAccepted(cs: Classes, lint: string -> bool, t: Trigger, ev: EventData, p: string)
    requires t.event == ev.name && t.event in ACTIVITY_EVENTS && PathsDeclared(cs, lint, t) && p != ""
    ensures TranslateActivity(t, ExpressionsOf(ev, p), SnapshotOf(ev)).Ok? <==>
              Declarable(cs, lint, t) && Told(cs, t, ev)
  {
    hide Declarable, Told, PathsDeclared, SnapshotOf, Visible, AnyOf, AllSupported, SupportedActions, Activity;
    SnapshotIs(ev);
    ActivityDeclarable(cs, lint, t, ev);
    OwnTypes(t.event, Listed(t.types));
    if SnapshotOf(ev).action.Some? { OwnActivity(t.event, SnapshotOf(ev).action.value); }
    DefaultTypes();
  }

  /** Events that only have a name to go by. */
  predicate ByName(event: string) {
    event in PLAIN_EVENTS || event in TYPELESS_EVENTS || event in UNFILTERED_EVENTS || event == "watch"
  }

  lemma NoActivities(event: string, types: seq<string>)
    requires event in PLAIN_EVENTS
    ensures ActivityListed(event, types) <==> types == []
  {
    hide Activity;
    forall action ensures !Activity(event, action) { NoActivity(event, action); }
    if types != [] { assert !Activity(event, types[0]); }
  }

  lemma NoActivity(event: string, action: string)
    requires event in PLAIN_EVENTS
    ensures !Activity(event, action)
  {
  }

  lemma PlainDeclarable(cs: Classes, lint: string -> bool, t: Trigger)
    requires t.event in PLAIN_EVENTS
    ensures Declarable(cs, lint, t) <==> PathsDeclared(cs, lint, t) && t.workflows.None? && Listed(t.types) == []
  {
    hide GoodLists, PathsDeclared, ActivityListed;
    if t.types.Some? { NoActivities(t.event, t.types.value); }
  }

  lemma TypelessDeclarable(cs: Classes, lint: string -> bool, t: Trigger)
    requires t.event in TYPELESS_EVENTS
    ensures Declarable(cs, lint, t) <==> PathsDeclared(cs, lint, t) && t.workflows.None? && t.types.None?
  {
    hide GoodLists, PathsDeclared, ActivityListed;
  }

  lemma UnfilteredDeclarable(cs: Classes, lint: string -> bool, t: Trigger)
    requires t.event in UNFILTERED_EVENTS
    ensures Declarable(cs, lint, t) <==> PathsDeclared(cs, lint, t) && !t.WebhookFilters()
  {
    hide GoodLists, PathsDeclared, ActivityListed;
  }

  lemma WatchDeclarable(cs: Classes, lint: string -> bool, t: Trigger)
    requires t.event == "watch"
    ensures Declarable(cs, lint, t) <==>
              PathsDeclared(cs, lint, t) && t.workflows.None? && AllSupported(Listed(t.types), ["started"])
  {
    hide GoodLists, PathsDeclared;
  }

  lemma ByNameTold(cs: Classes, t: Trigger, ev: EventData)
    requires ByName(t.event)
    ensures Told(cs, t, ev)
  {
    hide FiresOnRef, Visible;
  }

  lemma PlainShape(cs: Classes, lint: string -> bool, t: Trigger, x: Expressions, s: Snapshot, selected: bool)
    requires t.event in PLAIN_EVENTS && PathsAccepted(cs, lint, t) && x.eventPredicate != ""
    ensures Translate(cs, lint, t, x, s, selected).Ok? <==> t.workflows.None? && Listed(t.types) == []
  {
    hide PathsAccepted;
  }

  lemma TypelessShape(cs: Classes, lint: string -> bool, t: Trigger, x: Expressions, s: Snapshot, selected: bool)
    requires t.event in TYPELESS_EVENTS && PathsAccepted(cs, lint, t) && x.eventPredicate != ""
    ensures Translate(cs, lint, t, x, s, selected).Ok? <==> t.workflows.None? && t.types.None?
  {
    hide PathsAccepted;
  }

  lemma UnfilteredShape(cs: Classes, lint: string -> bool, t: Trigger, x: Expressions, s: Snapshot, selected: bool)
    requires t.event in UNFILTERED_EVENTS && PathsAccepted(cs, lint, t) && x.eventPredicate != ""
    ensures Translate(cs, lint, t, x, s, selected).Ok? <==> !t.WebhookFilters()
  {
    hide PathsAccepted;
  }

  lemma WatchShape(cs: Classes, lint: string -> bool, t: Trigger, x: Expressions, s: Snapshot, selected: bool)
    requires t.event == "watch" && PathsAccepted(cs, lint, t) && x.eventPredicate != ""
    ensures Translate(cs, lint, t, x, s, selected).Ok? <==>
              t.workflows.None? && AllSupported(Listed(t.types), ["started"])
  {
    hide PathsAccepted, AllSupported;
  }

  lemma ByNameAccepted(cs: Classes, lint: string -> bool, t: Trigger, x: Expressions, s: Snapshot, selected: bool)
    requires ByName(t.event) && SupportedEvent(t.event) && PathsDeclared(cs, lint, t) && x.eventPredicate != ""
    ensures Translate(cs, lint, t, x, s, selected).Ok? <==> Declarable(cs, lint, t)
  {
    hide Translate, Declarable, PathsDeclared, PathsAccepted, SupportedEvent, AllSupported;
    PathsExactly(cs, lint, t);
    if t.event in PLAIN_EVENTS {
      PlainDeclarable(cs, lint, t);
      PlainShape(cs, lint, t, x, s, selected);
    } else if t.event in TYPELESS_EVENTS {
      TypelessDeclarable(cs, lint, t);
      TypelessShape(cs, lint, t, x, s, selected);
    } else if t.event in UNFILTERED_EVENTS {
      UnfilteredDeclarable(cs, lint, t);
      UnfilteredShape(cs, lint, t, x, s, selected);
    } else {
      WatchDeclarable(cs, lint, t);
      WatchShape(cs, lint, t, x, s, selected);
    }
  }

  lemma Kinds(event: string)
    requires Known(event)
    ensures event == "workflow_call" || event == "push" || event == "pull_request" || event == "merge_group" ||
      event in ACTIVITY_EVENTS || ByName(event)
  {
  }

  // ----- triggers of other events -----

  lemma LiveIs(event: string)
    ensures var x := LiveExpressions(event);
            && x.eventPredicate == event && !x.branch.Null? && !x.tag.Null? && !x.action.Null?
            && !x.baseBranch.Null? && !x.mergeBase.Null?
    ensures NO_SNAPSHOT.action.None?
  {
  }

  lemma OtherPush(cs: Classes, lint: string -> bool, t: Trigger, ev: EventData)
    requires t.event == "push" && PathsDeclared(cs, lint, t)
    ensures TranslatePush(cs, t, LiveExpressions(t.event), NO_SNAPSHOT, false).Ok? <==> Declarable(cs, lint, t)
  {
    hide Declarable, Told, PathsDeclared, FiltersOk, PushParts, AllOf, GoodLists, LiveExpressions;
    LiveIs(t.event);
    PushDeclarable(cs, lint, t, ev);
    RefListsExactly(cs, lint, t.branches, t.branchesIgnore);
    RefListsExactly(cs, lint, t.tags, t.tagsIgnore);
  }

  lemma OtherPullRequest(cs: Classes, lint: string -> bool, t: Trigger, ev: EventData)
    requires t.event == "pull_request" && PathsDeclared(cs, lint, t)
    ensures TranslatePullRequest(cs, t, LiveExpressions(t.event), NO_SNAPSHOT, false).Ok? <==> Declarable(cs, lint, t)
  {
    hide Declarable, Told, PathsDeclared, FiltersOk, FilterCond, AllOf, AnyOf, GoodLists, LiveExpressions,
      AllSupported, ActivityListed, Wanted;
    LiveIs(t.event);
    PullRequestDeclarable(cs, lint, t, ev);
    PullRequestTypes(if t.types.Some? then t.types.value else DEFAULT_PULL_REQUEST_ACTIONS);
    DefaultTypes();
    RefListsExactly(cs, lint, t.branches, t.branchesIgnore);
  }

  lemma OtherMergeGroup(cs: Classes, lint: string -> bool, t: Trigger, ev: EventData)
    requires t.event == "merge_group" && PathsDeclared(cs, lint, t)
    ensures TranslateMergeGroup(cs, t, LiveExpressions(t.event), NO_SNAPSHOT).Ok? <==> Declarable(cs, lint, t)
  {
    hide Declarable, Told, PathsDeclared, FiltersOk, FilterCond, AllOf, AnyOf, GoodLists, LiveExpressions,
      AllSupported;
    LiveIs(t.event);
    MergeGroupDeclarable(cs, lint, t, ev);
    MergeGroupTypes(if Listed(t.types) == [] then ["checks_requested"] else Listed(t.types));
    DefaultTypes();
    RefListsExactly(cs, lint, t.branches, t.branchesIgnore);
  }

  lemma OtherActivity(cs: Classes, lint: string -> bool, t: Trigger, ev: EventData)
    requires t.event in ACTIVITY_EVENTS && PathsDeclared(cs, lint, t)
    ensures TranslateActivity(t, LiveExpressions(t.event), NO_SNAPSHOT).Ok? <==> Declarable(cs, lint, t)
  {
    hide Declarable, Told, PathsDeclared, AnyOf, AllSupported, SupportedActions, Activity, LiveExpressions;
    LiveIs(t.event);
    assert t.event != "";
    ActivityDeclarable(cs, lint, t, ev);
    OwnTypes(t.event, Listed(t.types));
    DefaultTypes();
  }

  lemma CallAccepted(cs: Classes, lint: string -> bool, t: Trigger, x: Expressions, s: Snapshot)
    requires t.event == "workflow_call" && PathsDeclared(cs, lint, t)
    ensures PathsAccepted(cs, lint, t) ==> Translate(cs, lint, t, x, s, false).Ok?
    ensures Declarable(cs, lint, t)
  {
    hide GoodLists, PathsDeclared, PathsAccepted, ActivityListed;
  }

  // ----- a list of triggers -----

  lemma Dispatch(cs: Classes, lint: string -> bool, t: Trigger, x: Expressions, s: Snapshot, selected: bool)
    requires SupportedEvent(t.event) && PathsAccepted(cs, lint, t)
    ensures var r := Translate(cs, lint, t, x, s, selected);
            && (t.event == "push" ==> r == TranslatePush(cs, t, x, s, selected))
            && (t.event == "pull_request" ==> r == TranslatePullRequest(cs, t, x, s, selected))
            && (t.event == "merge_group" ==> r == TranslateMergeGroup(cs, t, x, s))
            && (t.event in ACTIVITY_EVENTS ==> r == TranslateActivity(t, x, s))
  {
    hide PathsAccepted, TranslatePush, TranslatePullRequest, TranslateMergeGroup, TranslateActivity;
    if t.event in ACTIVITY_EVENTS { OwnEvents(t.event); }
  }

  lemma PathsStop(cs: Classes, lint: string -> bool, t: Trigger, x: Expressions, s: Snapshot, selected: bool)
    requires SupportedEvent(t.event) && !PathsDeclared(cs, lint, t)
    ensures Translate(cs, lint, t, x, s, selected).Err? && !Declarable(cs, lint, t)
  {
    hide PathsAccepted, PathsDeclared, GoodLists, SupportedEvent, ActivityListed;
    PathsExactly(cs, lint, t);
  }

  lemma OtherReasons(cs: Classes, lint: string -> bool, t: Trigger, x: Expressions, s: Snapshot, selected: bool)
    ensures !SupportedEvent(t.event) ==> Translate(cs, lint, t, x, s, selected) == Err(UNSUPPORTED)
    ensures SupportedEvent(t.event) ==> Translate(cs, lint, t, x, s, selected) != Err(UNSUPPORTED)
  {
    hide PathsAccepted, SupportedEvent, FiltersOk, PushParts, PathsSelected, RefSelected, AnyOf, AllOf, FilterCond,
      AllSupported, PushBranchSelected, SupportedActions;
  }

  /** A trigger of the event is accepted exactly if it says nothing unsupported and is told what it asks for. */
  lemma OwnExactly(cs: Classes, lint: string -> bool, t: Trigger, ev: EventData, p: string)
    requires t.event == ev.name != "workflow_call" && p != ""
    ensures Translate(cs, lint, t, ExpressionsOf(ev, p), SnapshotOf(ev), true).Ok? <==>
              Declarable(cs, lint, t) && Told(cs, t, ev)
  {
    hide Translate, Declarable, Told, PathsDeclared, PathsAccepted, SupportedEvent, SnapshotOf, TranslatePush,
      TranslatePullRequest, TranslateMergeGroup, TranslateActivity, ExpressionsOf, Known;
    var x, s := ExpressionsOf(ev, p), SnapshotOf(ev);
    KnownExactly(t.event);
    OtherReasons(cs, lint, t, x, s, true);
    DeclarableIsKnown(cs, lint, t);
    if SupportedEvent(t.event) {
      PathsExactly(cs, lint, t);
      PredicateOf(ev, p);
      if !PathsDeclared(cs, lint, t) {
        PathsStop(cs, lint, t, x, s, true);
      } else {
        Kinds(t.event);
        Dispatch(cs, lint, t, x, s, true);
        if t.event == "push" {
          PushAccepted(cs, lint, t, ev, p);
        } else if t.event == "pull_request" {
          PullRequestAccepted(cs, lint, t, ev, p);
        } else if t.event == "merge_group" {
          MergeGroupAccepted(cs, lint, t, ev, p);
        } else if t.event in ACTIVITY_EVENTS {
          ActivityAccepted(cs, lint, t, ev, p);
        } else {
          ByNameAccepted(cs, lint, t, x, s, true);
          ByNameTold(cs, t, ev);
        }
      }
    }
  }

  lemma DeclarableIsKnown(cs: Classes, lint: string -> bool, t: Trigger)
    ensures Declarable(cs, lint, t) ==> Known(t.event)
  {
    hide Known, PathsDeclared, GoodLists, ActivityListed;
  }

  /** A trigger of another event is accepted exactly if it says nothing unsupported or its event is unknown. */
  lemma OthersExactly(cs: Classes, lint: string -> bool, t: Trigger, ev: EventData)
    ensures var r := Translate(cs, lint, t, LiveExpressions(t.event), NO_SNAPSHOT, false);
            r.Ok? || r == Err(UNSUPPORTED) <==> Declarable(cs, lint, t) || !Known(t.event)
  {
    hide Translate, Declarable, PathsDeclared, PathsAccepted, SupportedEvent, TranslatePush, TranslatePullRequest,
      TranslateMergeGroup, TranslateActivity, LiveExpressions, Known;
    var x := LiveExpressions(t.event);
    KnownExactly(t.event);
    LiveIs(t.event);
    OtherReasons(cs, lint, t, x, NO_SNAPSHOT, false);
    if SupportedEvent(t.event) {
      PathsExactly(cs, lint, t);
      if !PathsDeclared(cs, lint, t) {
        PathsStop(cs, lint, t, x, NO_SNAPSHOT, false);
      } else {
        Kinds(t.event);
        Dispatch(cs, lint, t, x, NO_SNAPSHOT, false);
        if t.event == "workflow_call" {
          CallAccepted(cs, lint, t, x, NO_SNAPSHOT);
        } else if t.event == "push" {
          OtherPush(cs, lint, t, ev);
        } else if t.event == "pull_request" {
          OtherPullRequest(cs, lint, t, ev);
        } else if t.event == "merge_group" {
          OtherMergeGroup(cs, lint, t, ev);
        } else if t.event in ACTIVITY_EVENTS {
          OtherActivity(cs, lint, t, ev);
        } else {
          ByNameAccepted(cs, lint, t, x, NO_SNAPSHOT, false);
        }
      }
    }
  }

  /** A list is accepted exactly if every trigger of the event says nothing unsupported and is told what it asks for,
      and every other one says nothing unsupported or is of an unknown event. */
  lemma TranslatesExactly(cs: Classes, lint: string -> bool, ts: seq<Trigger>, ev: EventData, p: string)
    requires ev.name != "workflow_call" && p != ""
    ensures Translates(cs, lint, ts, ev, p) <==>
              forall i :: 0 <= i < |ts| ==>
                if ts[i].event == ev.name then Declarable(cs, lint, ts[i]) && Told(cs, ts[i], ev)
                else Declarable(cs, lint, ts[i]) || !Known(ts[i].event)
  {
    hide Translate, Declarable, Told, SnapshotOf, ExpressionsOf, Known, LiveExpressions;
    forall i | 0 <= i < |ts|
      ensures !Stops(cs, lint, ts[i], ev.name, ExpressionsOf(ev, p), SnapshotOf(ev)) <==>
              if ts[i].event == ev.name then Declarable(cs, lint, ts[i]) && Told(cs, ts[i], ev)
              else Declarable(cs, lint, ts[i]) || !Known(ts[i].event)
    {
      if ts[i].event == ev.name { OwnExactly(cs, lint, ts[i], ev, p); } else { OthersExactly(cs, lint, ts[i], ev); }
    }
  }
}
