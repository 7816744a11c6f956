/** Workflow triggers: translated to a build condition, and explained directly when they do not match. */
module Triggers {
  import opened Pipelines
  import opened Globs
  import opened RefFilters

  type Names = Option<seq<string>>

  datatype Trigger = Trigger(
    event: string, types: Names, branches: Names, branchesIgnore: Names,
    tags: Names, tagsIgnore: Names, paths: Names, pathsIgnore: Names, workflows: Names)
  {
    predicate PathFilters() { paths.Some? || pathsIgnore.Some? }

    predicate HasBranches() { Configured(branches, branchesIgnore) }

    predicate HasTags() { Configured(tags, tagsIgnore) }

    predicate WebhookFilters() { types.Some? || HasBranches() || HasTags() || workflows.Some? }
  }

  // ----- the effective event -----

  /** The event as received; changedPaths is None when the paths could not be found out. */
  datatype EventData = EventData(
    name: string, ref: string, action: Option<string>, baseRef: Option<string>, mergeBaseRef: Option<string>,
    changedPaths: Option<seq<string>>)

  /** The observed values that the direct explanation reads. */
  datatype Snapshot = Snapshot(
    branch: Option<string>, tag: Option<string>, action: Option<string>,
    baseBranch: Option<string>, mergeBase: Option<string>, changedPaths: Option<seq<string>>)

  /** The operands that the condition is made of. */
  datatype Expressions = Expressions(
    eventPredicate: string, branch: Operand, tag: Operand, action: Operand, baseBranch: Operand, mergeBase: Operand)

  function CutPrefix(s: string, prefix: string): Option<string> {
    if prefix <= s then Some(s[|prefix|..]) else None
  }

  predicate Space(c: char) {
    c == ' ' || '\t' <= c <= '\r' || c == '\U{0085}' || c == '\U{00A0}' || c == '\U{1680}' ||
    '\U{2000}' <= c <= '\U{200A}' || c == '\U{2028}' || c == '\U{2029}' || c == '\U{202F}' || c == '\U{205F}' ||
    c == '\U{3000}'
  }

  /** Only white space. */
  predicate Blank(s: string) {
    forall i :: 0 <= i < |s| ==> Space(s[i])
  }

  function UnlessBlank(s: Option<string>): Option<string> {
    if s.Some? && Blank(s.value) then None else s
  }

  function MergeBase(s: Option<string>): Option<string> {
    if s.None? then None
    else
      var branch := CutPrefix(s.value, "refs/heads/");
      if branch == Some("") then None else branch
  }

  function Quoted(s: Option<string>): Operand {
    if s.Some? then Text(s.value) else Null
  }

  function SnapshotOf(e: EventData): Snapshot {
    Snapshot(CutPrefix(e.ref, "refs/heads/"), CutPrefix(e.ref, "refs/tags/"), UnlessBlank(e.action),
             UnlessBlank(e.baseRef), MergeBase(e.mergeBaseRef), e.changedPaths)
  }

  function ExpressionsOf(e: EventData, eventPredicate: string): Expressions {
    var s := SnapshotOf(e);
    Expressions(eventPredicate, Quoted(s.branch), Quoted(s.tag), Quoted(s.action), Quoted(s.baseBranch),
      Quoted(s.mergeBase))
  }

  /** For triggers of other events: fields of the running build. */
  function LiveExpressions(event: string): Expressions {
    Expressions(event, Field("build.branch"), Field("build.tag"), Field("build.source_action"),
                Field("build.pull_request.base_branch"), Field("build.merge_queue.base_branch"))
  }

  const NO_SNAPSHOT := Snapshot(None, None, None, None, None, None)

  // ----- events and their activities -----

  const PLAIN_EVENTS := ["fork", "public", "gollum", "page_build"]
  const TYPELESS_EVENTS := ["deployment", "deployment_status", "create", "delete"]
  const UNFILTERED_EVENTS := ["workflow_dispatch", "schedule"]
  const ACTIVITY_EVENTS := [
    "release", "milestone", "branch_protection_rule", "discussion", "discussion_comment", "label", "issues",
    "pull_request_review", "pull_request_review_comment", "issue_comment"]
  const OTHER_EVENTS := ["workflow_call", "push", "pull_request", "merge_group", "watch"]

  predicate SupportedEvent(event: string) {
    event in PLAIN_EVENTS || event in TYPELESS_EVENTS || event in UNFILTERED_EVENTS || event in ACTIVITY_EVENTS ||
      event in OTHER_EVENTS
  }

  const RELEASE_ACTIONS := ["published", "unpublished", "created", "edited", "deleted", "prereleased", "released"]
  const CRUD_ACTIONS := ["created", "edited", "deleted"]
  const PULL_REQUEST_ACTIONS := [
    "assigned", "unassigned", "labeled", "unlabeled", "opened", "edited", "closed", "reopened", "synchronize",
    "converted_to_draft", "locked", "unlocked", "enqueued", "dequeued", "milestoned", "demilestoned",
    "ready_for_review", "review_requested", "review_request_removed", "auto_merge_enabled", "auto_merge_disabled"]
  const DEFAULT_PULL_REQUEST_ACTIONS := ["opened", "synchronize", "reopened"]
  const ISSUES_ACTIONS := [
    "opened", "edited", "deleted", "transferred", "field_added", "field_removed", "pinned", "unpinned", "closed",
    "reopened", "assigned", "unassigned", "labeled", "unlabeled", "locked", "unlocked", "milestoned",
    "demilestoned", "typed", "untyped"]
  const DISCUSSION_ACTIONS := [
    "created", "edited", "deleted", "transferred", "pinned", "unpinned", "labeled", "unlabeled", "locked",
    "unlocked", "category_changed", "answered", "unanswered", "closed", "reopened"]
  const MERGE_GROUP_ACTIONS := ["checks_requested", "destroyed"]
  const MILESTONE_ACTIONS := ["created", "closed", "opened", "edited", "deleted"]
  const REVIEW_ACTIONS := ["submitted", "edited", "dismissed"]

  function SupportedActions(event: string): seq<string> {
    if event == "release" then RELEASE_ACTIONS
    else if event == "milestone" then MILESTONE_ACTIONS
    else if event == "discussion" then DISCUSSION_ACTIONS
    else if event == "issues" then ISSUES_ACTIONS
    else if event == "pull_request_review" then REVIEW_ACTIONS
    else CRUD_ACTIONS
  }

  // ----- translation -----

  const UNSUPPORTED := "unsupported GitHub trigger event"

  function AnyOf(action: Operand, types: seq<string>): Cond {
    if types == [] then Const(false)
    else if |types| == 1 then Equals(action, types[0])
    else Or(AnyOf(action, types[..|types| - 1]), Equals(action, types[|types| - 1]))
  }

  function AllOf(first: Cond, rest: seq<Cond>): Cond {
    if rest == [] then first else And(AllOf(first, rest[..|rest| - 1]), rest[|rest| - 1])
  }

  predicate AllSupported(types: seq<string>, supported: seq<string>) {
    forall i :: 0 <= i < |types| ==> types[i] in supported
  }

  function Listed(names: Names): seq<string> {
    if names.Some? then names.value else []
  }

  /** Path filters: malformed ones, and ones on events without changed files, are errors. */
  predicate PathsAccepted(cs: Classes, lint: string -> bool, t: Trigger) {
    t.PathFilters() ==>
      if t.event == "push" || t.event == "pull_request" then PathFiltersOk(cs, lint, t.paths, t.pathsIgnore)
      else t.event !in UNFILTERED_EVENTS && t.event != "workflow_call"
  }

  function Given1(x: Expressions): Result<Option<Cond>> {
    if x.eventPredicate == "" then Err("no event predicate") else Ok(Some(Given(x.eventPredicate)))
  }

  function PushParts(cs: Classes, t: Trigger, x: Expressions): seq<Cond>
  {
    var branch := FilterCond(cs, x.branch, t.branches, t.branchesIgnore);
    var tag := FilterCond(cs, x.tag, t.tags, t.tagsIgnore);
    if branch.Some? && tag.Some? then
      [Or(And(IsNull(x.tag), branch.value), And(Not(IsNull(x.tag)), tag.value))]
    else if branch.Some? then [IsNull(x.tag), branch.value]
    else if tag.Some? then [Not(IsNull(x.tag)), tag.value]
    else []
  }

  /** The verdict on changed paths of the selected trigger. */
  function WithPaths(cs: Classes, t: Trigger, s: Snapshot, cond: Cond): Result<Option<Cond>> {
    if s.changedPaths.None? then Err("changed paths are not available")
    else if PathsSelected(cs, s.changedPaths.value, t.paths, t.pathsIgnore) then Ok(Some(cond))
    else Ok(None)
  }

  function TranslatePush(cs: Classes, t: Trigger, x: Expressions, s: Snapshot, selected: bool): Result<Option<Cond>> {
    if t.types.Some? || t.workflows.Some? then Err("unsupported filter")
    else if x.eventPredicate == "" then Err("no event predicate")
    else if x.branch.Null? && x.tag.Null? then Err("push event snapshot requires a branch or tag")
    else if !FiltersOk(cs, t.branches, t.branchesIgnore) ||
      !FiltersOk(cs, t.tags, t.tagsIgnore) then Err("invalid filter")
    else
      var cond := AllOf(Given(x.eventPredicate), PushParts(cs, t, x));
      if !t.PathFilters() || !selected || s.tag.Some? then Ok(Some(cond))
      else if s.branch.Some? && !PushBranchSelected(cs, t, s.branch.value) then Ok(Some(cond))
      else WithPaths(cs, t, s, cond)
  }

  predicate PushBranchSelected(cs: Classes, t: Trigger, branch: string) {
    if t.HasBranches() then RefSelected(cs, branch, t.branches, t.branchesIgnore) else !t.HasTags()
  }

  function TranslatePullRequest(cs: Classes, t: Trigger, x: Expressions, s: Snapshot,
                                selected: bool): Result<Option<Cond>> {
    var types := if t.types.Some? then t.types.value else DEFAULT_PULL_REQUEST_ACTIONS;
    if t.HasTags() || t.workflows.Some? then Err("unsupported filter")
    else if x.eventPredicate == "" || x.action.Null? then Err("pull_request event snapshot requires an action")
    else if t.HasBranches() && x.baseBranch.Null? then Err("pull_request branch filters require a base branch")
    else if !FiltersOk(cs, t.branches, t.branchesIgnore) then Err("invalid filter")
    else if types == [] || !AllSupported(types, PULL_REQUEST_ACTIONS) then Err("unsupported activity type")
    else
      var branch := FilterCond(cs, x.baseBranch, t.branches, t.branchesIgnore);
      var cond := AllOf(Given(x.eventPredicate),
        (if branch.Some? then [branch.value] else []) + [AnyOf(x.action, types)]);
      if !t.PathFilters() || !selected then Ok(Some(cond))
      else if s.action.Some? && s.action.value !in types then Ok(Some(cond))
      else if s.baseBranch.Some? && !RefSelected(cs, s.baseBranch.value, t.branches,
        t.branchesIgnore) then Ok(Some(cond))
      else WithPaths(cs, t, s, cond)
  }

  function TranslateMergeGroup(cs: Classes, t: Trigger, x: Expressions, s: Snapshot): Result<Option<Cond>> {
    var types := if Listed(t.types) == [] then ["checks_requested"] else Listed(t.types);
    if t.HasTags() || t.workflows.Some? then Err("unsupported filter")
    else if x.eventPredicate == "" || x.action.Null? then Err("merge_group event snapshot requires an action")
    else if s.action.Some? && s.action.value !in MERGE_GROUP_ACTIONS then Err("unsupported activity")
    else if !AllSupported(types, MERGE_GROUP_ACTIONS) then Err("unsupported activity type")
    else if t.HasBranches() && x.mergeBase.Null? then Err("merge_group branch filters require a base branch")
    else if !FiltersOk(cs, t.branches, t.branchesIgnore) then Err("invalid filter")
    else
      var branch := FilterCond(cs, x.mergeBase, t.branches, t.branchesIgnore);
      Ok(Some(AllOf(Given(x.eventPredicate), [AnyOf(x.action, types)] + if branch.Some? then [branch.value] else [])))
  }

  /** Release, review, issue and other events that are filtered by activity only. */
  function TranslateActivity(t: Trigger, x: Expressions, s: Snapshot): Result<Option<Cond>> {
    var types := if t.event == "release" && Listed(t.types) == [] then RELEASE_ACTIONS else Listed(t.types);
    if t.workflows.Some? then Err("unsupported filter")
    else if x.eventPredicate == "" || x.action.Null? then Err("the event snapshot requires an action")
    else if (t.event == "pull_request_review" || t.event == "pull_request_review_comment") &&
            s.action.Some? && s.action.value !in SupportedActions(t.event) then Err("unsupported activity")
    else if types == [] then Ok(Some(Given(x.eventPredicate)))
    else if !AllSupported(types, SupportedActions(t.event)) then Err("unsupported activity type")
    else Ok(Some(And(Given(x.eventPredicate), AnyOf(x.action, types))))
  }

  /** The condition of one trigger; Ok(None) when it contributes nothing. */
  function Translate(cs: Classes, lint: string -> bool, t: Trigger, x: Expressions, s: Snapshot,
                     selected: bool): Result<Option<Cond>> {
    if !SupportedEvent(t.event) then Err(UNSUPPORTED)
    else if !PathsAccepted(cs, lint, t) then Err("unsupported path filters")
    else if t.event == "workflow_call" then Ok(None)
    else if t.event in PLAIN_EVENTS then
      if Listed(t.types) != [] || t.workflows.Some? then Err("unsupported filter") else Given1(x)
    else if t.event in TYPELESS_EVENTS then
      if t.types.Some? || t.workflows.Some? then Err("unsupported filter") else Given1(x)
    else if t.event in UNFILTERED_EVENTS then
      if t.WebhookFilters() then Err("unsupported filter") else Given1(x)
    else if t.event == "push" then TranslatePush(cs, t, x, s, selected)
    else if t.event == "pull_request" then TranslatePullRequest(cs, t, x, s, selected)
    else if t.event == "merge_group" then TranslateMergeGroup(cs, t, x, s)
    else if t.event == "watch" then
      if t.workflows.Some? || !AllSupported(Listed(t.types), ["started"]) then Err("unsupported filter") else Given1(x)
    else TranslateActivity(t, x, s)
  }

  function Own(cs: Classes, lint: string -> bool, t: Trigger, event: string, x: Expressions,
               s: Snapshot): Result<Option<Cond>> {
    if t.event == event then Translate(cs, lint, t, x, s, true)
    else Translate(cs, lint, t, LiveExpressions(t.event), NO_SNAPSHOT, false)
  }

  /** A trigger that stops the translation: in error, and not merely of an unsupported event we do not care for. */
  predicate Stops(cs: Classes, lint: string -> bool, t: Trigger, event: string, x: Expressions, s: Snapshot) {
    var r := Own(cs, lint, t, event, x, s);
    r.Err? && (t.event == event || r.reason != UNSUPPORTED)
  }

  function Terms(cs: Classes, lint: string -> bool, ts: seq<Trigger>, event: string, x: Expressions,
                 s: Snapshot): seq<Cond> {
    if ts == [] then []
    else
      var t := ts[|ts| - 1];
      var r := Own(cs, lint, t, event, x, s);
      Terms(cs, lint, ts[..|ts| - 1], event, x, s) + if t.event == event && r.Ok? && r.value.Some? then [r.value.value]
        else []
  }

  function SomeOf(terms: seq<Cond>): Option<Cond> {
    if terms == [] then None
    else
      var front := SomeOf(terms[..|terms| - 1]);
      Some(if front.None? then terms[|terms| - 1] else Or(front.value, terms[|terms| - 1]))
  }

  /** TranslateEventTriggerCondition: all triggers are validated, those of the event contribute. */
  method TranslateEvent(cs: Classes, lint: string -> bool, ts: seq<Trigger>, event: string, x: Expressions, s: Snapshot)
    returns (r: Result<Option<Cond>>)
    ensures r.Ok? <==> forall i :: 0 <= i < |ts| ==> !Stops(cs, lint, ts[i], event, x, s)
    ensures r.Ok? ==> r.value == SomeOf(Terms(cs, lint, ts, event, x, s))
  {
    hide Translate;
    var terms := [];
    for i := 0 to |ts|
      invariant forall k :: 0 <= k < i ==> !Stops(cs, lint, ts[k], event, x, s)
      invariant terms == Terms(cs, lint, ts[..i], event, x, s)
    {
      var t := ts[i];
      assert ts[..i + 1][..i] == ts[..i];
      var selected := t.event == event;
      var one := if selected then Translate(cs, lint, t, x, s, true)
                 else Translate(cs, lint, t, LiveExpressions(t.event), NO_SNAPSHOT, false);
      if one.Err? {
        if selected || one.reason != UNSUPPORTED {
          return Err(one.reason);
        }
      } else if selected && one.value.Some? {
        terms := terms + [one.value.value];
      }
    }
    assert ts[..|ts|] == ts;
    r := Ok(SomeOf(terms));
  }

  // ----- the direct explanation -----

  function MismatchPush(cs: Classes, t: Trigger, s: Snapshot): Result<bool> {
    if s.branch.Some? && !t.HasBranches() && t.HasTags() then Ok(true)
    else if s.branch.Some? && !FiltersOk(cs, t.branches, t.branchesIgnore) then Err("invalid filter")
    else if s.branch.Some? && !RefSelected(cs, s.branch.value, t.branches, t.branchesIgnore) then Ok(true)
    else if s.tag.Some? && !t.HasTags() && t.HasBranches() then Ok(true)
    else if s.tag.Some? && !FiltersOk(cs, t.tags, t.tagsIgnore) then Err("invalid filter")
    else Ok(s.tag.Some? && !RefSelected(cs, s.tag.value, t.tags, t.tagsIgnore))
  }

  function MismatchBase(cs: Classes, t: Trigger, base: Option<string>): Result<bool> {
    if base.None? then Ok(false)
    else if !FiltersOk(cs, t.branches, t.branchesIgnore) then Err("invalid filter")
    else Ok(!RefSelected(cs, base.value, t.branches, t.branchesIgnore))
  }

  function MismatchFilters(cs: Classes, t: Trigger, s: Snapshot): Result<bool> {
    if t.event == "push" then MismatchPush(cs, t, s)
    else if t.event == "pull_request" then
      var base := MismatchBase(cs, t, s.baseBranch);
      if base.Err? || base.value then base
      else Ok(s.action.Some? && s.action.value !in if t.types.Some? then t.types.value
        else DEFAULT_PULL_REQUEST_ACTIONS)
    else if t.event == "merge_group" then
      var base := MismatchBase(cs, t, s.mergeBase);
      if base.Err? || base.value then base
      else Ok(s.action.Some? && s.action.value !in if Listed(t.types) == [] then ["checks_requested"]
        else Listed(t.types))
    else if t.event == "release" then
      Ok(s.action.Some? && s.action.value !in if Listed(t.types) == [] then RELEASE_ACTIONS else Listed(t.types))
    else if t.event in ACTIVITY_EVENTS then
      Ok(s.action.Some? && Listed(t.types) != [] && s.action.value !in Listed(t.types))
    else Ok(false)
  }

  function MismatchPaths(cs: Classes, lint: string -> bool, t: Trigger, s: Snapshot): Result<bool> {
    if !t.PathFilters() || s.changedPaths.None? then Ok(false)
    else if !(t.event == "pull_request" || (t.event == "push" && s.tag.None?)) then Ok(false)
    else if !PathFiltersOk(cs, lint, t.paths, t.pathsIgnore) then Err("invalid path filter")
    else Ok(!PathsSelected(cs, s.changedPaths.value, t.paths, t.pathsIgnore))
  }

  function MismatchOf(cs: Classes, lint: string -> bool, t: Trigger, s: Snapshot): Result<bool> {
    var filters := MismatchFilters(cs, t, s);
    if filters.Err? || filters.value then filters else MismatchPaths(cs, lint, t, s)
  }

  predicate Declares(ts: seq<Trigger>, event: string) {
    exists t :: t in ts && t.event == event
  }

  /** TriggerFilterMismatchReason: whether the first trigger of the event is given a reason not to match. */
  method FilterMismatch(cs: Classes, lint: string -> bool, ts: seq<Trigger>, event: string, s: Snapshot)
    returns (r: Result<bool>)
    ensures !Declares(ts, event) ==> r == Ok(false)
    ensures Declares(ts, event) ==>
              exists i :: 0 <= i < |ts| && IsFirst(ts, event, i) && r == MismatchOf(cs, lint, ts[i], s)
  {
    hide MismatchOf;
    for i := 0 to |ts|
      invariant forall k :: 0 <= k < i ==> ts[k].event != event
    {
      if ts[i].event == event {
        assert IsFirst(ts, event, i);
        return MismatchOf(cs, lint, ts[i], s);
      }
    }
    return Ok(false);
  }

  predicate IsFirst(ts: seq<Trigger>, event: string, i: nat)
    requires i < |ts|
  {
    ts[i].event == event && forall k :: 0 <= k < i ==> ts[k].event != event
  }
}
