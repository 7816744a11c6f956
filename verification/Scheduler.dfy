/** The scheduler that runs uploaded steps, as a step relation, and what every run keeps. */
module Scheduler {
  import opened Uploads

  /** Abandoned: a strict dependency did not pass, so the step never runs. */
  datatype Status = Waiting | Running | Passed | Failed | Abandoned | Canceled

  datatype Build = Build(steps: seq<Step>, scopes: seq<Scope>, status: map<string, Status>)

  function StatusOf(b: Build, key: string): Status {
    if key in b.status then b.status[key] else Waiting
  }

  predicate Over(s: Status) {
    s.Passed? || s.Failed? || s.Abandoned? || s.Canceled?
  }

  predicate Settled(b: Build, key: string) {
    Over(StatusOf(b, key))
  }

  /** The step has been given to an agent. */
  predicate Started(b: Build, key: string) {
    var s := StatusOf(b, key);
    s.Running? || s.Passed? || s.Failed?
  }

  // ----- the step relation -----

  /** Every dependency is over, and has passed unless it may fail. */
  ghost predicate NeedsMet(b: Build, i: nat)
    requires i < |b.steps|
  {
    forall d :: d in b.steps[i].needs ==> Settled(b, d.step) && (d.allowFailure || StatusOf(b, d.step).Passed?)
  }

  /** Every entry ahead of it in its concurrency group is over. */
  ghost predicate QueueClear(b: Build, i: nat)
    requires i < |b.steps|
  {
    forall j :: 0 <= j < i && b.steps[i].group != "" && b.steps[j].group == b.steps[i].group ==>
        Settled(b, b.steps[j].key)
  }

  /** A strict dependency is over and did not pass. */
  ghost predicate Blocked(b: Build, i: nat)
    requires i < |b.steps|
  {
    exists d :: d in b.steps[i].needs && !d.allowFailure && Settled(b, d.step) && !StatusOf(b, d.step).Passed?
  }

  datatype Event =
    | Start(i: nat)
    | Finish(i: nat, passed: bool)
    | Abandon(i: nat)
    | Cancel(i: nat)
    | Append(upload: Upload)

  function KeyAt(b: Build, i: nat): string
    requires i < |b.steps|
  {
    b.steps[i].key
  }

  /** The server takes an upload whole: new keys only, and no dependency left open. */
  ghost predicate Acceptable(b: Build, u: Upload) {
    && Coherent(u)
    && StepKeys(u.steps) !! StepKeys(b.steps)
    && forall i, d :: 0 <= i < |u.steps| && d in u.steps[i].needs ==> d.step in StepKeys(b.steps) + StepKeys(u.steps)
  }

  ghost predicate Enabled(b: Build, e: Event) {
    match e
    case Start(i) => i < |b.steps| && StatusOf(b, KeyAt(b, i)).Waiting? && NeedsMet(b, i) && QueueClear(b, i)
    case Finish(i, _) => i < |b.steps| && StatusOf(b, KeyAt(b, i)).Running?
    case Abandon(i) => i < |b.steps| && StatusOf(b, KeyAt(b, i)).Waiting? && Blocked(b, i)
    case Cancel(i) => i < |b.steps| && !Settled(b, KeyAt(b, i))
    case Append(u) => Acceptable(b, u)
  }

  function Next(b: Build, e: Event): Build
    requires !e.Append? ==> e.i < |b.steps|
  {
    match e
    case Append(u) => Build(b.steps + u.steps, b.scopes + u.scopes, b.status)
    case Start(i) => b.(status := b.status[KeyAt(b, i) := Running])
    case Finish(i, passed) => b.(status := b.status[KeyAt(b, i) := if passed then Passed else Failed])
    case Abandon(i) => b.(status := b.status[KeyAt(b, i) := Abandoned])
    case Cancel(i) => b.(status := b.status[KeyAt(b, i) := Canceled])
  }

  /** Any run from the empty build: uploads arrive and steps move in any order. */
  ghost predicate IsRun(run: seq<Build>, events: seq<Event>) {
    && |run| == |events| + 1
    && run[0] == Build([], [], map[])
    && forall n :: 0 <= n < |events| ==> Enabled(run[n], events[n]) && run[n + 1] == Next(run[n], events[n])
  }

  // ----- what every run keeps -----

  /** Scopes stay where their upload put them; dependencies resolve; everything can be ranked. */
  ghost predicate Sound(b: Build) {
    && Coherent(Upload(b.steps, b.scopes))
    && (forall i, d :: 0 <= i < |b.steps| && d in b.steps[i].needs ==> d.step in StepKeys(b.steps))
    && b.status.Keys <= StepKeys(b.steps)
  }

  /** No step started early, and no step was given up without a reason. */
  ghost predicate History(b: Build) {
    && (forall i :: 0 <= i < |b.steps| && Started(b, KeyAt(b, i)) ==> NeedsMet(b, i) && QueueClear(b, i))
    && (forall i :: 0 <= i < |b.steps| && StatusOf(b, KeyAt(b, i)).Abandoned? ==> Blocked(b, i))
  }

  ghost predicate Valid(b: Build) {
    Sound(b) && History(b)
  }

  lemma {:induction false} RunsStayValid(run: seq<Build>, events: seq<Event>, n: nat)
    requires IsRun(run, events) && n < |run|
    ensures Valid(run[n])
  {
    if n == 0 {
      assert RanksSteps([], []);
    } else {
      RunsStayValid(run, events, n - 1);
      StepKeepsValid(run[n - 1], events[n - 1]);
    }
  }

  lemma StepKeepsValid(b: Build, e: Event)
    requires Valid(b) && Enabled(b, e)
    ensures Valid(Next(b, e))
  {
    hide Sound, History;
    if e.Append? {
      AppendKeepsSound(b, e.upload);
      AppendKeepsHistory(b, e.upload);
    } else {
      MoveKeepsSound(b, e);
      MoveKeepsHistory(b, e);
    }
  }

  lemma MoveKeepsSound(b: Build, e: Event)
    requires Sound(b) && !e.Append? && e.i < |b.steps|
    ensures Sound(Next(b, e))
  {
    hide Coherent;
    assert KeyAt(b, e.i) in StepKeys(b.steps);
  }

  /** A step that is over never moves again. */
  lemma SettledIsFinal(b: Build, e: Event, key: string)
    requires Sound(b) && Enabled(b, e) && Settled(b, key)
    ensures StatusOf(Next(b, e), key) == StatusOf(b, key)
  {
    hide Coherent;
  }

  lemma MoveKeepsHistory(b: Build, e: Event)
    requires Valid(b) && Enabled(b, e) && !e.Append?
    ensures History(Next(b, e))
  {
    hide Coherent;
    var c := Next(b, e);
    forall key | Settled(b, key) ensures StatusOf(c, key) == StatusOf(b, key) {
      SettledIsFinal(b, e, key);
    }
    forall i | 0 <= i < |c.steps|
      ensures Started(c, KeyAt(c, i)) ==> NeedsMet(c, i) && QueueClear(c, i)
      ensures StatusOf(c, KeyAt(c, i)).Abandoned? ==> Blocked(c, i)
    {
      if i != e.i { KeysDiffer(b, i, e.i); }
      if StatusOf(c, KeyAt(c, i)).Abandoned? {
        assert Blocked(b, i);
        var d :| d in b.steps[i].needs && !d.allowFailure && Settled(b, d.step) && !StatusOf(b, d.step).Passed?;
        assert Settled(c, d.step);
      }
    }
  }

  lemma KeysDiffer(b: Build, i: nat, j: nat)
    requires Sound(b) && i < |b.steps| && j < |b.steps| && i != j
    ensures KeyAt(b, i) != KeyAt(b, j)
  {
    hide Orderable;
  }

  // ----- appending an upload -----

  ghost function Ceiling(rank: seq<nat>): (n: nat)
    ensures forall i :: 0 <= i < |rank| ==> rank[i] < n
  {
    if rank == [] then 0
    else
      var rest := Ceiling(rank[..|rank| - 1]);
      var last := rank[|rank| - 1];
      assert forall i :: 0 <= i < |rank| - 1 ==> rank[i] == rank[..|rank| - 1][i];
      if last < rest then rest else last + 1
  }

  lemma NothingWaitsAhead(built: seq<Step>, added: seq<Step>, i: nat, j: nat)
    requires StepKeys(added) !! StepKeys(built) && i < |built| && j < |added|
    requires forall d :: d in built[i].needs ==> d.step in StepKeys(built)
    ensures !Needs(built[i], added[j].key)
  {
    assert added[j].key in StepKeys(added);
  }

  /** Later uploads queue behind earlier ones and nothing earlier waits for them. */
  lemma AppendKeepsOrder(built: seq<Step>, added: seq<Step>)
    requires Orderable(built) && Orderable(added) && StepKeys(added) !! StepKeys(built)
    requires forall i, d :: 0 <= i < |built| && d in built[i].needs ==> d.step in StepKeys(built)
    ensures Orderable(built + added)
  {
    var low :| RanksSteps(built, low);
    var high :| RanksSteps(added, high);
    var all, base := built + added, Ceiling(low);
    var rank := low + seq(|high|, i requires 0 <= i < |high| => base + high[i]);
    forall i, j | 0 <= i < |all| && 0 <= j < |all| && WaitsFor(all, i, j) ensures rank[j] < rank[i] {
      if i < |built| && j < |built| {
        assert WaitsFor(built, i, j);
      } else if i >= |built| && j >= |built| {
        assert WaitsFor(added, i - |built|, j - |built|);
      } else if i < |built| {
        NothingWaitsAhead(built, added, i, j - |built|);
        assert false;
      }
    }
    assert RanksSteps(all, rank);
  }

  lemma AppendKeepsSound(b: Build, u: Upload)
    requires Sound(b) && Acceptable(b, u)
    ensures Sound(Next(b, Append(u)))
  {
    hide Orderable, HasScope, StepKeys;
    var c := Next(b, Append(u));
    AllKeys(b.steps, u.steps);
    AppendKeepsOrder(b.steps, u.steps);
    forall i, j | 0 <= i < j < |c.steps| ensures c.steps[i].key != c.steps[j].key {
      if i < |b.steps| <= j {
        KeyOfMember(b.steps, i);
        KeyOfMember(u.steps, j - |b.steps|);
      }
    }
    forall s | s in c.scopes ensures HasScope(c.steps, s) {
      if s in b.scopes { OldScopeStays(b.steps, u.steps, s); } else { NewScopeArrives(b.steps, u.steps, s); }
    }
  }

  lemma AppendKeepsHistory(b: Build, u: Upload)
    requires Valid(b) && Acceptable(b, u)
    ensures History(Next(b, Append(u)))
  {
    hide Coherent;
    var c := Next(b, Append(u));
    forall i | 0 <= i < |c.steps|
      ensures Started(c, KeyAt(c, i)) ==> NeedsMet(c, i) && QueueClear(c, i)
      ensures StatusOf(c, KeyAt(c, i)).Abandoned? ==> Blocked(c, i)
    {
      if i >= |b.steps| {
        KeyOfMember(u.steps, i - |b.steps|);
      } else {
        assert c.steps[i] == b.steps[i] && KeyAt(c, i) == KeyAt(b, i);
      }
    }
  }

  // ----- progress -----

  /** Something other than a cancellation or an upload can happen. */
  ghost predicate CanMove(b: Build) {
    exists i :: 0 <= i < |b.steps| &&
      (StatusOf(b, KeyAt(b, i)).Running? || Enabled(b, Start(i)) || Enabled(b, Abandon(i)))
  }

  /** While a step is not over, some step is running, can start, or can be given up. */
  lemma NeverStuck(b: Build)
    requires Valid(b)
    ensures (forall i :: 0 <= i < |b.steps| ==> Settled(b, KeyAt(b, i))) || CanMove(b)
  {
    hide HasScope, DistinctSteps;
    var rank :| RanksSteps(b.steps, rank);
    var open := set i | 0 <= i < |b.steps| && !Settled(b, KeyAt(b, i));
    if i0: nat :| i0 < |b.steps| && !Settled(b, KeyAt(b, i0)) {
      assert i0 in open;
      var i := Lowest(open, rank);
      LowestCanMove(b, rank, i);
    }
  }

  lemma {:induction false} Lowest(s: set<nat>, rank: seq<nat>) returns (low: nat)
    requires s != {} && forall i :: i in s ==> i < |rank|
    ensures low in s && forall i :: i in s ==> rank[low] <= rank[i]
    decreases |s|
  {
    low :| low in s;
    if s != {low} {
      assert s - {low} != {};
      var rest := Lowest(s - {low}, rank);
      if rank[rest] < rank[low] { low := rest; }
    }
  }

  lemma LowestCanMove(b: Build, rank: seq<nat>, i: nat)
    requires Valid(b) && RanksSteps(b.steps, rank)
    requires i < |b.steps| && !Settled(b, KeyAt(b, i))
    requires forall j :: 0 <= j < |b.steps| && !Settled(b, KeyAt(b, j)) ==> rank[i] <= rank[j]
    ensures CanMove(b)
  {
    hide Coherent;
    forall j | 0 <= j < |b.steps| && WaitsFor(b.steps, i, j) ensures Settled(b, KeyAt(b, j)) { }
    forall d | d in b.steps[i].needs ensures Settled(b, d.step) {
      assert d.step in StepKeys(b.steps);
      var j :| 0 <= j < |b.steps| && b.steps[j].key == d.step;
      assert WaitsFor(b.steps, i, j);
    }
    forall j | 0 <= j < i && b.steps[i].group != "" && b.steps[j].group == b.steps[i].group
      ensures Settled(b, b.steps[j].key)
    {
      assert WaitsFor(b.steps, i, j);
      assert Settled(b, KeyAt(b, j));
    }
    if !Blocked(b, i) { assert NeedsMet(b, i) && QueueClear(b, i); }
  }

  // ----- every run is bounded -----

  function Remaining(s: Status): nat {
    if s.Waiting? then 2 else if s.Running? then 1 else 0
  }

  function Work(b: Build, n: nat): nat
    requires n <= |b.steps|
  {
    if n == 0 then 0 else Work(b, n - 1) + Remaining(StatusOf(b, KeyAt(b, n - 1)))
  }

  lemma {:induction false} MoveLowersWork(b: Build, e: Event, n: nat)
    requires Valid(b) && Enabled(b, e) && !e.Append? && n <= |b.steps|
    ensures Work(Next(b, e), n) + (if e.i < n then 1 else 0) <= Work(b, n)
  {
    hide Valid, NeedsMet, QueueClear, Blocked;
    if n > 0 {
      MoveLowersWork(b, e, n - 1);
      if e.i != n - 1 { assert KeyAt(b, n - 1) != KeyAt(b, e.i) by { DistinctPlaces(b, n - 1, e.i); } }
    }
  }

  lemma DistinctPlaces(b: Build, i: nat, j: nat)
    requires Valid(b) && i < |b.steps| && j < |b.steps| && i != j
    ensures KeyAt(b, i) != KeyAt(b, j)
  {
    hide History, Orderable;
  }

  /** The moves of a run, uploads apart. */
  function Moves(events: seq<Event>): nat {
    if events == [] then 0
    else Moves(events[..|events| - 1]) + if events[|events| - 1].Append? then 0 else 1
  }

  lemma {:induction false} NewStepsAddWork(b: Build, u: Upload, n: nat)
    requires n <= |b.steps| + |u.steps|
    ensures Work(Next(b, Append(u)), n) <= (if n <= |b.steps| then Work(b, n)
        else Work(b, |b.steps|) + 2 * (n - |b.steps|))
  {
    if n > 0 { NewStepsAddWork(b, u, n - 1); }
  }

  /** No run makes more than two moves for each step that was ever uploaded. */
  lemma {:induction false} RunsAreBounded(run: seq<Build>, events: seq<Event>)
    requires IsRun(run, events)
    ensures Moves(events) + Work(run[|events|], |run[|events|].steps|) <= 2 * |run[|events|].steps|
  {
    hide Valid, Enabled, Next, Work;
    if events != [] {
      var n := |events| - 1;
      var b, e := run[n], events[n];
      ShorterRun(run, events);
      RunsAreBounded(run[..n + 1], events[..n]);
      RunsStayValid(run, events, n);
      LastStep(b, e);
    } else {
      assert Work(run[0], 0) == 0 by { NothingToDo(); }
    }
  }

  lemma NothingToDo()
    ensures Work(Build([], [], map[]), 0) == 0
  {
  }

  lemma ShorterRun(run: seq<Build>, events: seq<Event>)
    requires IsRun(run, events) && events != []
    ensures IsRun(run[..|run| - 1], events[..|events| - 1])
    ensures Enabled(run[|events| - 1], events[|events| - 1])
    ensures run[|events|] == Next(run[|events| - 1], events[|events| - 1])
  {
    hide Enabled, Next;
  }

  lemma LastStep(b: Build, e: Event)
    requires Valid(b) && Enabled(b, e)
    ensures var c := Next(b, e);
            && |b.steps| <= |c.steps|
            && (if e.Append? then 0 else 1) + Work(c, |c.steps|) + 2 * |b.steps| <= Work(b, |b.steps|) + 2 * |c.steps|
  {
    hide Valid, NeedsMet, QueueClear, Blocked, Work, Acceptable;
    if e.Append? {
      NewStepsAddWork(b, e.upload, |b.steps| + |e.upload.steps|);
    } else {
      MoveLowersWork(b, e, |b.steps|);
    }
  }

  // ----- one scope of a group at a time -----

  /** The scope has been entered and a member is not over yet. */
  ghost predicate Occupied(b: Build, s: Scope) {
    s in b.scopes && StatusOf(b, s.open).Passed? && exists m :: m in s.members && !Settled(b, m)
  }

  lemma PlaceOf(b: Build, s: Scope) returns (o: nat)
    requires Valid(b) && s in b.scopes
    ensures ScopeAt(b.steps, s, o)
  {
    hide Orderable, DistinctSteps, ScopeAt;
    assert HasScope(b.steps, s);
    o :| ScopeAt(b.steps, s, o);
  }

  lemma OccupiedHoldsClose(b: Build, s: Scope, o: nat)
    requires Valid(b) && Occupied(b, s) && ScopeAt(b.steps, s, o)
    ensures StatusOf(b, s.close).Waiting? || StatusOf(b, s.close).Canceled?
  {
    hide Coherent;
    var m :| m in s.members && !Settled(b, m);
    assert MemberHeld(b.steps, o, m) && KeyAt(b, o) == s.open && KeyAt(b, o + 1) == s.close;
    var d :| d in b.steps[o + 1].needs && d.step == m;
    assert !NeedsMet(b, o + 1) && NeedsMet(b, o);
    forall x | x in b.steps[o + 1].needs && !x.allowFailure ensures StatusOf(b, x.step).Passed? {
      assert x == Dependency(x.step, false);
      assert StrictlyNeeds(b.steps[o], x.step);
    }
  }

  /** While a scope is occupied, no other entry of its group runs, unless its closing step was canceled. */
  lemma NothingRunsBeside(b: Build, s: Scope, i: nat)
    requires Valid(b) && Occupied(b, s) && i < |b.steps|
    requires b.steps[i].group == s.group && KeyAt(b, i) != s.open && KeyAt(b, i) != s.close
    ensures StatusOf(b, KeyAt(b, i)).Running? ==> StatusOf(b, s.close).Canceled?
  {
    hide Coherent;
    var o := PlaceOf(b, s);
    OccupiedHoldsClose(b, s, o);
    assert KeyAt(b, o) == s.open && KeyAt(b, o + 1) == s.close;
    assert QueueClear(b, o);
    if i < o { assert Settled(b, b.steps[i].key); }
  }

  /** The cancellation is exactly what lets another entry in: an entry that is ready to run, and has only the
      closing step of an occupied scope left ahead of it, may start if and only if that step was canceled. */
  lemma CanceledCloseAdmitsExactly(run: seq<Build>, events: seq<Event>, n: nat, s: Scope, i: nat)
    requires IsRun(run, events) && n < |run| && Occupied(run[n], s) && i < |run[n].steps|
    requires ReadyBehind(run[n], s, i)
    ensures Enabled(run[n], Start(i)) <==> StatusOf(run[n], s.close).Canceled?
  {
    hide IsRun, Coherent, Occupied;
    RunsStayValid(run, events, n);
    var b := run[n];
    OccupiedIsThere(b, s);
    var o := PlaceOf(b, s);
    OccupiedHoldsClose(b, s, o);
    assert KeyAt(b, o) == s.open && KeyAt(b, o + 1) == s.close;
    assert QueueClear(b, o);
    if i < o { assert Settled(b, b.steps[i].key); }
  }

  lemma OccupiedIsThere(b: Build, s: Scope)
    requires Occupied(b, s)
    ensures s in b.scopes && StatusOf(b, s.open).Passed?
  {
  }

  /** Waiting, no marker of the scope, and all it waits for is over, the closing step of the scope aside. */
  ghost predicate ReadyBehind(b: Build, s: Scope, i: nat)
    requires i < |b.steps|
  {
    && b.steps[i].group == s.group && KeyAt(b, i) != s.open && KeyAt(b, i) != s.close
    && StatusOf(b, KeyAt(b, i)).Waiting? && NeedsMet(b, i)
    && forall j :: 0 <= j < i && b.steps[j].group == s.group && KeyAt(b, j) != s.close ==> Settled(b, KeyAt(b, j))
  }

  /** The markers of s come first in the list. */
  ghost predicate Ahead(b: Build, s: Scope, t: Scope) {
    exists o: nat, p: nat :: o < p && ScopeAt(b.steps, s, o) && ScopeAt(b.steps, t, p)
  }

  lemma OnlyOneOccupied(b: Build, s: Scope, t: Scope)
    requires Valid(b) && Occupied(b, s) && Occupied(b, t) && s.group == t.group && Ahead(b, s, t) && s.open != t.open
    ensures StatusOf(b, s.close).Canceled?
  {
    hide Coherent;
    var o: nat, p: nat :| o < p && ScopeAt(b.steps, s, o) && ScopeAt(b.steps, t, p);
    OccupiedHoldsClose(b, s, o);
    assert KeyAt(b, o) == s.open && KeyAt(b, o + 1) == s.close && KeyAt(b, p) == t.open;
    assert QueueClear(b, p);
    CloseIsAhead(b, s, t, o, p);
    assert Settled(b, b.steps[o + 1].key);
  }

  /** A closing step is nothing's opening step as long as its scope is not over. */
  lemma CloseIsAhead(b: Build, s: Scope, t: Scope, o: nat, p: nat)
    requires Valid(b) && Occupied(b, s) && Occupied(b, t) && o < p && ScopeAt(b.steps, s, o) && ScopeAt(b.steps, t, p)
    ensures o + 1 < p
  {
    hide Coherent;
    OccupiedHoldsClose(b, s, o);
  }

  /** In every state of every run at most one scope of a group is occupied, unless the closing step of
      the scope that was ahead has been canceled. */
  lemma MutualExclusion(run: seq<Build>, events: seq<Event>, n: nat, s: Scope, t: Scope)
    requires IsRun(run, events) && n < |run|
    requires Occupied(run[n], s) && Occupied(run[n], t) && s.group == t.group && s.open != t.open
    ensures (Ahead(run[n], s, t) && StatusOf(run[n], s.close).Canceled?) ||
            (Ahead(run[n], t, s) && StatusOf(run[n], t.close).Canceled?)
  {
    hide Valid, Occupied, IsRun, ScopeAt;
    RunsStayValid(run, events, n);
    OneIsAhead(run[n], s, t);
    if Ahead(run[n], s, t) { OnlyOneOccupied(run[n], s, t); } else { OnlyOneOccupied(run[n], t, s); }
  }

  lemma OneIsAhead(b: Build, s: Scope, t: Scope)
    requires Valid(b) && Occupied(b, s) && Occupied(b, t) && s.open != t.open
    ensures Ahead(b, s, t) || Ahead(b, t, s)
  {
    hide Valid;
    var o := PlaceOf(b, s);
    var p := PlaceOf(b, t);
    assert o != p;
  }

  /** A member runs only inside its scope: opened before, not closed. */
  lemma MembersRunInside(run: seq<Build>, events: seq<Event>, n: nat, s: Scope, m: string)
    requires IsRun(run, events) && n < |run| && s in run[n].scopes && m in s.members
    requires StatusOf(run[n], m).Running?
    ensures Occupied(run[n], s)
    ensures StatusOf(run[n], s.close).Waiting? || StatusOf(run[n], s.close).Canceled?
  {
    hide IsRun, Coherent;
    RunsStayValid(run, events, n);
    var b := run[n];
    var o := PlaceOf(b, s);
    assert m in StepKeys(b.steps);
    var i :| 0 <= i < |b.steps| && b.steps[i].key == m;
    assert MemberHeld(b.steps, o, m) && StrictlyNeeds(b.steps[i], s.open);
    assert NeedsMet(b, i);
    OccupiedHoldsClose(b, s, o);
  }

  /** A child scope opens after its parent and is closed before it. */
  lemma ScopesNest(run: seq<Build>, events: seq<Event>, n: nat, s: Scope)
    requires IsRun(run, events) && n < |run| && s in run[n].scopes && s.parent.Inside?
    ensures Started(run[n], s.open) ==> StatusOf(run[n], s.parent.open).Passed?
    ensures Started(run[n], s.parent.close) ==> Settled(run[n], s.close)
  {
    hide IsRun, Orderable, DistinctSteps;
    RunsStayValid(run, events, n);
    var b := run[n];
    var o := PlaceOf(b, s);
    assert KeyAt(b, o) == s.open;
    assert s.parent.close in StepKeys(b.steps);
    var i :| 0 <= i < |b.steps| && b.steps[i].key == s.parent.close;
    if Started(b, s.parent.close) {
      assert Started(b, KeyAt(b, i)) && NeedsMet(b, i);
      var d :| d in b.steps[i].needs && d.step == s.close;
    }
  }

  /** Deadlock freedom: every state of every run is finished or can move without help. */
  lemma EveryRunCanMove(run: seq<Build>, events: seq<Event>, n: nat)
    requires IsRun(run, events) && n < |run|
    ensures (forall i :: 0 <= i < |run[n].steps| ==> Settled(run[n], KeyAt(run[n], i))) || CanMove(run[n])
  {
    hide IsRun, Valid, CanMove;
    RunsStayValid(run, events, n);
    NeverStuck(run[n]);
  }

  // ----- what cancellation of a closing step allows -----

  function OneMember(open: string, close: string, member: string): Upload {
    Upload([Step(open, "g", []), Step(close, "g", [Dependency(member, true)]),
      Step(member, "", [Dependency(open, false)])],
           [Scope(open, close, "g", [member], Outermost)])
  }

  lemma OneMemberIsCoherent(open: string, close: string, member: string)
    requires open != close && close != member && member != open
    ensures Coherent(OneMember(open, close, member))
    ensures StepKeys(OneMember(open, close, member).steps) == {open, close, member}
  {
    var u := OneMember(open, close, member);
    assert u.steps[1].needs[0].step == member;
    assert u.steps[2].needs[0].step == open;
    forall i, j | 0 <= i < 3 && 0 <= j < 3 && WaitsFor(u.steps, i, j) ensures [0, 2, 1][j] < [0, 2, 1][i] { }
    assert RanksSteps(u.steps, [0, 2, 1]);
    assert ScopeAt(u.steps, u.scopes[0], 0);
    assert StepKeys(u.steps) == {open, close, member} by {
      assert u.steps[0].key == open && u.steps[1].key == close && u.steps[2].key == member;
    }
  }

  /** Two uploads, the first scope opened and its closing step canceled, the second opened. */
  const OVERLAPPING: seq<Event> := [
    Append(OneMember("a1", "a2", "a3")), Append(OneMember("b1", "b2", "b3")),
    Start(0), Finish(0, true), Cancel(1), Start(3), Finish(3, true)]

  function Two(status: map<string, Status>): Build {
    var a, b := OneMember("a1", "a2", "a3"), OneMember("b1", "b2", "b3");
    Build(a.steps + b.steps, a.scopes + b.scopes, status)
  }

  lemma BothUploaded(b1: Build)
    requires b1 == Next(Build([], [], map[]), OVERLAPPING[0])
    ensures Enabled(Build([], [], map[]), OVERLAPPING[0]) && Enabled(b1, OVERLAPPING[1])
    ensures Next(b1, OVERLAPPING[1]) == Two(map[])
  {
    hide Coherent, OneMember, StepKeys;
    var a, b := OneMember("a1", "a2", "a3"), OneMember("b1", "b2", "b3");
    NoKeys();
    Accepted(Build([], [], map[]), "a1", "a2", "a3", {});
    assert b1 == Build(a.steps, a.scopes, map[]);
    OneMemberIsCoherent("a1", "a2", "a3");
    Accepted(b1, "b1", "b2", "b3", {"a1", "a2", "a3"});
  }

  lemma NoKeys()
    ensures StepKeys([]) == {}
  {
  }

  lemma Accepted(b: Build, o: string, c: string, m: string, taken: set<string>)
    requires o != c && c != m && m != o && StepKeys(b.steps) == taken && {o, c, m} !! taken
    ensures Acceptable(b, OneMember(o, c, m))
  {
    hide Coherent, OneMember, StepKeys;
    OneMemberIsCoherent(o, c, m);
    Resolves(OneMember(o, c, m), o, c, m);
  }

  lemma Resolves(u: Upload, o: string, c: string, m: string)
    requires u == OneMember(o, c, m) && StepKeys(u.steps) == {o, c, m}
    ensures forall i, d :: 0 <= i < |u.steps| && d in u.steps[i].needs ==> d.step in StepKeys(u.steps)
  {
  }

  lemma TwoSteps(status: map<string, Status>)
    ensures var s := Two(status).steps;
            && |s| == 6 && s[0] == Step("a1", "g", []) && s[1].key == "a2" && s[2].group == "" &&
              s[3] == Step("b1", "g", [])
  {
  }

  /** The exception is real: once a closing step is canceled, the next scope may be entered. */
  lemma CanceledCloseLetsScopesOverlap() returns (run: seq<Build>, s: Scope, t: Scope)
    ensures IsRun(run, OVERLAPPING)
    ensures Occupied(run[7], s) && Occupied(run[7], t) && s.group == t.group && s.open != t.open
  {
    hide Acceptable, Enabled, Next, Two, Occupied;
    var b1 := Next(Build([], [], map[]), OVERLAPPING[0]);
    BothUploaded(b1);
    var m3 := map["a1" := Running];
    var m4 := map["a1" := Passed];
    var m5 := m4["a2" := Canceled];
    var m6 := m5["b1" := Running];
    var m7 := m5["b1" := Passed];
    EarlyMoves(m3, m4, m5);
    LateMoves(m4, m5, m6, m7);
    run := [Build([], [], map[]), b1, Two(map[]), Two(m3), Two(m4), Two(m5), Two(m6), Two(m7)];
    s, t := OneMember("a1", "a2", "a3").scopes[0], OneMember("b1", "b2", "b3").scopes[0];
    BothOccupied(m7, s, t);
  }

  lemma BothOccupied(m7: map<string, Status>, s: Scope, t: Scope)
    requires m7 == map["a1" := Passed]["a2" := Canceled]["b1" := Passed]
    requires s == OneMember("a1", "a2", "a3").scopes[0] && t == OneMember("b1", "b2", "b3").scopes[0]
    ensures Occupied(Two(m7), s) && Occupied(Two(m7), t)
  {
    var b := Two(m7);
    assert s in b.scopes && t in b.scopes && "a3" in s.members && "b3" in t.members;
    assert !Settled(b, "a3") && !Settled(b, "b3");
  }

  lemma EarlyMoves(m3: map<string, Status>, m4: map<string, Status>, m5: map<string, Status>)
    requires m3 == map["a1" := Running] && m4 == map["a1" := Passed] && m5 == m4["a2" := Canceled]
    ensures Enabled(Two(map[]), Start(0)) && Next(Two(map[]), Start(0)) == Two(m3)
    ensures Enabled(Two(m3), Finish(0, true)) && Next(Two(m3), Finish(0, true)) == Two(m4)
    ensures Enabled(Two(m4), Cancel(1)) && Next(Two(m4), Cancel(1)) == Two(m5)
  {
    hide Two, Acceptable;
    TwoSteps(map[]);
    TwoSteps(m3);
    TwoSteps(m4);
    OnlyStatusMoves(map[], m3);
    OnlyStatusMoves(m3, m4);
    OnlyStatusMoves(m4, m5);
    assert map["a1" := Running]["a1" := Passed] == m4;
  }

  lemma OnlyStatusMoves(m: map<string, Status>, n: map<string, Status>)
    ensures Two(m).(status := n) == Two(n) && Two(m).status == m
  {
  }

  lemma LateMoves(m4: map<string, Status>, m5: map<string, Status>, m6: map<string, Status>, m7: map<string, Status>)
    requires m4 == map["a1" := Passed] && m5 == m4["a2" := Canceled] && m6 == m5["b1" := Running]
    requires m7 == m5["b1" := Passed]
    ensures Enabled(Two(m5), Start(3)) && Next(Two(m5), Start(3)) == Two(m6)
    ensures Enabled(Two(m6), Finish(3, true)) && Next(Two(m6), Finish(3, true)) == Two(m7)
  {
    hide Two, Acceptable;
    TwoSteps(m5);
    TwoSteps(m6);
    OnlyStatusMoves(m5, m6);
    OnlyStatusMoves(m6, m7);
    assert m6["b1" := Passed] == m7;
    assert Settled(Two(m5), Two(m5).steps[0].key) && Settled(Two(m5), Two(m5).steps[1].key);
  }
}
