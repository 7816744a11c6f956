/** A pipeline upload as the scheduler sees it: steps with keys, ordered concurrency
    groups and dependencies, and the gate scopes laid over them. */
module Uploads {
  import opened Pipelines

  datatype Dependency = Dependency(step: string, allowFailure: bool)

  /** group "" is no group; members of a group queue in the order of the list. */
  datatype Step = Step(key: string, group: string, needs: seq<Dependency>)

  /** One gate: its opening and closing step, the keys that run inside, and the scope around it. */
  datatype Scope = Scope(open: string, close: string, group: string, members: seq<string>, parent: Enclosing)
  datatype Enclosing = Outermost | Inside(open: string, close: string)

  ghost predicate Needs(step: Step, key: string) {
    exists d :: d in step.needs && d.step == key
  }

  predicate StrictlyNeeds(step: Step, key: string) {
    Dependency(key, false) in step.needs
  }

  ghost predicate DistinctSteps(steps: seq<Step>) {
    forall i, j :: 0 <= i < j < |steps| ==> steps[i].key != steps[j].key
  }

  ghost function StepKeys(steps: seq<Step>): set<string> {
    set s | s in steps :: s.key
  }

  /** i waits for j: by a dependency, or because j is ahead of it in its queue. */
  ghost predicate WaitsFor(steps: seq<Step>, i: nat, j: nat)
    requires i < |steps| && j < |steps|
  {
    Needs(steps[i], steps[j].key) || (j < i && steps[i].group != "" && steps[i].group == steps[j].group)
  }

  /** Ranks of the places in the list that fall from each step to all it waits for. */
  ghost predicate RanksSteps(steps: seq<Step>, rank: seq<nat>) {
    |rank| == |steps| &&
    forall i, j :: 0 <= i < |steps| && 0 <= j < |steps| && WaitsFor(steps, i, j) ==> rank[j] < rank[i]
  }

  ghost predicate Orderable(steps: seq<Step>) {
    exists rank :: RanksSteps(steps, rank)
  }

  /** The member waits for the opening step to pass, and the closing step for the member. */
  ghost predicate MemberHeld(steps: seq<Step>, o: nat, member: string)
    requires o + 1 < |steps|
  {
    Needs(steps[o + 1], member) && forall i :: 0 <= i < |steps| && steps[i].key == member ==>
      StrictlyNeeds(steps[i], steps[o].key)
  }

  /** The scope opens and closes at places o and o + 1 of the list. */
  ghost predicate ScopeAt(steps: seq<Step>, scope: Scope, o: nat) {
    && o + 1 < |steps|
    && steps[o].key == scope.open && steps[o + 1].key == scope.close
    && scope.group != "" && steps[o].group == scope.group && steps[o + 1].group == scope.group
    && (forall m :: m in scope.members ==> MemberHeld(steps, o, m))
    && (forall k :: StrictlyNeeds(steps[o + 1], k) ==> StrictlyNeeds(steps[o], k))
    && (scope.parent.Inside? ==> StrictlyNeeds(steps[o], scope.parent.open))
    && (scope.parent.Inside? ==>
          forall i :: 0 <= i < |steps| && steps[i].key == scope.parent.close ==> Needs(steps[i], scope.close))
  }

  ghost predicate HasScope(steps: seq<Step>, scope: Scope) {
    exists o: nat :: ScopeAt(steps, scope, o)
  }

  datatype Upload = Upload(steps: seq<Step>, scopes: seq<Scope>)

  /** What every upload that Emit writes satisfies. */
  ghost predicate Coherent(u: Upload) {
    && DistinctSteps(u.steps)
    && Orderable(u.steps)
    && (forall s :: s in u.scopes ==> HasScope(u.steps, s))
    && (forall s, m :: s in u.scopes && m in s.members ==> m in StepKeys(u.steps))
    && (forall s :: s in u.scopes && s.parent.Inside? ==> s.parent.close in StepKeys(u.steps))
  }

  // ----- steps added to steps -----

  lemma KeyOfMember(steps: seq<Step>, i: nat)
    requires i < |steps|
    ensures steps[i].key in StepKeys(steps)
  {
  }

  lemma OldScopeStays(built: seq<Step>, added: seq<Step>, s: Scope)
    requires HasScope(built, s) && StepKeys(added) !! StepKeys(built)
    requires forall m :: m in s.members ==> m in StepKeys(built)
    requires s.parent.Inside? ==> s.parent.close in StepKeys(built)
    ensures HasScope(built + added, s)
  {
    hide StepKeys;
    var o: nat :| ScopeAt(built, s, o);
    var all := built + added;
    assert all[o] == built[o] && all[o + 1] == built[o + 1];
    forall m | m in s.members ensures MemberHeld(all, o, m) {
      assert MemberHeld(built, o, m);
      forall i | 0 <= i < |all| && all[i].key == m ensures StrictlyNeeds(all[i], s.open) {
        if i < |built| { assert all[i] == built[i]; } else { KeyOfMember(added, i - |built|); }
      }
    }
    forall i | 0 <= i < |all| && s.parent.Inside? && all[i].key == s.parent.close ensures Needs(all[i], s.close) {
      if i < |built| { assert all[i] == built[i]; } else { KeyOfMember(added, i - |built|); }
    }
    assert ScopeAt(all, s, o);
  }

  lemma NewScopeArrives(built: seq<Step>, added: seq<Step>, s: Scope)
    requires HasScope(added, s) && StepKeys(added) !! StepKeys(built)
    requires forall m :: m in s.members ==> m in StepKeys(added)
    requires s.parent.Inside? ==> s.parent.close in StepKeys(added)
    ensures HasScope(built + added, s)
  {
    hide StepKeys;
    var at: nat :| ScopeAt(added, s, at);
    var all, o := built + added, |built| + at;
    assert all[o] == added[at] && all[o + 1] == added[at + 1];
    forall m | m in s.members ensures MemberHeld(all, o, m) {
      assert MemberHeld(added, at, m);
      forall i | 0 <= i < |all| && all[i].key == m ensures StrictlyNeeds(all[i], s.open) {
        if i < |built| { KeyOfMember(built, i); } else { assert all[i] == added[i - |built|]; }
      }
    }
    forall i | 0 <= i < |all| && s.parent.Inside? && all[i].key == s.parent.close ensures Needs(all[i], s.close) {
      if i < |built| { KeyOfMember(built, i); } else { assert all[i] == added[i - |built|]; }
    }
    assert ScopeAt(all, s, o);
  }

  lemma AllKeys(built: seq<Step>, added: seq<Step>)
    ensures StepKeys(built + added) == StepKeys(built) + StepKeys(added)
  {
  }
}
