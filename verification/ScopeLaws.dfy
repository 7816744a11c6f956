/** The scopes that are laid over emitted steps are those the author named, and what they mean in a run. */
module ScopeLaws {
  import opened Pipelines
  import opened Uploads
  import opened JobOrder
  import opened GatePreparation
  import opened StepNeeds
  import opened EmittedSteps
  import opened GateKeys
  import opened Emit
  import opened Coherence
  import StepLaws
  import Scheduler

  // ----- keys of gates -----

  predicate NoNul(s: string) {
    '\0' !in s
  }

  /** The text after the last NUL can be read back. */
  lemma LastPart(a: string, b: string, x: string, y: string)
    requires a + "\0" + x == b + "\0" + y && NoNul(x) && NoNul(y)
    ensures a == b && x == y
  {
    var s := a + "\0" + x;
    assert s == b + "\0" + y && s[|a|] == '\0' && s[|b|] == '\0';
    assert forall i :: |a| < i < |s| ==> s[i] == x[i - |a| - 1];
    assert forall i :: |b| < i < |s| ==> s[i] == y[i - |b| - 1];
    assert |a| == |b|;
    assert a == s[..|a|] == b && x == s[|a| + 1..] == y;
  }

  function Tagged(id: string): string {
    if id == "" then "" else "\0" + id
  }

  lemma TagsDiffer(p: string, a: string, b: string)
    requires p + Tagged(a) == p + Tagged(b)
    ensures a == b
  {
    assert Tagged(a) == (p + Tagged(a))[|p|..] == Tagged(b);
    if a != "" && b != "" { assert a == Tagged(a)[1..] && b == Tagged(b)[1..]; }
  }

  /** What is hashed for the keys of a gate tells its group, its ID (none for the workflow's own gate) and, in an
      aggregate, its workflow. */
  lemma HashedTextsDiffer(c: Context, k: string, id: string, group: string, l: string, other: string, held: string)
    requires NoNul(k) && NoNul(l) && NoNul(id) && NoNul(other) && NoNul(group) && NoNul(held)
    requires GateNamespace(c, k, id) + "\0" + group == GateNamespace(c, l, other) + "\0" + held
    ensures group == held && id == other && (c.aggregate ==> k == l)
  {
    hide GateNamespace, Tagged, NoNul;
    LastPart(GateNamespace(c, k, id), GateNamespace(c, l, other), group, held);
    NamespaceIs(c, k, id);
    NamespaceIs(c, l, other);
    if c.aggregate { LastPart(c.compilerStep + Tagged(id), c.compilerStep + Tagged(other), k, l); }
    TagsDiffer(c.compilerStep, id, other);
  }

  lemma NamespaceIs(c: Context, k: string, id: string)
    ensures var tagged := c.compilerStep + Tagged(id);
            GateNamespace(c, k, id) == if c.aggregate then tagged + "\0" + k else tagged
  {
    var tagged := c.compilerStep + Tagged(id);
    if c.aggregate { assert tagged + ("\0" + k) == tagged + "\0" + k; }
  }

  // ----- the scopes are the authored ones -----

  /** The scope of the gate q as the job i names it at place x: the gate's keys, the group it was given, all jobs that
      name it, and around it the gate named before it, or else the workflow's own gate. */
  ghost predicate IsNamedScope(w: PreparedWorkflow, i: Job, x: nat, q: PreparedGate, s: Scope)
    requires x < |i.gates|
  {
    && q in w.gates && q.id == i.gates[x].id
    && s.open == q.openKey && s.close == q.closeKey && s.group == i.gates[x].group
    && (forall k :: k in s.members <==> exists j :: j in w.jobs && j.key == k && Names(j, q.id))
    && if x > 0 then
         exists r :: r in w.gates && r.id == i.gates[x - 1].id && s.parent == Inside(r.openKey, r.closeKey)
       else
         s.parent == if w.gate.Some? then Inside(w.gateOpenKey, w.gateCloseKey) else Outermost
  }

  predicate Names(j: Job, id: string) {
    exists x :: 0 <= x < |j.gates| && j.gates[x].id == id
  }

  /** The scope of the workflow's own gate: its members are the jobs that run something. */
  ghost predicate IsOwnScope(w: PreparedWorkflow, s: Scope) {
    && w.gate.Some?
    && s.open == w.gateOpenKey && s.close == w.gateCloseKey && s.group == w.gate.value.group && s.parent == Outermost
    && forall k :: k in s.members <==> exists j :: j in w.jobs && j.key == k && !j.failure && j.skipReason == ""
  }

  lemma {:induction false} DeclaredBy(jobs: seq<Job>, d: Declaration)
    requires d in Declarations(jobs)
    ensures exists j :: j in jobs && j.key == d.job && Names(j, d.gate.id)
  {
    hide Names;
    var last := |jobs| - 1;
    if d in Of(jobs[last]) {
      NamesOwn(jobs[last], d);
      assert jobs[last] in jobs;
    } else {
      DeclaredBy(jobs[..last], d);
      var j :| j in jobs[..last] && j.key == d.job && Names(j, d.gate.id);
      assert j in jobs;
    }
  }

  lemma NamesOwn(j: Job, d: Declaration)
    requires d in Of(j)
    ensures j.key == d.job && Names(j, d.gate.id)
  {
    var x :| 0 <= x < |Of(j)| && Of(j)[x] == d;
    assert j.gates[x].id == d.gate.id;
  }

  /** The members of a gate are the jobs that name it. */
  lemma MembersNameIt(jobs: seq<Job>, id: string)
    ensures forall k :: k in MemberKeys(Declarations(jobs), id) <==>
              exists j :: j in jobs && j.key == k && Names(j, id)
  {
    hide Names, MemberKeys, Declarations, Of;
    var ds := Declarations(jobs);
    forall k | k in MemberKeys(ds, id) ensures exists j :: j in jobs && j.key == k && Names(j, id) {
      MemberDeclares(ds, id, k);
      var d :| d in ds && d.job == k && d.gate.id == id;
      DeclaredBy(jobs, d);
    }
    forall j | j in jobs && Names(j, id) ensures j.key in MemberKeys(ds, id) {
      NamerIsMember(jobs, j, id);
    }
  }

  lemma NamerIsMember(jobs: seq<Job>, j: Job, id: string)
    requires j in jobs && Names(j, id)
    ensures j.key in MemberKeys(Declarations(jobs), id)
  {
    hide MemberKeys, Declarations, Of;
    var n :| 0 <= n < |jobs| && jobs[n] == j;
    var x :| 0 <= x < |j.gates| && j.gates[x].id == id;
    DeclarationOf(jobs, n, x);
    OfGate(j, x);
    DeclarerIsMember(Declarations(jobs), Of(j)[x]);
  }

  lemma {:induction false} GateScopeIn(w: PreparedWorkflow, indexes: map<string, nat>, n: nat, x: nat)
    requires Indexed(w.gates, indexes) && ParentsPrecede(w.gates, indexes) && x < n <= |w.gates|
    ensures GateScope(w, indexes, x) in GateScopes(w, indexes, n)
  {
    hide GateScope, Indexed, ParentsPrecede;
    if x < n - 1 { GateScopeIn(w, indexes, n - 1, x); }
  }

  /** Every gate that a job names is laid over the steps as a scope. */
  lemma NamedIsLaid(w: PreparedWorkflow, indexes: map<string, nat>, n: nat, x: nat) returns (q: PreparedGate, s: Scope)
    requires Collected(Declarations(w.jobs), w.gates, indexes) && Consistent(Declarations(w.jobs)) && !Dropped(w)
    requires n < |w.jobs| && x < |w.jobs[n].gates|
    ensures Indexed(w.gates, indexes) && ParentsPrecede(w.gates, indexes)
    ensures s in Scopes(w, indexes) && IsNamedScope(w, w.jobs[n], x, q, s)
    ensures w.jobs[n].gates[x].id in indexes && s == GateScope(w, indexes, indexes[w.jobs[n].gates[x].id])
  {
    hide Consistent, Declarations, Of, MemberKeys, FirstQueue, FirstDeclared, Names;
    var i := w.jobs[n];
    CollectedParts(Declarations(w.jobs), w.gates, indexes);
    GateOf(w.jobs, w.gates, indexes, n, x);
    OfGate(i, x);
    var y := indexes[i.gates[x].id];
    q, s := w.gates[y], GateScope(w, indexes, y);
    GateScopeIn(w, indexes, |w.gates|, y);
    MembersNameIt(w.jobs, q.id);
    if x > 0 { AroundIs(w, indexes, n, x); }
  }

  /** The scope around is that of the gate the job names before. */
  lemma AroundIs(w: PreparedWorkflow, indexes: map<string, nat>, n: nat, x: nat)
    requires Collected(Declarations(w.jobs), w.gates, indexes) && Consistent(Declarations(w.jobs))
    requires n < |w.jobs| && 0 < x < |w.jobs[n].gates|
    ensures Indexed(w.gates, indexes) && ParentsPrecede(w.gates, indexes)
    ensures w.jobs[n].gates[x].id in indexes && w.jobs[n].gates[x - 1].id in indexes
    ensures var r := w.gates[indexes[w.jobs[n].gates[x - 1].id]];
            && r.id == w.jobs[n].gates[x - 1].id
            && ParentOf(w, indexes, indexes[w.jobs[n].gates[x].id]) == Inside(r.openKey, r.closeKey)
  {
    hide Consistent, Declarations, Of, MemberKeys, FirstQueue, FirstDeclared;
    CollectedParts(Declarations(w.jobs), w.gates, indexes);
    GateOf(w.jobs, w.gates, indexes, n, x);
    GateOf(w.jobs, w.gates, indexes, n, x - 1);
    OfGate(w.jobs[n], x);
    OfGate(w.jobs[n], x - 1);
    DeclarationOf(w.jobs, n, x - 1);
    NamedScopesAreNotEmpty(Declarations(w.jobs), Of(w.jobs[n])[x - 1]);
  }

  lemma OwnIsLaid(w: PreparedWorkflow, indexes: map<string, nat>) returns (s: Scope)
    requires Indexed(w.gates, indexes) && ParentsPrecede(w.gates, indexes) && !Dropped(w) && w.gate.Some?
    ensures s in Scopes(w, indexes) && IsOwnScope(w, s)
  {
    RunnableExactly(w.jobs);
    s := WorkflowScope(w)[0];
  }

  /** No other scope is laid over the steps. */
  lemma ScopesAreAuthored(w: PreparedWorkflow, indexes: map<string, nat>, s: Scope)
    requires Collected(Declarations(w.jobs), w.gates, indexes) && Consistent(Declarations(w.jobs))
    requires Indexed(w.gates, indexes) && ParentsPrecede(w.gates, indexes) && s in Scopes(w, indexes)
    ensures IsOwnScope(w, s) || exists n, x, q ::
              0 <= n < |w.jobs| && 0 <= x < |w.jobs[n].gates| && IsNamedScope(w, w.jobs[n], x, q, s)
  {
    hide Consistent, Declarations, Of, MemberKeys, FirstQueue, FirstDeclared, Names, IsOwnScope, IsNamedScope,
      GateScope, ParentsPrecede;
    if s in WorkflowScope(w) {
      OwnScopeIs(w, s);
    } else {
      var y := GateScopesAre(w, indexes, |w.gates|, s);
      assert w.gates[y].id in indexes && w.gates[y].id in DeclaredIds(Declarations(w.jobs));
      var d :| d in Declarations(w.jobs) && d.gate.id == w.gates[y].id;
      DeclaredBy(w.jobs, d);
      var j :| j in w.jobs && j.key == d.job && Names(j, d.gate.id);
      var n :| 0 <= n < |w.jobs| && w.jobs[n] == j;
      var x := PlaceNamed(j, d.gate.id);
      var q, t := NamedIsLaid(w, indexes, n, x);
      assert t == s;
      assert IsNamedScope(w, w.jobs[n], x, q, s);
    }
  }

  lemma OwnScopeIs(w: PreparedWorkflow, s: Scope)
    requires s in WorkflowScope(w)
    ensures IsOwnScope(w, s)
  {
    RunnableExactly(w.jobs);
  }

  lemma PlaceNamed(j: Job, id: string) returns (x: nat)
    requires Names(j, id)
    ensures x < |j.gates| && j.gates[x].id == id
  {
    x :| 0 <= x < |j.gates| && j.gates[x].id == id;
  }

  // ----- runs -----

  lemma {:induction false} ScopeIsUploaded(ws: seq<PreparedWorkflow>, compilerStep: string,
                                           indexes: seq<map<string, nat>>, k: nat, s: Scope)
    requires AllReady(ws, compilerStep, indexes) && k < |ws| && s in Scopes(ws[k], indexes[k])
    ensures s in AllScopes(ws, compilerStep, indexes)
  {
    hide WellPrepared, Indexed, ParentsPrecede, Scopes;
    var last := |ws| - 1;
    if k < last { ScopeIsUploaded(ws[..last], compilerStep, indexes[..last], k, s); }
  }

  /** The gate that an authored job names at place x is uploaded as a scope that has the job as a member. */
  lemma AuthoredScope(c: Context, all: seq<Workflow>, ws: seq<PreparedWorkflow>, indexes: seq<map<string, nat>>,
                      k: nat, i: Job, x: nat) returns (q: PreparedGate, s: Scope)
    requires PreparedPrefix(c, all, ws, indexes) && AllReady(ws, c.compilerStep, indexes)
    requires k < |ws| && i in all[k].jobs && x < |i.gates|
    requires !ws[k].failure && !(ws[k].skipReason != "" && ws[k].aggregate)
    ensures s in AllScopes(ws, c.compilerStep, indexes) && IsNamedScope(ws[k], i, x, q, s) && i.key in s.members
  {
    hide PreparedFrom, GatesReady, WellPrepared, AllDigests, Collected, Consistent, Scopes;
    var w := ws[k];
    var m := StepLaws.PreparedJob(c, all[k], w, i);
    ReadyParts(w, indexes[k]);
    q, s := NamedIsLaid(w, indexes[k], m, x);
    ScopeIsUploaded(ws, c.compilerStep, indexes, k, s);
    assert w.jobs[m] in w.jobs && Names(w.jobs[m], q.id);
  }

  lemma ReadyParts(p: PreparedWorkflow, indexes: map<string, nat>)
    requires GatesReady(p, indexes)
    ensures Collected(Declarations(p.jobs), p.gates, indexes) && Consistent(Declarations(p.jobs))
  {
    hide Collected, Consistent;
  }

  lemma {:induction false} ScopesStay(run: seq<Scheduler.Build>, events: seq<Scheduler.Event>, m: nat, n: nat)
    requires Scheduler.IsRun(run, events) && m <= n < |run|
    ensures run[m].scopes <= run[n].scopes
    decreases n
  {
    hide Scheduler.Enabled;
    if m < n { ScopesStay(run, events, m, n - 1); }
  }

  lemma UploadedStays(run: seq<Scheduler.Build>, events: seq<Scheduler.Event>, m: nat, n: nat, s: Scope)
    requires Scheduler.IsRun(run, events) && m < n < |run| && events[m].Append? && s in events[m].upload.scopes
    ensures s in run[n].scopes
  {
    hide Scheduler.Enabled;
    ScopesStay(run, events, m + 1, n);
    assert run[m + 1] == Scheduler.Next(run[m], events[m]);
    assert s in run[m + 1].scopes;
  }

  /** In every run to which an accepted pipeline was uploaded: while an authored job runs, each gate it names is open:
      its opening step has passed, and its closing step has not run. */
  lemma JobRunsInside(run: seq<Scheduler.Build>, events: seq<Scheduler.Event>, m: nat, n: nat, c: Context,
                      all: seq<Workflow>, ws: seq<PreparedWorkflow>, indexes: seq<map<string, nat>>,
                      k: nat, i: Job, x: nat) returns (q: PreparedGate)
    requires Scheduler.IsRun(run, events) && m < n < |run|
    requires PreparedPrefix(c, all, ws, indexes) && AllReady(ws, c.compilerStep, indexes)
    requires events[m] == Scheduler.Append(UploadOf(c, ws, indexes))
    requires k < |ws| && i in all[k].jobs && x < |i.gates|
    requires !ws[k].failure && !(ws[k].skipReason != "" && ws[k].aggregate)
    requires Scheduler.StatusOf(run[n], i.key).Running?
    ensures q in ws[k].gates && q.id == i.gates[x].id && Scheduler.StatusOf(run[n], q.openKey).Passed?
    ensures Scheduler.StatusOf(run[n], q.closeKey).Waiting? || Scheduler.StatusOf(run[n], q.closeKey).Canceled?
  {
    hide PreparedPrefix, AllReady, Scheduler.IsRun;
    var s;
    q, s := AuthoredScope(c, all, ws, indexes, k, i, x);
    UploadedStays(run, events, m, n, s);
    Scheduler.MembersRunInside(run, events, n, s, i.key);
    Scheduler.OccupiedIsThere(run[n], s);
  }

  /** Two authored jobs whose gates use one group run at the same time only if the gate is the same one or the closing
      step of one of the two gates was canceled. */
  lemma JobsExclude(run: seq<Scheduler.Build>, events: seq<Scheduler.Event>, m: nat, n: nat, c: Context,
                    all: seq<Workflow>, ws: seq<PreparedWorkflow>, indexes: seq<map<string, nat>>,
                    k: nat, i: Job, x: nat, l: nat, j: Job, y: nat) returns (q: PreparedGate, r: PreparedGate)
    requires Scheduler.IsRun(run, events) && m < n < |run|
    requires PreparedPrefix(c, all, ws, indexes) && AllReady(ws, c.compilerStep, indexes)
    requires events[m] == Scheduler.Append(UploadOf(c, ws, indexes))
    requires k < |ws| && i in all[k].jobs && x < |i.gates| && l < |ws| && j in all[l].jobs && y < |j.gates|
    requires !ws[k].failure && !(ws[k].skipReason != "" && ws[k].aggregate)
    requires !ws[l].failure && !(ws[l].skipReason != "" && ws[l].aggregate)
    requires i.gates[x].group == j.gates[y].group
    requires Scheduler.StatusOf(run[n], i.key).Running? && Scheduler.StatusOf(run[n], j.key).Running?
    ensures q in ws[k].gates && q.id == i.gates[x].id && r in ws[l].gates && r.id == j.gates[y].id
    ensures q.openKey == r.openKey || Scheduler.StatusOf(run[n], q.closeKey).Canceled? ||
            Scheduler.StatusOf(run[n], r.closeKey).Canceled?
  {
    hide PreparedPrefix, AllReady, Scheduler.IsRun, Scheduler.Occupied;
    var s, t;
    q, s := AuthoredScope(c, all, ws, indexes, k, i, x);
    r, t := AuthoredScope(c, all, ws, indexes, l, j, y);
    UploadedStays(run, events, m, n, s);
    UploadedStays(run, events, m, n, t);
    Scheduler.MembersRunInside(run, events, n, s, i.key);
    Scheduler.MembersRunInside(run, events, n, t, j.key);
    if q.openKey != r.openKey { Scheduler.MutualExclusion(run, events, n, s, t); }
  }
}
