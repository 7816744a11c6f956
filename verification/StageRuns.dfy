/** What holds over all stages of a workflow: each planned step is uploaded once, components stay
    apart, budgets are kept, and every deferred job is handled in the end. */
module StageRuns {
  import opened Pipelines
  import opened Claims
  import opened StageRecords
  import opened StageChain

  function BuiltKeys(b: Bundle): seq<string> {
    GraphKeys(Entries(b.built))
  }

  function KeysOfBuilt(xs: seq<Built>): (keys: seq<string>)
    ensures |keys| == |xs| && forall i :: 0 <= i < |xs| ==> keys[i] == xs[i].entry.key
  {
    seq(|xs|, i requires 0 <= i < |xs| => xs[i].entry.key)
  }

  // ----- the next graph is the recorded graph and the new jobs -----

  lemma {:induction false} KeysWithAre(r: Record, b: Bundle, xs: seq<Built>, fate: Fate)
    ensures forall k :: k in KeysWith(r, b, xs, fate) <==> HasFate(r, b, xs, fate, k)
    ensures Distinct(KeysOfBuilt(xs)) ==> Distinct(KeysWith(r, b, xs, fate))
  {
    hide FateOf, Distinct;
    if xs != [] {
      var front, last := xs[..|xs| - 1], xs[|xs| - 1];
      KeysWithAre(r, b, front, fate);
      assert xs == front + [last];
      assert KeysOfBuilt(xs) == KeysOfBuilt(front) + [last.entry.key];
      DistinctEnds(KeysOfBuilt(front), last.entry.key);
      forall k | HasFate(r, b, xs, fate, k) ensures k in KeysWith(r, b, xs, fate) {
        var x :| x in xs && x.entry.key == k && FateOf(r, b, x) == fate;
        if x in front { assert HasFate(r, b, front, fate, k); }
      }
      forall k | k in KeysWith(r, b, xs, fate) ensures HasFate(r, b, xs, fate, k) {
        if k in KeysWith(r, b, front, fate) {
          var x :| x in front && x.entry.key == k && FateOf(r, b, x) == fate;
          assert x in xs;
        } else {
          assert last in xs;
        }
      }
      var kept := KeysWith(r, b, front, fate);
      if last.entry.key in kept {
        var x :| x in front && x.entry.key == last.entry.key && FateOf(r, b, x) == fate;
        KeyListed(front, x);
      }
      DistinctEnds(kept, last.entry.key);
      assert kept + [] == kept;
    } else {
      NothingRepeats();
    }
  }

  lemma NothingRepeats()
    ensures Distinct<string>([])
  {
  }

  lemma DistinctEnds(s: seq<string>, x: string)
    ensures Distinct(s + [x]) <==> Distinct(s) && x !in s
  {
    var all := s + [x];
    if Distinct(all) {
      forall i, j | 0 <= i < j < |s| ensures s[i] != s[j] { assert all[i] != all[j]; }
      forall i | 0 <= i < |s| ensures s[i] != x { assert all[i] != all[|s|]; }
    }
  }

  ghost predicate HasFate(r: Record, b: Bundle, xs: seq<Built>, fate: Fate, key: string) {
    exists x :: x in xs && x.entry.key == key && FateOf(r, b, x) == fate
  }

  lemma {:induction false} NewJobsAre(r: Record, b: Bundle, xs: seq<Built>)
    ensures forall x :: x in NewJobs(r, b, xs) <==> x in xs && FateOf(r, b, x).New?
    ensures KeysOfBuilt(NewJobs(r, b, xs)) == KeysWith(r, b, xs, New)
  {
    hide FateOf;
    if xs != [] {
      var front, last := xs[..|xs| - 1], xs[|xs| - 1];
      NewJobsAre(r, b, front);
      assert xs == front + [last];
    }
  }

  /** Every recorded job comes back, with the same job, plan and dependencies. */
  lemma AllReproduced(r: Record, b: Bundle)
    requires EntriesOk(r, b) && Distinct(BuiltKeys(b))
    ensures forall k :: k in GraphKeys(r.graph) ==> HasFate(r, b, b.built, Reproduced, k)
  {
    hide FateOf, Recorded;
    RecordedEntries(r.graph);
    assert KeysOfBuilt(b.built) == BuiltKeys(b);
    KeysWithAre(r, b, b.built, Reproduced);
    var keys := KeysWith(r, b, b.built, Reproduced);
    DistinctSize(keys);
    forall k | k in KeysIn(keys) ensures k in Recorded(r.graph).Keys {
      ReproducedIsRecorded(r, b, k);
    }
    assert |Recorded(r.graph).Keys| == |Recorded(r.graph)|;
    SameSizeSame(KeysIn(keys), Recorded(r.graph).Keys);
  }

  lemma ReproducedIsRecorded(r: Record, b: Bundle, k: string)
    requires HasFate(r, b, b.built, Reproduced, k)
    ensures k in Recorded(r.graph)
  {
  }

  lemma NewIsNotRecorded(r: Record, b: Bundle, x: Built)
    requires !r.Importer() || r.graph == []
    requires FateOf(r, b, x).New?
    ensures x.entry.key !in Recorded(r.graph)
    ensures !r.Importer() ==> x.entry.logicalJob in r.continuation.jobs
  {
  }

  /** The graph handed down is exactly what was recorded and what this stage adds. */
  lemma NextGraphIsExact(r: Record, b: Bundle)
    requires EntriesOk(r, b) && Distinct(BuiltKeys(b)) && (r.Importer() ==> r.graph == [])
    ensures KeysIn(BuiltKeys(b)) == KeysIn(GraphKeys(r.graph)) + KeysIn(KeysOfBuilt(NewJobs(r, b, b.built)))
    ensures KeysIn(GraphKeys(r.graph)) !! KeysIn(KeysOfBuilt(NewJobs(r, b, b.built)))
    ensures Distinct(KeysOfBuilt(NewJobs(r, b, b.built)))
  {
    hide FateOf, Recorded, Distinct;
    AllReproduced(r, b);
    assert KeysOfBuilt(b.built) == BuiltKeys(b);
    KeysWithAre(r, b, b.built, New);
    NewJobsAre(r, b, b.built);
    RecordedEntries(r.graph);
    forall k | k in KeysWith(r, b, b.built, New) ensures k !in GraphKeys(r.graph) && k in BuiltKeys(b) {
      var x :| x in b.built && x.entry.key == k && FateOf(r, b, x).New?;
      NewIsNotRecorded(r, b, x);
      KeyListed(b.built, x);
    }
    forall k | k in GraphKeys(r.graph) ensures k in BuiltKeys(b) {
      var x :| x in b.built && x.entry.key == k && FateOf(r, b, x).Reproduced?;
      KeyListed(b.built, x);
    }
    forall k | k in BuiltKeys(b) ensures k in GraphKeys(r.graph) || k in KeysWith(r, b, b.built, New) {
      var i :| 0 <= i < |b.built| && b.built[i].entry.key == k;
      assert b.built[i] in b.built;
      if FateOf(r, b, b.built[i]).Reproduced? {
        assert HasFate(r, b, b.built, Reproduced, k);
        ReproducedIsRecorded(r, b, k);
      } else {
        assert HasFate(r, b, b.built, New, k);
      }
    }
  }

  lemma KeyListed(xs: seq<Built>, x: Built)
    requires x in xs
    ensures x.entry.key in KeysOfBuilt(xs)
  {
    var i :| 0 <= i < |xs| && xs[i] == x;
    assert KeysOfBuilt(xs)[i] == x.entry.key;
  }

  // ----- the other components are handed down unchanged -----

  ghost predicate DistinctStepKeys(cs: seq<Continuation>) {
    forall i, j :: 0 <= i < j < |cs| ==> cs[i].stepKey != cs[j].stepKey
  }

  function StepKeysOf(cs: seq<Continuation>): set<string> {
    set c | c in cs :: c.stepKey
  }

  function Members(cs: seq<Continuation>): set<Continuation> {
    set c | c in cs
  }

  /** No two different continuations with one step key. */
  ghost predicate OneEach(s: set<Continuation>) {
    forall c, d :: c in s && d in s && c.stepKey == d.stepKey ==> c == d
  }

  lemma {:induction false} OtherStepsAre(others: seq<Continuation>)
    ensures OtherSteps(others).Keys == StepKeysOf(others)
    ensures forall k :: k in OtherSteps(others) ==>
        OtherSteps(others)[k] in others && OtherSteps(others)[k].stepKey == k
  {
    if others != [] {
      var front, last := others[..|others| - 1], others[|others| - 1];
      OtherStepsAre(front);
      assert others == front + [last];
    }
  }

  /** What matching has established after the continuations cs of a later stage's bundle. */
  ghost predicate MatchedSoFar(r: Record, cs: seq<Continuation>, m: Matching) {
    var others := OtherSteps(r.others);
    && m.Matching?
    && m.left == others - StepKeysOf(cs)
    && (forall c :: c in cs && c.stepKey in others ==> others[c.stepKey] == c)
    && |m.next| <= 1
    && (forall c :: c in cs && c.stepKey !in others ==>
          m.next == [c.(locks := r.continuation.locks)] && c.first.job in r.continuation.later &&
            NextOk(r.continuation, c))
    && (m.next != [] ==> exists c :: c in cs && c.stepKey !in others && m.next[0] == c.(locks := r.continuation.locks))
  }

  lemma {:induction false} MatchedMeans(r: Record, cs: seq<Continuation>)
    requires !r.Importer() && Matched(r, cs).Matching? && DistinctStepKeys(cs)
    ensures MatchedSoFar(r, cs, Matched(r, cs))
  {
    hide NextOk, OtherSteps;
    if cs == [] {
      assert OtherSteps(r.others) - StepKeysOf(cs) == OtherSteps(r.others);
    } else {
      var front, c := cs[..|cs| - 1], cs[|cs| - 1];
      assert cs == front + [c];
      assert !Matched(r, front).Mismatch?;
      MatchedMeans(r, front);
      LastKeyIsNew(cs);
      MatchStep(r, front, c);
    }
  }

  lemma LastKeyIsNew(cs: seq<Continuation>)
    requires cs != [] && DistinctStepKeys(cs)
    ensures cs[|cs| - 1].stepKey !in StepKeysOf(cs[..|cs| - 1])
  {
  }

  lemma MatchStep(r: Record, front: seq<Continuation>, c: Continuation)
    requires !r.Importer() && MatchedSoFar(r, front, Matched(r, front)) && c.stepKey !in StepKeysOf(front)
    requires Match(r, Matched(r, front), c).Matching?
    ensures MatchedSoFar(r, front + [c], Match(r, Matched(r, front), c))
  {
    hide NextOk, OtherSteps, Matched;
    var others, m, t := OtherSteps(r.others), Matched(r, front), Match(r, Matched(r, front), c);
    assert StepKeysOf(front + [c]) == StepKeysOf(front) + {c.stepKey};
    assert others - StepKeysOf(front + [c]) == m.left - {c.stepKey};
    assert forall d :: d in front + [c] <==> d in front || d == c;
    if c.stepKey in others {
      assert c.stepKey in m.left;
      if m.next != [] {
        var d :| d in front && d.stepKey !in others && m.next[0] == d.(locks := r.continuation.locks);
        assert d in front + [c];
      }
    } else {
      assert m.left - {c.stepKey} == m.left;
      assert c in front + [c];
    }
  }

  lemma {:induction false} ExceptAre(cs: seq<Continuation>, stepKey: string)
    ensures forall c :: c in Except(cs, stepKey) <==> c in cs && c.stepKey != stepKey
  {
    if cs != [] {
      ExceptAre(cs[..|cs| - 1], stepKey);
      assert cs == cs[..|cs| - 1] + [cs[|cs| - 1]];
    }
  }

  /** A later stage leaves exactly the recorded other components to their own steps. */
  lemma OthersUnchanged(r: Record, b: Bundle, next: Continuation)
    requires !r.Importer() && ContinuationsOk(r, b) && DistinctStepKeys(b.continuations) && OneEach(Members(r.others))
    requires NextOf(r, b) == [next]
    ensures Members(Except(b.continuations, next.stepKey)) == Members(r.others)
  {
    hide NextOk, OtherSteps, Matched;
    MatchedMeans(r, b.continuations);
    OtherStepsAre(r.others);
    ExceptAre(b.continuations, next.stepKey);
    var others := OtherSteps(r.others);
    var raw :| raw in b.continuations && raw.stepKey !in others && next == raw.(locks := r.continuation.locks);
    forall c | c in Except(b.continuations, next.stepKey) ensures c in r.others {
      assert c.stepKey in others;
    }
    forall o | o in r.others ensures o in Except(b.continuations, next.stepKey) {
      assert o.stepKey in others && others[o.stepKey] == o;
      assert o.stepKey !in others - StepKeysOf(b.continuations);
      var c :| c in b.continuations && c.stepKey == o.stepKey;
    }
  }

  // ----- one stage after another -----

  lemma JobsApart(first: Continuation, others: seq<Continuation>, more: seq<string>)
    requires Distinct(JobsOf([first] + others) + more)
    ensures Distinct(first.jobs) && KeysIn(first.jobs) !! KeysIn(more)
    ensures forall o :: o in others ==> KeysIn(first.jobs) !! KeysIn(o.jobs)
  {
    hide Distinct, Fresh;
    var all := JobsOf([first] + others);
    FreshIsDistinct(all + more);
    FreshInTurn({}, all, more);
    FirstJobs(first, others);
    var rest :| all == first.jobs + rest && forall o :: o in others ==> KeysIn(o.jobs) <= KeysIn(rest);
    FreshInTurn({}, first.jobs, rest);
    FreshIsDistinct(first.jobs);
    FreshAvoids({} + KeysIn(first.jobs), rest);
    FreshAvoids({} + KeysIn(all), more);
  }

  lemma FreshAvoids(used: set<string>, keys: seq<string>)
    requires Fresh(used, keys)
    ensures used !! KeysIn(keys)
  {
  }

  lemma {:induction false} FirstJobs(first: Continuation, others: seq<Continuation>)
    ensures exists rest :: JobsOf([first] + others) == first.jobs + rest && forall o :: o in others ==>
        KeysIn(o.jobs) <= KeysIn(rest)
  {
    var all := [first] + others;
    if others == [] {
      assert all[..0] == [];
      assert JobsOf(all) == first.jobs + [];
    } else {
      var front, last := others[..|others| - 1], others[|others| - 1];
      FirstJobs(first, front);
      var rest :| JobsOf([first] + front) == first.jobs + rest && forall o :: o in front ==>
        KeysIn(o.jobs) <= KeysIn(rest);
      assert all[..|all| - 1] == [first] + front;
      assert others == front + [last];
      assert JobsOf(all) == first.jobs + (rest + last.jobs);
    }
  }

  /** An accepted next stage owns strictly fewer jobs: none that the parent does not, and no root of it. */
  lemma NextOwnsFewer(r: Record, b: Bundle, o: Outputs, stepKey: string -> string, child: Record)
    requires Decodes(r) && !r.Importer() && AdvanceOk(r, b, stepKey) && DistinctStepKeys(b.continuations)
    requires Advanced(r, b, o, stepKey).records == [child] && Decodes(child)
    ensures KeysIn(child.continuation.jobs) <= KeysIn(r.continuation.jobs) - KeysIn(RootJobs(r.continuation.Roots()))
    ensures |child.continuation.jobs| < |r.continuation.jobs|
  {
    hide EntriesOk, NewJobs, SkippedSteps, GatesAfter, ShapeOk, NextOf, UploadCount, Distinct;
    var next := Advanced(r, b, o, stepKey).next[0];
    NextIsPart(r, b, next);
    JobsApart(child.continuation, child.others, ResolvedJobs(child.resolved));
    JobsApart(r.continuation, r.others, ResolvedJobs(r.resolved));
    var roots := r.continuation.Roots();
    forall j | j in RootJobs(roots) ensures j in KeysIn(ResolvedJobs(child.resolved)) && j in r.continuation.jobs {
      var i :| 0 <= i < |roots| && roots[i].job == j;
      assert child.resolved[|r.resolved| + i].job == j;
      assert ResolvedJobs(child.resolved)[|r.resolved| + i] == j;
      RootIsOwned(r.continuation, i);
    }
    DistinctSize(child.continuation.jobs);
    DistinctSize(r.continuation.jobs);
    assert roots[0].job == RootJobs(roots)[0];
    assert KeysIn(child.continuation.jobs) <= KeysIn(r.continuation.jobs) - {roots[0].job};
    SubsetIsNoLarger(KeysIn(child.continuation.jobs), KeysIn(r.continuation.jobs) - {roots[0].job});
  }

  lemma RootIsOwned(c: Continuation, i: nat)
    requires ShapeOk(c) && i < |c.Roots()|
    ensures c.Roots()[i].job in c.jobs
  {
    assert RootOk(c, c.Roots()[i]);
  }

  lemma NextIsPart(r: Record, b: Bundle, next: Continuation)
    requires !r.Importer() && ContinuationsOk(r, b) && DistinctStepKeys(b.continuations) && next in NextOf(r, b)
    ensures KeysIn(next.jobs) <= KeysIn(r.continuation.jobs) && NextOf(r, b) == [next]
  {
    hide Matched, ShapeOk;
    MatchedMeans(r, b.continuations);
    var m := Matched(r, b.continuations);
    var raw :| raw in b.continuations && raw.stepKey !in OtherSteps(r.others) &&
      m.next[0] == raw.(locks := r.continuation.locks);
    assert NextOk(r.continuation, raw);
  }

  // ----- the stages of a build -----

  /** One component: what the importer started it with, its latest record, the jobs its stages
      compiled or skipped, the number of steps they uploaded, and how many stages have run. */
  datatype Component = Component(start: Continuation, live: Option<Record>, handled: set<string>, uploads: nat,
    stages: nat)

  datatype Build = Build(uploaded: seq<string>, components: seq<Component>)

  /** A compilation gives distinct keys, and a key tells which job it is an instance of. */
  ghost predicate Compilation(b: Bundle, logical: string -> string) {
    && Distinct(BuiltKeys(b)) && DistinctStepKeys(b.continuations)
    && forall x :: x in b.built ==> x.entry.logicalJob == logical(x.entry.key)
  }

  function Started(cs: seq<Continuation>, rs: seq<Record>): (components: seq<Component>)
    requires |cs| == |rs|
    ensures |components| == |cs| && forall i :: 0 <= i < |cs| ==>
        components[i] == Component(cs[i], Some(rs[i]), {}, 0, 0)
  {
    seq(|cs|, i requires 0 <= i < |cs| => Component(cs[i], Some(rs[i]), {}, 0, 0))
  }

  ghost predicate Starts(t: Build, r: Record, b: Bundle, o: Outputs, logical: string -> string,
                         stepKey: string -> string) {
    && r.Importer() && r.graph == [] && r.others == [] && r.resolved == [] && r.continuation.jobs == []
    && Compilation(b, logical) && AdvanceOk(r, b, stepKey)
    && t == Build(KeysOfBuilt(Advanced(r, b, o, stepKey).jobs),
      Started(Advanced(r, b, o, stepKey).next, Advanced(r, b, o, stepKey).records))
  }

  ghost function AfterStage(c: Component, r: Record, b: Bundle, o: Outputs, stepKey: string -> string): Component
    requires AdvanceOk(r, b, stepKey)
  {
    var a := Advanced(r, b, o, stepKey);
    Component(c.start, if a.records == [] then None else Some(a.records[0]),
              c.handled + LogicalJobs(a.jobs) + b.skippedJobs, c.uploads + |a.jobs| + |a.placeholders|, c.stages + 1)
  }

  /** The i-th component runs its next stage on some compilation that its checks accept. */
  ghost predicate Stage(t: Build, u: Build, i: nat, b: Bundle, o: Outputs, logical: string -> string,
                        stepKey: string -> string) {
    && i < |t.components| && t.components[i].live.Some?
    && var r := t.components[i].live.value;
       && Decodes(r) && Compilation(b, logical) && AdvanceOk(r, b, stepKey)
       && u == Build(t.uploaded + KeysOfBuilt(Advanced(r, b, o, stepKey).jobs),
                     t.components[i := AfterStage(t.components[i], r, b, o, stepKey)])
  }

  ghost predicate Step(t: Build, u: Build, logical: string -> string, stepKey: string -> string) {
    exists i, b, o :: Stage(t, u, i, b, o, logical, stepKey)
  }

  ghost predicate IsRun(run: seq<Build>, logical: string -> string, stepKey: string -> string) {
    && run != []
    && (exists r, b, o :: Starts(run[0], r, b, o, logical, stepKey))
    && forall n, m :: 0 <= n < m < |run| && m == n + 1 ==> Step(run[n], run[m], logical, stepKey)
  }

  // ----- the invariant -----

  function StartsOf(t: Build): (cs: seq<Continuation>)
    ensures |cs| == |t.components| && forall i :: 0 <= i < |cs| ==> cs[i] == t.components[i].start
  {
    seq(|t.components|, i requires 0 <= i < |t.components| => t.components[i].start)
  }

  function OthersThan(t: Build, i: nat): set<Continuation> {
    set j | 0 <= j < |t.components| && j != i :: t.components[j].start
  }

  /** Every uploaded key is in the recorded graph, or is not a job of this component. */
  ghost predicate Covers(r: Record, uploaded: seq<string>, logical: string -> string) {
    && (forall k :: k in GraphKeys(r.graph) ==> k in uploaded)
    && forall k :: k in uploaded ==> k in GraphKeys(r.graph) || logical(k) !in r.continuation.jobs
  }

  ghost predicate LiveFine(t: Build, i: nat, logical: string -> string)
    requires i < |t.components| && t.components[i].live.Some?
  {
    var c := t.components[i];
    var r := c.live.value;
    && Covers(r, t.uploaded, logical)
    && KeysIn(r.continuation.jobs) <= KeysIn(c.start.jobs) <= c.handled + KeysIn(r.continuation.jobs)
    && Members(r.others) == OthersThan(t, i)
    && c.uploads + r.continuation.jobBudget == c.start.jobBudget
    && c.stages <= |KeysIn(ResolvedJobs(r.resolved)) * KeysIn(c.start.jobs)|
  }

  ghost predicate ComponentFine(t: Build, i: nat, logical: string -> string)
    requires i < |t.components|
  {
    var c := t.components[i];
    if c.live.Some? then LiveFine(t, i, logical)
    else KeysIn(c.start.jobs) <= c.handled && c.uploads <= c.start.jobBudget && c.stages <= |KeysIn(c.start.jobs)|
  }

  ghost predicate Inv(t: Build, logical: string -> string) {
    && Distinct(t.uploaded)
    && DistinctStepKeys(StartsOf(t))
    && forall i :: 0 <= i < |t.components| ==> ComponentFine(t, i, logical)
  }

  // ----- the first stage -----

  lemma {:induction false} ImporterTakesAll(r: Record, cs: seq<Continuation>)
    requires r.Importer() && r.others == []
    ensures Matched(r, cs) == Matching(map[], cs)
  {
    hide NextOk;
    if cs == [] {
      assert OtherSteps([]) == map[];
    } else {
      ImporterTakesAll(r, cs[..|cs| - 1]);
      assert cs == cs[..|cs| - 1] + [cs[|cs| - 1]];
    }
  }

  lemma StartKeepsInv(t: Build, r: Record, b: Bundle, o: Outputs, logical: string -> string, stepKey: string -> string)
    requires Starts(t, r, b, o, logical, stepKey)
    ensures Inv(t, logical)
  {
    hide EntriesOk, ContinuationsOk, Matched, NewJobs, Distinct, GatesAfter, RootJobs;
    ImporterTakesAll(r, b.continuations);
    NextGraphIsExact(r, b);
    var a := Advanced(r, b, o, stepKey);
    assert GraphKeys(r.graph) == [];
    assert StartsOf(t) == b.continuations;
    forall i | 0 <= i < |t.components| ensures LiveFine(t, i, logical) {
      var c := t.components[i];
      var child := a.records[i];
      ExceptAre(b.continuations, c.start.stepKey);
      assert child.continuation == c.start && BuiltKeys(b) == GraphKeys(child.graph);
      forall d ensures d in Members(child.others) <==> d in OthersThan(t, i) {
        OneOfTheOthers(t, b.continuations, i, d);
      }
    }
  }

  lemma OneOfTheOthers(t: Build, cs: seq<Continuation>, i: nat, d: Continuation)
    requires i < |cs| && StartsOf(t) == cs && DistinctStepKeys(cs)
    ensures d in OthersThan(t, i) <==> d in cs && d.stepKey != cs[i].stepKey
  {
    assert forall j :: 0 <= j < |cs| ==> cs[j] == t.components[j].start;
    if d in cs && d.stepKey != cs[i].stepKey {
      var j :| 0 <= j < |cs| && cs[j] == d;
    }
  }

  // ----- a later stage -----

  lemma DecodedParts(r: Record)
    requires Decodes(r)
    ensures !r.Importer() && ShapeOk(r.continuation)
    ensures Distinct(r.continuation.jobs) && KeysIn(r.continuation.jobs) !! KeysIn(ResolvedJobs(r.resolved))
    ensures forall o :: o in r.others ==> KeysIn(r.continuation.jobs) !! KeysIn(o.jobs)
    ensures KeysIn(RootJobs(r.continuation.Roots())) <= KeysIn(r.continuation.jobs)
    ensures KeysIn(RootJobs(r.continuation.Roots())) != {}
  {
    hide Distinct, Publishes, ResolvedOk;
    JobsApart(r.continuation, r.others, ResolvedJobs(r.resolved));
    ShapeMeans(r.continuation);
  }

  lemma ShapeMeans(c: Continuation)
    requires ShapeOk(c)
    ensures c.stepKey != ""
    ensures KeysIn(RootJobs(c.Roots())) <= KeysIn(c.jobs) && KeysIn(RootJobs(c.Roots())) != {}
  {
    RootsKnown(c);
    assert RootJobs(c.Roots())[0] in KeysIn(RootJobs(c.Roots()));
  }

  /** What a later stage uploads is its own and was never uploaded before. */
  lemma NewKeysAreNew(r: Record, b: Bundle, uploaded: seq<string>, logical: string -> string)
    requires !r.Importer() && EntriesOk(r, b) && Compilation(b, logical) && Covers(r, uploaded, logical)
    ensures forall k :: k in KeysOfBuilt(NewJobs(r, b, b.built)) ==> k !in uploaded && logical(k) in r.continuation.jobs
    ensures Distinct(uploaded) ==> Distinct(uploaded + KeysOfBuilt(NewJobs(r, b, b.built)))
  {
    hide EntriesOk, Distinct, FateOf, NewJobs;
    NextGraphIsExact(r, b);
    NewJobsAre(r, b, b.built);
    var keys := KeysOfBuilt(NewJobs(r, b, b.built));
    forall k | k in keys ensures k !in uploaded && logical(k) in r.continuation.jobs {
      var i :| 0 <= i < |keys| && keys[i] == k;
      var x := NewJobs(r, b, b.built)[i];
      assert x in NewJobs(r, b, b.built);
      NewIsNotRecorded(r, b, x);
    }
    JoinDistinct(uploaded, keys);
  }

  lemma JoinDistinct(a: seq<string>, b: seq<string>)
    requires Distinct(b) && forall k :: k in b ==> k !in a
    ensures Distinct(a) ==> Distinct(a + b)
  {
    FreshIsDistinct(a);
    FreshIsDistinct(b);
    FreshIsDistinct(a + b);
    FreshInTurn({}, a, b);
  }

  lemma InvAt(t: Build, i: nat, logical: string -> string)
    requires Inv(t, logical) && i < |t.components|
    ensures ComponentFine(t, i, logical) && DistinctStepKeys(StartsOf(t))
  {
    hide ComponentFine, DistinctStepKeys;
  }

  /** What a stage did, apart from the details of the compilation. */
  lemma StageDid(t: Build, u: Build, i: nat, b: Bundle, o: Outputs, logical: string -> string,
                 stepKey: string -> string)
    requires Stage(t, u, i, b, o, logical, stepKey)
    ensures i < |t.components| && t.components[i].live.Some?
    ensures var r := t.components[i].live.value;
            && Decodes(r) && Compilation(b, logical) && AdvanceOk(r, b, stepKey) && EntriesOk(r, b) &&
              ContinuationsOk(r, b)
            && u.uploaded == t.uploaded + KeysOfBuilt(NewJobs(r, b, b.built))
            && |u.components| == |t.components| && u.components[i] == AfterStage(t.components[i], r, b, o, stepKey)
            && (forall j :: 0 <= j < |t.components| && j != i ==> u.components[j] == t.components[j])
            && (forall j :: 0 <= j < |t.components| ==> u.components[j].start == t.components[j].start)
  {
    hide Decodes, Compilation, EntriesOk, ContinuationsOk, NewJobs, NextOf, SkippedSteps, Writable;
  }

  /** A component that does not run keeps covering, as its jobs are not those of the one that does. */
  lemma BystanderStays(t: Build, u: Build, i: nat, j: nat, b: Bundle, o: Outputs, logical: string -> string,
                       stepKey: string -> string)
    requires Inv(t, logical) && Stage(t, u, i, b, o, logical, stepKey) && j < |t.components| && j != i
    ensures ComponentFine(u, j, logical)
  {
    hide Inv, Stage, AdvanceOk, AfterStage, EntriesOk, ContinuationsOk, NewJobs, Distinct, Decodes, Compilation,
      DistinctStepKeys;
    StageDid(t, u, i, b, o, logical, stepKey);
    InvAt(t, i, logical);
    InvAt(t, j, logical);
    var r := t.components[i].live.value;
    DecodedParts(r);
    NewKeysAreNew(r, b, t.uploaded, logical);
    SameOthers(t, u, i, j);
    assert t.components[j].start in OthersThan(t, i);
    assert t.components[j].start in Members(r.others);
    if t.components[j].live.Some? {
      StillCovers(t.components[j].live.value, r.continuation.jobs, t.uploaded, KeysOfBuilt(NewJobs(r, b, b.built)),
        logical);
    }
  }

  lemma StillCovers(r: Record, foreign: seq<string>, uploaded: seq<string>, more: seq<string>,
                    logical: string -> string)
    requires Covers(r, uploaded, logical) && KeysIn(r.continuation.jobs) !! KeysIn(foreign)
    requires forall k :: k in more ==> logical(k) in foreign
    ensures Covers(r, uploaded + more, logical)
  {
    assert forall k :: k in more ==> logical(k) in KeysIn(foreign);
  }

  lemma SameOthers(t: Build, u: Build, i: nat, j: nat)
    requires i < |t.components| == |u.components| && j < |t.components|
    requires forall n :: 0 <= n < |t.components| ==> u.components[n].start == t.components[n].start
    ensures OthersThan(u, j) == OthersThan(t, j) && StartsOf(u) == StartsOf(t)
  {
  }

  lemma MoreResolved(start: set<string>, before: set<string>, roots: set<string>, jobs: set<string>, stages: nat)
    requires roots <= jobs <= start && roots != {} && jobs !! before && stages <= |before * start|
    ensures stages + 1 <= |(before + roots) * start| <= |start|
  {
    var x :| x in roots;
    assert (before * start) + {x} <= (before + roots) * start;
    assert |(before * start) + {x}| == |before * start| + 1;
    SubsetIsNoLarger((before * start) + {x}, (before + roots) * start);
    SubsetIsNoLarger((before + roots) * start, start);
  }

  lemma ResolvedGrow(r: Record, o: Outputs)
    ensures KeysIn(ResolvedJobs(r.resolved + ResolvedBy(r.continuation.Roots(), o))) ==
              KeysIn(ResolvedJobs(r.resolved)) + KeysIn(RootJobs(r.continuation.Roots()))
  {
    var more := ResolvedBy(r.continuation.Roots(), o);
    assert ResolvedJobs(r.resolved + more) == ResolvedJobs(r.resolved) + ResolvedJobs(more);
    assert ResolvedJobs(more) == RootJobs(r.continuation.Roots());
  }

  lemma OthersAreOneEach(t: Build, i: nat)
    requires DistinctStepKeys(StartsOf(t))
    ensures OneEach(OthersThan(t, i))
  {
    forall c, d | c in OthersThan(t, i) && d in OthersThan(t, i) && c.stepKey == d.stepKey ensures c == d {
      var j :| 0 <= j < |t.components| && t.components[j].start == c;
      var k :| 0 <= k < |t.components| && t.components[k].start == d;
      assert StartsOf(t)[j] == c && StartsOf(t)[k] == d;
    }
  }

  /** How the component that ran has changed. */
  lemma RunnerDid(c: Component, d: Component, r: Record, b: Bundle, o: Outputs, stepKey: string -> string)
    requires !r.Importer() && AdvanceOk(r, b, stepKey) && d == AfterStage(c, r, b, o, stepKey)
    ensures var next := NextOf(r, b);
            && d.start == c.start && d.stages == c.stages + 1
            && c.handled <= d.handled
            && (forall job :: job in r.continuation.jobs ==> job in d.handled || (next != [] && job in next[0].jobs))
            && d.uploads - c.uploads <= r.continuation.jobBudget
            && (d.live.None? <==> next == [])
            && (d.live.Some? ==>
                  var child := d.live.value;
                  && child.continuation == next[0].(jobBudget := r.continuation.jobBudget - (d.uploads - c.uploads))
                  && child.others == Except(b.continuations, next[0].stepKey)
                  && child.graph == Entries(b.built)
                  && child.resolved == r.resolved + ResolvedBy(r.continuation.Roots(), o))
  {
    hide EntriesOk, ContinuationsOk, NextOf, NewJobs, GatesAfter, SkippedSteps, LogicalJobs, StepOf, Writable, Entries,
      ResolvedBy, Except;
  }

  /** The component that ran: its remainder is smaller, or it has handled all its jobs. */
  lemma RunnerStays(t: Build, u: Build, i: nat, b: Bundle, o: Outputs, logical: string -> string,
                    stepKey: string -> string)
    requires Inv(t, logical) && Stage(t, u, i, b, o, logical, stepKey)
    ensures ComponentFine(u, i, logical)
  {
    hide Inv, Stage, AdvanceOk, AfterStage, EntriesOk, ContinuationsOk, NewJobs, Distinct, Decodes, DistinctStepKeys,
      NextOf;
    hide Entries, ResolvedBy, Except, OthersThan, OneEach, Members, Covers, RootJobs;
    StageDid(t, u, i, b, o, logical, stepKey);
    InvAt(t, i, logical);
    var c := t.components[i];
    var r := c.live.value;
    DecodedParts(r);
    RunnerDid(c, u.components[i], r, b, o, stepKey);
    MoreResolved(KeysIn(c.start.jobs), KeysIn(ResolvedJobs(r.resolved)), KeysIn(RootJobs(r.continuation.Roots())),
                 KeysIn(r.continuation.jobs), c.stages);
    if u.components[i].live.Some? {
      var next := NextOf(r, b)[0];
      NextIsPart(r, b, next);
      NextIsCovered(r, b, t.uploaded, u.components[i].live.value, logical);
      OthersAreOneEach(t, i);
      OthersUnchanged(r, b, next);
      SameOthers(t, u, i, i);
      ResolvedGrow(r, o);
    }
  }

  lemma NextIsCovered(r: Record, b: Bundle, uploaded: seq<string>, child: Record, logical: string -> string)
    requires !r.Importer() && EntriesOk(r, b) && Compilation(b, logical) && Covers(r, uploaded, logical)
    requires child.graph == Entries(b.built) && KeysIn(child.continuation.jobs) <= KeysIn(r.continuation.jobs)
    ensures Covers(child, uploaded + KeysOfBuilt(NewJobs(r, b, b.built)), logical)
  {
    hide EntriesOk, NewJobs, Distinct, DistinctStepKeys;
    NextGraphIsExact(r, b);
  }

  lemma StageKeepsInv(t: Build, u: Build, i: nat, b: Bundle, o: Outputs, logical: string -> string,
                      stepKey: string -> string)
    requires Inv(t, logical) && Stage(t, u, i, b, o, logical, stepKey)
    ensures Inv(u, logical)
  {
    StageDid(t, u, i, b, o, logical, stepKey);
    var r := t.components[i].live.value;
    hide Stage, AdvanceOk, AfterStage, EntriesOk, ContinuationsOk, NewJobs, Distinct, Decodes, DistinctStepKeys,
      ComponentFine, Compilation;
    DecodedParts(r);
    RunnerCovers(t, i, logical);
    NewKeysAreNew(r, b, t.uploaded, logical);
    SameOthers(t, u, i, i);
    RunnerStays(t, u, i, b, o, logical, stepKey);
    forall j | 0 <= j < |u.components| ensures ComponentFine(u, j, logical) {
      if j != i { BystanderStays(t, u, i, j, b, o, logical, stepKey); }
    }
  }

  lemma RunnerCovers(t: Build, i: nat, logical: string -> string)
    requires Inv(t, logical) && i < |t.components| && t.components[i].live.Some?
    ensures Covers(t.components[i].live.value, t.uploaded, logical)
  {
    assert ComponentFine(t, i, logical);
  }

  // ----- the results -----

  lemma {:induction false} RunsKeepInv(run: seq<Build>, logical: string -> string, stepKey: string -> string, n: nat)
    requires IsRun(run, logical, stepKey) && n < |run|
    ensures Inv(run[n], logical)
  {
    hide Inv, Stage, Starts;
    if n == 0 {
      var r, b, o :| Starts(run[0], r, b, o, logical, stepKey);
      StartKeepsInv(run[0], r, b, o, logical, stepKey);
    } else {
      RunsKeepInv(run, logical, stepKey, n - 1);
      assert Step(run[n - 1], run[n], logical, stepKey);
      var i, b, o :| Stage(run[n - 1], run[n], i, b, o, logical, stepKey);
      StageKeepsInv(run[n - 1], run[n], i, b, o, logical, stepKey);
    }
  }

  /** Over all stages of all components, no planned step key is uploaded twice. */
  lemma UploadedOnce(run: seq<Build>, logical: string -> string, stepKey: string -> string, n: nat)
    requires IsRun(run, logical, stepKey) && n < |run|
    ensures Distinct(run[n].uploaded)
  {
    RunsKeepInv(run, logical, stepKey, n);
  }

  /** No component uploads more than the budget it started with, or runs more stages than it has jobs. */
  lemma BudgetsAreKept(run: seq<Build>, logical: string -> string, stepKey: string -> string, n: nat, i: nat)
    requires IsRun(run, logical, stepKey) && n < |run| && i < |run[n].components|
    ensures var c := run[n].components[i];
            && c.stages <= |KeysIn(c.start.jobs)|
            && (c.live.Some? ==> c.uploads + c.live.value.continuation.jobBudget == c.start.jobBudget)
            && (c.live.None? ==> c.uploads <= c.start.jobBudget)
  {
    RunsKeepInv(run, logical, stepKey, n);
    var c := run[n].components[i];
    assert ComponentFine(run[n], i, logical);
    if c.live.Some? {
      SubsetIsNoLarger(KeysIn(ResolvedJobs(c.live.value.resolved)) * KeysIn(c.start.jobs), KeysIn(c.start.jobs));
    }
  }

  /** When a component has no further stage, each of its jobs was compiled or skipped by one of them. */
  lemma NothingIsForgotten(run: seq<Build>, logical: string -> string, stepKey: string -> string, n: nat, i: nat)
    requires IsRun(run, logical, stepKey) && n < |run| && i < |run[n].components| && run[n].components[i].live.None?
    ensures forall job :: job in run[n].components[i].start.jobs ==> job in run[n].components[i].handled
  {
    RunsKeepInv(run, logical, stepKey, n);
    assert ComponentFine(run[n], i, logical);
  }

  // ----- who owns a job -----

  lemma {:induction false} ListedApart(cs: seq<Continuation>, i: nat, j: nat)
    requires i < j < |cs| && Distinct(JobsOf(cs))
    ensures KeysIn(cs[i].jobs) !! KeysIn(cs[j].jobs)
  {
    hide Distinct, Fresh;
    var front, last := cs[..|cs| - 1], cs[|cs| - 1];
    FreshIsDistinct(JobsOf(cs));
    FreshInTurn({}, JobsOf(front), last.jobs);
    FreshIsDistinct(JobsOf(front));
    if j < |front| {
      ListedApart(front, i, j);
    } else {
      ListedIn(front, i);
      FreshAvoids({} + KeysIn(JobsOf(front)), last.jobs);
    }
  }

  lemma {:induction false} ListedIn(cs: seq<Continuation>, i: nat)
    requires i < |cs|
    ensures KeysIn(cs[i].jobs) <= KeysIn(JobsOf(cs))
  {
    var n := |cs| - 1;
    FreshInTurn({}, JobsOf(cs[..n]), cs[n].jobs);
    if i < n { ListedIn(cs[..n], i); }
  }

  /** No job is in two components of a record that decodes. */
  lemma ComponentsApart(r: Record, c: Continuation, d: Continuation)
    requires Decodes(r) && c in Components(r) && d in Components(r) && c != d
    ensures KeysIn(c.jobs) !! KeysIn(d.jobs)
  {
    hide Distinct, JobsOf, Publishes, ResolvedOk, ShapeOk;
    var cs := Components(r);
    FreshIsDistinct(JobsOf(cs) + ResolvedJobs(r.resolved));
    FreshInTurn({}, JobsOf(cs), ResolvedJobs(r.resolved));
    FreshIsDistinct(JobsOf(cs));
    var i :| 0 <= i < |cs| && cs[i] == c;
    var j :| 0 <= j < |cs| && cs[j] == d;
    if i < j { ListedApart(cs, i, j); } else { ListedApart(cs, j, i); }
  }

  /** What a component's latest record still owns. */
  function Owned(c: Component): set<string> {
    if c.live.Some? then KeysIn(c.live.value.continuation.jobs) else {}
  }

  lemma StartsLive(t: Build, r: Record, b: Bundle, o: Outputs, logical: string -> string, stepKey: string -> string,
                   i: nat)
    requires Starts(t, r, b, o, logical, stepKey) && i < |t.components|
    ensures t.components[i].live.Some? && t.components[i].live.value.continuation == t.components[i].start
  {
    hide EntriesOk, ContinuationsOk, NewJobs, Distinct, GatesAfter;
  }

  lemma StepKeepsStarts(t: Build, u: Build, logical: string -> string, stepKey: string -> string)
    requires Step(t, u, logical, stepKey)
    ensures |u.components| == |t.components|
    ensures forall i :: 0 <= i < |t.components| ==> u.components[i].start == t.components[i].start
  {
    hide Stage, Decodes, Compilation, AdvanceOk, EntriesOk, ContinuationsOk, AfterStage, NewJobs;
    var i, b, o :| Stage(t, u, i, b, o, logical, stepKey);
    StageDid(t, u, i, b, o, logical, stepKey);
  }

  lemma StepAt(run: seq<Build>, logical: string -> string, stepKey: string -> string, n: nat)
    requires IsRun(run, logical, stepKey) && n + 1 < |run|
    ensures Step(run[n], run[n + 1], logical, stepKey)
  {
    hide Step, Starts;
  }

  lemma {:induction false} StartsStay(run: seq<Build>, logical: string -> string, stepKey: string -> string, n: nat)
    requires IsRun(run, logical, stepKey) && n < |run|
    ensures |run[n].components| == |run[0].components|
    ensures forall i :: 0 <= i < |run[0].components| ==> run[n].components[i].start == run[0].components[i].start
  {
    hide *;
    if n > 0 {
      StartsStay(run, logical, stepKey, n - 1);
      StepAt(run, logical, stepKey, n - 1);
      StepKeepsStarts(run[n - 1], run[n], logical, stepKey);
    }
  }

  /** The first stage that runs has checked that the components share no job. */
  lemma FirstStageApart(t: Build, u: Build, k: nat, b: Bundle, o: Outputs, logical: string -> string,
                        stepKey: string -> string,
                        i: nat, j: nat)
    requires Inv(t, logical) && Stage(t, u, k, b, o, logical, stepKey) && i < |t.components| && j < |t.components|
    requires i != j
    requires t.components[k].live.Some? ==> t.components[k].live.value.continuation == t.components[k].start
    ensures KeysIn(t.components[i].start.jobs) !! KeysIn(t.components[j].start.jobs)
  {
    hide Inv, Stage, Decodes, AdvanceOk, EntriesOk, ContinuationsOk, NewJobs, Compilation, Distinct;
    StageDid(t, u, k, b, o, logical, stepKey);
    InvAt(t, k, logical);
    var r := t.components[k].live.value;
    IsComponent(t, k, i, r);
    IsComponent(t, k, j, r);
    assert StartsOf(t)[i] != StartsOf(t)[j];
    ComponentsApart(r, t.components[i].start, t.components[j].start);
  }

  lemma IsComponent(t: Build, k: nat, i: nat, r: Record)
    requires k < |t.components| && i < |t.components|
    requires r.continuation == t.components[k].start && Members(r.others) == OthersThan(t, k)
    ensures t.components[i].start in Components(r)
  {
    if i != k {
      assert t.components[i].start in OthersThan(t, k);
      assert t.components[i].start in r.others;
    }
  }

  /** Ownership stays a partition: in every state of a run in which a stage has run, no job belongs to two
      components, a component owns none but its own, and each of these it still owns or has handled. */
  lemma OwnershipIsPartition(run: seq<Build>, logical: string -> string, stepKey: string -> string, n: nat, i: nat)
    requires IsRun(run, logical, stepKey) && |run| > 1 && n < |run| && i < |run[n].components|
    ensures var c := run[n].components[i];
            && Owned(c) <= KeysIn(c.start.jobs) <= c.handled + Owned(c)
            && forall j :: 0 <= j < |run[n].components| && j != i ==>
              KeysIn(c.start.jobs) !! KeysIn(run[n].components[j].start.jobs)
  {
    hide Stage, Starts, Inv, Step;
    RunsKeepInv(run, logical, stepKey, n);
    InvAt(run[n], i, logical);
    StartsStay(run, logical, stepKey, n);
    forall j | 0 <= j < |run[n].components| && j != i
      ensures KeysIn(run[n].components[i].start.jobs) !! KeysIn(run[n].components[j].start.jobs)
    {
      StartsApart(run, logical, stepKey, i, j);
    }
  }

  lemma StartsApart(run: seq<Build>, logical: string -> string, stepKey: string -> string, i: nat, j: nat)
    requires IsRun(run, logical, stepKey) && |run| > 1 && i < |run[0].components| && j < |run[0].components| && i != j
    ensures KeysIn(run[0].components[i].start.jobs) !! KeysIn(run[0].components[j].start.jobs)
  {
    hide Stage, Starts, Inv;
    StepAt(run, logical, stepKey, 0);
    RunsKeepInv(run, logical, stepKey, 0);
    var r, b, o :| Starts(run[0], r, b, o, logical, stepKey);
    var k, b', o' :| Stage(run[0], run[1], k, b', o', logical, stepKey);
    StageDid(run[0], run[1], k, b', o', logical, stepKey);
    StartsLive(run[0], r, b, o, logical, stepKey, k);
    FirstStageApart(run[0], run[1], k, b', o', logical, stepKey, i, j);
  }
}
