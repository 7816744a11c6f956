/** Stages that upload into one build at the same time: replayed uploads, and approval gates that
    several stages would create. The server takes an upload whole or not at all. */
module GateRace {
  import opened Claims

  /** A step's attribute that a later run can read back; a job's digest identifies its plan. */
  type Attribute = string

  /** Steps never disappear, so a build only grows. */
  type Steps = map<string, Attribute>

  datatype Phase =
    // Asking for each gate whether it exists; created: those it will create.
    | Looking(todo: set<string>, created: set<string>, retry: bool)
    // After a rejected first upload: comparing the expected steps with the build.
    | Checking(todo: set<string>, created: set<string>)
    // The upload was no replay: asking which of the gates exist by now.
    | Racing(todo: set<string>, raced: set<string>)
    | Succeeded
    | Failed

  /** One run of a stage step: what it uploads, and the gates that the record says exist. */
  datatype Run = Run(expected: Steps, gates: set<string>, recorded: set<string>, phase: Phase)

  /** uploaded: the runs one of whose uploads the server has taken. */
  datatype World = World(steps: Steps, runs: seq<Run>, uploaded: set<nat>)

  function Gates(created: set<string>): Steps {
    map g | g in created :: ""
  }

  function Upload(r: Run): Steps
    requires r.phase.Looking?
  {
    r.expected + Gates(r.phase.created)
  }

  predicate Collides(s: Steps, upload: Steps) {
    exists k :: k in upload && k in s
  }

  datatype Event =
    | Look(t: nat, gate: string, found: bool)
    // taken: the server applied the upload; ok: the run was told so.
    | Send(t: nat, taken: bool, ok: bool)
    | Compare(t: nat, key: string, matches: bool)
    | Settle(t: nat)
    | Peek(t: nat, gate: string, found: bool)
    | Again(t: nat)

  predicate Matches(s: Steps, key: string, want: Attribute) {
    key in s && s[key] == want
  }

  /** A lookup can fail, which reads as not found; it never finds what is not there. */
  predicate Enabled(w: World, e: Event) {
    e.t < |w.runs| &&
    var r := w.runs[e.t];
    match e
    case Look(_, g, found) => r.phase.Looking? && g in r.phase.todo && (found ==> g in w.steps)
    case Send(_, taken, ok) =>
      r.phase.Looking? && r.phase.todo == {} && (taken ==> !Collides(w.steps, Upload(r))) && (ok ==> taken)
    case Compare(_, k, matches) =>
      r.phase.Checking? && k in r.phase.todo && k in r.expected && (matches ==> Matches(w.steps, k, r.expected[k]))
    case Settle(_) => r.phase.Checking? && r.phase.todo == {}
    case Peek(_, g, found) => r.phase.Racing? && g in r.phase.todo && (found ==> g in w.steps)
    case Again(_) => r.phase.Racing? && r.phase.todo == {}
  }

  /** An upload the server took but whose answer was lost counts as rejected for the run. */
  function Sent(r: Run, ok: bool): Phase
    requires r.phase.Looking?
  {
    if ok then Succeeded else if r.phase.retry then Failed else Checking(r.expected.Keys, r.phase.created)
  }

  function NextPhase(r: Run, e: Event): Phase
    requires match e
             case Look(_, _, _) => r.phase.Looking?
             case Send(_, _, _) => r.phase.Looking?
             case Compare(_, _, _) => r.phase.Checking?
             case Settle(_) => r.phase.Checking?
             case Peek(_, _, _) => r.phase.Racing?
             case Again(_) => r.phase.Racing?
  {
    match e
    case Look(_, g, found) => Looking(r.phase.todo - {g}, if found then r.phase.created
      else r.phase.created + {g}, r.phase.retry)
    case Send(_, _, ok) => Sent(r, ok)
    case Compare(_, k, matches) =>
      if matches then Checking(r.phase.todo - {k}, r.phase.created) else Racing(r.phase.created, {})
    case Settle(_) => if r.expected == map[] then Racing(r.phase.created, {}) else Succeeded
    case Peek(_, g, found) => Racing(r.phase.todo - {g}, if found then r.phase.raced + {g} else r.phase.raced)
    case Again(_) => if r.phase.raced == {} then Failed else Looking(r.gates - r.recorded - r.phase.raced, {}, true)
  }

  function Next(w: World, e: Event): World
    requires Enabled(w, e)
  {
    var r := w.runs[e.t];
    var taken := e.Send? && e.taken;
    World(if taken then w.steps + Upload(r) else w.steps,
          w.runs[e.t := r.(phase := NextPhase(r, e))],
          if taken then w.uploaded + {e.t} else w.uploaded)
  }

  // ----- every success is real -----

  /** Every job of the build has its gate there; gate names the gate that a digest's plan waits for. */
  ghost predicate GatesPresent(s: Steps, gate: Attribute -> string) {
    forall k :: k in s && gate(s[k]) != "" ==> gate(s[k]) in s
  }

  /** The run knows the gates of its jobs, and recorded ones exist. */
  ghost predicate RunDeclared(r: Run, s: Steps, gate: Attribute -> string) {
    && (forall k :: k in r.expected && gate(r.expected[k]) != "" ==> gate(r.expected[k]) in r.gates)
    && r.recorded <= s.Keys
  }

  /** Gates no longer asked for exist or will be created; compared steps are there. */
  ghost predicate RunFine(r: Run, s: Steps) {
    match r.phase
    case Looking(todo, created, _) => r.gates - s.Keys <= todo + created <= r.gates
    case Checking(todo, created) => forall k :: k in r.expected && k !in todo ==> Matches(s, k, r.expected[k])
    case Racing(_, raced) => raced <= s.Keys
    case Succeeded => (forall k :: k in r.expected ==> Matches(s, k, r.expected[k])) && r.gates <= s.Keys
    case Failed => true
  }

  ghost predicate Inv(w: World, gate: Attribute -> string) {
    && GatesPresent(w.steps, gate) && gate("") == ""
    && forall t :: 0 <= t < |w.runs| ==> RunDeclared(w.runs[t], w.steps, gate) && RunFine(w.runs[t], w.steps)
  }

  /** A run only uses gates of its jobs: those of the digests it uploads. */
  ghost predicate OnlyUsedGates(r: Run, gate: Attribute -> string) {
    forall g :: g in r.gates ==> exists k :: k in r.expected && gate(r.expected[k]) == g && g != ""
  }

  ghost predicate Starts(w: World, gate: Attribute -> string) {
    && w.uploaded == {} && GatesPresent(w.steps, gate) && gate("") == ""
    && forall t :: 0 <= t < |w.runs| ==>
         var r := w.runs[t];
         RunDeclared(r, w.steps, gate) && OnlyUsedGates(r, gate) && r.phase == Looking(r.gates - r.recorded, {}, false)
  }

  ghost predicate IsRun(ws: seq<World>, events: seq<Event>, gate: Attribute -> string) {
    && |ws| == |events| + 1 && Starts(ws[0], gate)
    && forall n :: 0 <= n < |events| ==> Enabled(ws[n], events[n]) && ws[n + 1] == Next(ws[n], events[n])
  }

  ghost predicate Grows(s: Steps, t: Steps) {
    forall k :: k in s ==> k in t && t[k] == s[k]
  }

  lemma StepsGrow(w: World, e: Event)
    requires Enabled(w, e)
    ensures Grows(w.steps, Next(w, e).steps)
  {
  }

  /** What a run relies on stays true while the build grows. */
  lemma FineInMore(r: Run, s: Steps, t: Steps, gate: Attribute -> string)
    requires Grows(s, t) && RunDeclared(r, s, gate) && RunFine(r, s)
    ensures RunDeclared(r, t, gate) && RunFine(r, t)
  {
    assert s.Keys <= t.Keys;
  }

  lemma UploadKeepsGates(s: Steps, r: Run, gate: Attribute -> string)
    requires GatesPresent(s, gate) && gate("") == "" && r.phase.Looking? && r.phase.todo == {}
    requires RunDeclared(r, s, gate) && RunFine(r, s) && !Collides(s, Upload(r))
    ensures GatesPresent(s + Upload(r), gate)
    ensures forall k :: k in r.expected ==> k in r.phase.created || Matches(s + Upload(r), k, r.expected[k])
    ensures r.gates <= (s + Upload(r)).Keys
  {
    var after := s + Upload(r);
    assert r.gates <= after.Keys;
    forall k | k in after && gate(after[k]) != "" ensures gate(after[k]) in after {
      if k in s {
        assert k !in Upload(r);
      } else {
        assert k in r.expected && after[k] == r.expected[k];
      }
    }
  }

  /** No expected step has the key of a gate that the run would create. */
  ghost predicate KeysApart(r: Run) {
    r.expected.Keys !! r.gates
  }

  lemma RunnerFine(w: World, e: Event, gate: Attribute -> string)
    requires Inv(w, gate) && Enabled(w, e) && KeysApart(w.runs[e.t]) && OnlyUsedGates(w.runs[e.t], gate)
    ensures RunFine(Next(w, e).runs[e.t], Next(w, e).steps)
  {
    hide GatesPresent;
    var r := w.runs[e.t];
    assert RunDeclared(r, w.steps, gate) && RunFine(r, w.steps);
    match e
    case Send(_, taken, _) =>
      if taken {
        UploadKeepsGates(w.steps, r, gate);
        assert forall k :: k in r.expected ==> k !in r.phase.created;
      }
    case Settle(_) => ComparedIsEnough(r, w.steps, gate);
    case Again(_) => assert r.recorded <= w.steps.Keys;
    case _ =>
  }

  /** Steps that all match were uploaded with their gates. */
  lemma ComparedIsEnough(r: Run, s: Steps, gate: Attribute -> string)
    requires GatesPresent(s, gate) && OnlyUsedGates(r, gate)
    requires forall k :: k in r.expected ==> Matches(s, k, r.expected[k])
    ensures r.gates <= s.Keys
  {
  }

  lemma StepKeepsInv(w: World, e: Event, gate: Attribute -> string)
    requires Inv(w, gate) && Enabled(w, e)
    requires forall t :: 0 <= t < |w.runs| ==> KeysApart(w.runs[t]) && OnlyUsedGates(w.runs[t], gate)
    ensures Inv(Next(w, e), gate)
  {
    hide RunFine, RunDeclared, GatesPresent, OnlyUsedGates, Enabled, Upload, Collides;
    var u := Next(w, e);
    InRange(w, e);
    var r := w.runs[e.t];
    StepsGrow(w, e);
    RunnerFine(w, e, gate);
    DeclaredStays(r, w.steps, u.steps, u.runs[e.t].phase, gate);
    forall t | 0 <= t < |u.runs| ensures RunDeclared(u.runs[t], u.steps, gate) && RunFine(u.runs[t], u.steps) {
      if t != e.t { FineInMore(w.runs[t], w.steps, u.steps, gate); }
    }
    if e.Send? && e.taken { TakenKeepsGates(w, e, gate); }
  }

  lemma InRange(w: World, e: Event)
    requires Enabled(w, e)
    ensures e.t < |w.runs|
  {
  }

  lemma TakenKeepsGates(w: World, e: Event, gate: Attribute -> string)
    requires Inv(w, gate) && Enabled(w, e) && e.Send? && e.taken
    ensures GatesPresent(Next(w, e).steps, gate)
  {
    UploadKeepsGates(w.steps, w.runs[e.t], gate);
  }

  lemma DeclaredStays(r: Run, s: Steps, t: Steps, phase: Phase, gate: Attribute -> string)
    requires RunDeclared(r, s, gate) && Grows(s, t)
    ensures RunDeclared(r.(phase := phase), t, gate)
  {
    assert s.Keys <= t.Keys;
  }

  lemma {:induction false} RunsKeepInv(ws: seq<World>, events: seq<Event>, gate: Attribute -> string, n: nat)
    requires IsRun(ws, events, gate) && n < |ws| && forall t :: 0 <= t < |ws[0].runs| ==> KeysApart(ws[0].runs[t])
    ensures Inv(ws[n], gate) && SameRuns(ws[0], ws[n])
  {
    hide Inv, Enabled, Next, OnlyUsedGates, KeysApart;
    if n == 0 {
      StartIsFine(ws[0], gate);
    } else {
      RunsKeepInv(ws, events, gate, n - 1);
      RunsStaySame(ws[0], ws[n - 1], events[n - 1], gate);
      StepKeepsInv(ws[n - 1], events[n - 1], gate);
    }
  }

  /** The same runs, wherever they have got to. */
  ghost predicate SameRuns(v: World, w: World) {
    |w.runs| == |v.runs| && forall t :: 0 <= t < |v.runs| ==> w.runs[t] == v.runs[t].(phase := w.runs[t].phase)
  }

  lemma RunsStaySame(v: World, w: World, e: Event, gate: Attribute -> string)
    requires SameRuns(v, w) && Enabled(w, e)
    requires forall t :: 0 <= t < |v.runs| ==> KeysApart(v.runs[t]) && OnlyUsedGates(v.runs[t], gate)
    ensures SameRuns(v, Next(w, e))
    ensures forall t :: 0 <= t < |w.runs| ==> KeysApart(w.runs[t]) && OnlyUsedGates(w.runs[t], gate)
  {
    forall t | 0 <= t < |w.runs| ensures KeysApart(w.runs[t]) && OnlyUsedGates(w.runs[t], gate) {
      assert w.runs[t] == v.runs[t].(phase := w.runs[t].phase);
    }
  }

  lemma StartIsFine(w: World, gate: Attribute -> string)
    requires Starts(w, gate)
    ensures Inv(w, gate)
    ensures forall t :: 0 <= t < |w.runs| ==> OnlyUsedGates(w.runs[t], gate)
  {
    hide GatesPresent, OnlyUsedGates;
  }

  lemma {:induction false} BuildOnlyGrows(ws: seq<World>, events: seq<Event>, gate: Attribute -> string, m: nat, n: nat)
    requires IsRun(ws, events, gate) && m <= n < |ws|
    ensures Grows(ws[m].steps, ws[n].steps)
    decreases n
  {
    hide Enabled, Next;
    if m < n {
      BuildOnlyGrows(ws, events, gate, m, n - 1);
      StepsGrow(ws[n - 1], events[n - 1]);
    }
  }

  /** Once a run reports success, and for ever after, all it was to upload is in the build with its
      digest, and so is every approval gate that its jobs wait for. */
  lemma SuccessIsReal(ws: seq<World>, events: seq<Event>, gate: Attribute -> string, m: nat, n: nat, t: nat)
    requires IsRun(ws, events, gate) && m <= n < |ws| && forall t :: 0 <= t < |ws[0].runs| ==> KeysApart(ws[0].runs[t])
    requires t < |ws[m].runs| && ws[m].runs[t].phase.Succeeded?
    ensures forall k :: k in ws[m].runs[t].expected ==>
              k in ws[n].steps && ws[n].steps[k] == ws[m].runs[t].expected[k]
    ensures ws[m].runs[t].gates <= ws[n].steps.Keys
  {
    hide IsRun, KeysApart, GatesPresent;
    RunsKeepInv(ws, events, gate, m);
    BuildOnlyGrows(ws, events, gate, m, n);
    assert RunFine(ws[m].runs[t], ws[m].steps);
    assert ws[m].steps.Keys <= ws[n].steps.Keys;
  }

  /** Told that the upload was taken, or having found each of its steps, at least one, in the build. */
  ghost predicate HasReason(events: seq<Event>, n: nat, t: nat, expected: Steps)
    requires n <= |events|
  {
    || (exists m :: 0 <= m < n && events[m].Send? && events[m].t == t && events[m].taken && events[m].ok)
    || (expected != map[] && forall k :: k in expected ==> Found(events, n, t, k))
  }

  ghost predicate Found(events: seq<Event>, n: nat, t: nat, k: string)
    requires n <= |events|
  {
    exists m :: 0 <= m < n && events[m] == Compare(t, k, true)
  }

  /** A run that has not succeeded keeps what it has compared; a run that has has a reason. */
  ghost predicate Reasoned(events: seq<Event>, n: nat, t: nat, r: Run)
    requires n <= |events|
  {
    match r.phase
    case Checking(todo, _) => forall k :: k in r.expected && k !in todo ==> Found(events, n, t, k)
    case Succeeded => HasReason(events, n, t, r.expected)
    case _ => true
  }

  lemma ReasonKept(events: seq<Event>, n: nat, t: nat, r: Run)
    requires n < |events| && Reasoned(events, n, t, r)
    ensures Reasoned(events, n + 1, t, r)
  {
    forall k | Found(events, n, t, k) ensures Found(events, n + 1, t, k) {
      var m :| 0 <= m < n && events[m] == Compare(t, k, true);
    }
  }

  lemma StepHasReason(w: World, events: seq<Event>, n: nat)
    requires n < |events| && Enabled(w, events[n]) && Reasoned(events, n, events[n].t, w.runs[events[n].t])
    ensures Reasoned(events, n + 1, events[n].t, Next(w, events[n]).runs[events[n].t])
  {
    hide Reasoned, HasReason, Found;
    var e, t, r := events[n], events[n].t, w.runs[events[n].t];
    var v := Next(w, e).runs[t];
    if e.Compare? {
      ComparedOneMore(events, n, r, v);
    } else if e.Settle? {
      ReasonKept(events, n, t, r);
      AllCompared(events, n, r, v);
    } else {
      NotCompared(events, n, r, v);
    }
  }

  lemma ComparedOneMore(events: seq<Event>, n: nat, r: Run, v: Run)
    requires n < |events| && events[n].Compare? && r.phase.Checking? && Reasoned(events, n, events[n].t, r)
    requires v == r.(phase := NextPhase(r, events[n]))
    ensures Reasoned(events, n + 1, events[n].t, v)
  {
    var t := events[n].t;
    ReasonKept(events, n, t, r);
    if events[n].matches {
      assert events[n] == Compare(t, events[n].key, true);
      assert Found(events, n + 1, t, events[n].key);
    }
  }

  lemma AllCompared(events: seq<Event>, n: nat, r: Run, v: Run)
    requires n < |events| && events[n].Settle? && r.phase.Checking? && r.phase.todo == {}
    requires Reasoned(events, n + 1, events[n].t, r) && v == r.(phase := NextPhase(r, events[n]))
    ensures Reasoned(events, n + 1, events[n].t, v)
  {
  }

  lemma NotCompared(events: seq<Event>, n: nat, r: Run, v: Run)
    requires n < |events| && !events[n].Compare? && !events[n].Settle?
    requires events[n].Look? || events[n].Send? ==> r.phase.Looking?
    requires events[n].Send? ==> (events[n].ok ==> events[n].taken)
    requires events[n].Peek? || events[n].Again? ==> r.phase.Racing?
    requires v == r.(phase := NextPhase(r, events[n]))
    ensures Reasoned(events, n + 1, events[n].t, v)
  {
  }

  lemma {:induction false} RunsAreReasoned(ws: seq<World>, events: seq<Event>, gate: Attribute -> string, n: nat,
                                           t: nat)
    requires IsRun(ws, events, gate) && n < |ws| && t < |ws[n].runs|
    ensures Reasoned(events, n, t, ws[n].runs[t])
  {
    hide Reasoned, Enabled, Starts;
    if n == 0 {
      StartIsReasoned(ws[0], events, gate, t);
    } else {
      var w, e := ws[n - 1], events[n - 1];
      assert Enabled(w, e) && ws[n] == Next(w, e);
      EnabledHasRun(w, e);
      RunsAreReasoned(ws, events, gate, n - 1, t);
      if t == e.t { StepHasReason(w, events, n - 1); } else { ReasonKept(events, n - 1, t, w.runs[t]); }
    }
  }

  lemma EnabledHasRun(w: World, e: Event)
    requires Enabled(w, e)
    ensures e.t < |w.runs| && |Next(w, e).runs| == |w.runs|
    ensures forall t :: 0 <= t < |w.runs| && t != e.t ==> Next(w, e).runs[t] == w.runs[t]
  {
  }

  lemma StartIsReasoned(w: World, events: seq<Event>, gate: Attribute -> string, t: nat)
    requires Starts(w, gate) && t < |w.runs|
    ensures Reasoned(events, 0, t, w.runs[t])
  {
  }

  /** A run succeeds only if it was told that its upload was taken, or if after a rejection it found every one of its
      steps, and there is at least one, in the build. */
  lemma SuccessHasReason(ws: seq<World>, events: seq<Event>, gate: Attribute -> string, n: nat, t: nat)
    requires IsRun(ws, events, gate) && n < |ws| && t < |ws[n].runs| && ws[n].runs[t].phase.Succeeded?
    ensures (exists m :: 0 <= m < n && events[m].Send? && events[m].t == t && events[m].taken && events[m].ok) ||
            (ws[n].runs[t].expected != map[] &&
              forall k :: k in ws[n].runs[t].expected ==> exists m :: 0 <= m < n && events[m] == Compare(t, k, true))
  {
    hide Enabled, Starts;
    RunsAreReasoned(ws, events, gate, n, t);
    assert HasReason(events, n, t, ws[n].runs[t].expected);
    if !(exists m :: 0 <= m < n && events[m].Send? && events[m].t == t && events[m].taken && events[m].ok) {
      forall k | k in ws[n].runs[t].expected ensures exists m :: 0 <= m < n && events[m] == Compare(t, k, true) {
        assert Found(events, n, t, k);
      }
    }
  }

  // ----- one retry is enough for two stages -----

  /** Lookups are right, and the server takes what it can and says so. */
  predicate Reliable(w: World, e: Event)
    requires Enabled(w, e)
  {
    match e
    case Look(t, g, found) => found <==> g in w.steps
    case Send(t, taken, ok) => taken == ok == !Collides(w.steps, Upload(w.runs[t]))
    case Compare(t, k, matches) => matches <==> Matches(w.steps, k, w.runs[t].expected[k])
    case Peek(t, g, found) => found <==> g in w.steps
    case _ => true
  }

  ghost predicate ReliableRun(ws: seq<World>, events: seq<Event>, gate: Attribute -> string) {
    && IsRun(ws, events, gate)
    && forall n :: 0 <= n < |events| ==> Reliable(ws[n], events[n])
  }

  /** Neither run uploads a job of the other, nor a gate with a key of such a job. */
  ghost predicate OwnKeys(a: Run, b: Run) {
    a.expected.Keys !! b.expected.Keys + b.gates
  }

  /** Every stage has jobs of its own, none of them uploaded yet, and no gate has their keys. */
  ghost predicate FirstRuns(w: World) {
    && (forall t :: 0 <= t < |w.runs| ==> w.runs[t].expected != map[] && w.runs[t].expected.Keys !! w.steps.Keys)
    && (forall t, u :: 0 <= t < |w.runs| && 0 <= u < |w.runs| && t != u ==> OwnKeys(w.runs[t], w.runs[u]))
    && (forall t :: 0 <= t < |w.runs| ==> KeysApart(w.runs[t]))
  }

  function OtherUploads(w: World, t: nat): nat {
    |w.uploaded - {t}|
  }

  /** How many uploads by others it took to get a run where it is; keys are those of the build. */
  ghost predicate DelayedAt(r: Run, keys: set<string>, others: nat) {
    match r.phase
    case Looking(todo, created, retry) =>
      (retry ==> others >= 1) && (created * keys != {} ==> others >= if retry then 2 else 1)
    case Checking(todo, created) => others >= 1 && todo == r.expected.Keys && created * keys != {}
    case Racing(todo, raced) => others >= 1 && ((todo * keys) + raced != {})
    case Succeeded => true
    case Failed => others >= 2
  }

  ghost predicate Delayed(w: World, t: nat)
    requires t < |w.runs|
  {
    DelayedAt(w.runs[t], w.steps.Keys, OtherUploads(w, t))
  }

  /** Nothing of a run that has not succeeded is in the build. */
  ghost predicate Unsent(r: Run, s: Steps) {
    !r.phase.Succeeded? ==> r.expected.Keys !! s.Keys
  }

  ghost predicate Race(w: World) {
    && (forall t :: t in w.uploaded ==> t < |w.runs| && w.runs[t].phase.Succeeded?)
    && forall t :: 0 <= t < |w.runs| ==> Delayed(w, t) && Unsent(w.runs[t], w.steps)
  }

  lemma StartsRace(w: World, gate: Attribute -> string)
    requires Starts(w, gate) && FirstRuns(w)
    ensures Race(w)
  {
    hide GatesPresent, RunDeclared, OnlyUsedGates;
  }

  /** One more upload by somebody else counts for every run that has not uploaded. */
  lemma OthersCount(uploaded: set<nat>, t: nat, x: nat)
    requires x !in uploaded && x != t
    ensures |(uploaded + {x}) - {t}| == |uploaded - {t}| + 1
  {
    assert (uploaded + {x}) - {t} == (uploaded - {t}) + {x};
  }

  lemma DelayGrows(r: Run, keys: set<string>, more: set<string>, others: nat)
    requires DelayedAt(r, keys, others) && keys <= more
    ensures DelayedAt(r, more, others + 1)
  {
    match r.phase
    case Checking(_, created) => assert created * keys <= created * more;
    case Racing(todo, raced) => assert (todo * keys) + raced <= (todo * more) + raced;
    case _ =>
  }

  /** An accepted upload: others are delayed by one more. */
  lemma TakenKeepsRace(w: World, x: nat)
    requires Race(w) && FirstRunsNow(w) && Enabled(w, Send(x, true, true))
    ensures Race(Next(w, Send(x, true, true)))
  {
    hide Delayed, Unsent, OwnKeys, Upload, Collides;
    var u := Next(w, Send(x, true, true));
    forall t | 0 <= t < |u.runs| ensures Delayed(u, t) && Unsent(u.runs[t], u.steps) {
      if t == x { SucceededIsDelayed(u, x); } else { OtherDelayed(w, u, x, t); }
    }
  }

  lemma OtherDelayed(w: World, u: World, x: nat, t: nat)
    requires x < |w.runs| && t < |w.runs| && t != x && w.runs[x].phase.Looking? && x !in w.uploaded
    requires w.runs[x].phase.created <= w.runs[x].gates && OwnKeys(w.runs[t], w.runs[x])
    requires Delayed(w, t) && Unsent(w.runs[t], w.steps)
    requires u.steps == w.steps + Upload(w.runs[x]) && u.uploaded == w.uploaded + {x} && t < |u.runs|
    requires u.runs[t] == w.runs[t]
    ensures Delayed(u, t) && Unsent(u.runs[t], u.steps)
  {
    hide DelayedAt;
    var r := w.runs[x];
    OthersCount(w.uploaded, t, x);
    assert u.steps.Keys == w.steps.Keys + r.expected.Keys + r.phase.created;
    DelayGrows(w.runs[t], w.steps.Keys, u.steps.Keys, OtherUploads(w, t));
  }

  lemma SameDelayed(w: World, u: World, t: nat)
    requires t < |w.runs| && t < |u.runs| && u.steps == w.steps && u.uploaded == w.uploaded && u.runs[t] == w.runs[t]
    requires Delayed(w, t)
    ensures Delayed(u, t)
  {
    hide DelayedAt;
  }

  lemma SucceededIsDelayed(w: World, t: nat)
    requires t < |w.runs| && w.runs[t].phase.Succeeded?
    ensures Delayed(w, t) && Unsent(w.runs[t], w.steps)
  {
  }

  /** FirstRuns without what is said of the start. */
  ghost predicate FirstRunsNow(w: World) {
    && (forall t :: 0 <= t < |w.runs| ==> w.runs[t].expected != map[])
    && (forall t :: 0 <= t < |w.runs| && w.runs[t].phase.Looking? ==> w.runs[t].phase.created <= w.runs[t].gates)
    && (forall t, u :: 0 <= t < |w.runs| && 0 <= u < |w.runs| && t != u ==> OwnKeys(w.runs[t], w.runs[u]))
  }

  /** Any other step of a run that has no step of its own in the build. */
  lemma MoveKeepsRace(w: World, e: Event)
    requires Race(w) && FirstRunsNow(w) && Enabled(w, e) && Reliable(w, e) && !(e.Send? && e.taken)
    ensures Race(Next(w, e))
  {
    hide Delayed, Reliable, FirstRunsNow, Unsent, Upload, Collides, Matches;
    var u := Next(w, e);
    var r := w.runs[e.t];
    HasJobs(w, e.t);
    RunnerDelayed(w, u, e);
    forall t | 0 <= t < |u.runs| ensures Delayed(u, t) && Unsent(u.runs[t], u.steps) {
      if t != e.t { SameDelayed(w, u, t); }
    }
  }

  lemma RunnerDelayed(w: World, u: World, e: Event)
    requires Enabled(w, e) && Reliable(w, e) && !(e.Send? && e.taken) && w.runs[e.t].expected != map[]
    requires Delayed(w, e.t) && Unsent(w.runs[e.t], w.steps)
    requires |u.runs| == |w.runs| && u.runs[e.t] == w.runs[e.t].(phase := NextPhase(w.runs[e.t], e))
    requires u.steps == w.steps && u.uploaded == w.uploaded
    ensures Delayed(u, e.t) && Unsent(u.runs[e.t], u.steps)
  {
    var r, s, others := w.runs[e.t], w.steps, OtherUploads(w, e.t);
    hide DelayedAt, Upload, Collides, Matches, OtherUploads;
    assert OtherUploads(u, e.t) == others by { SameOthers(w, u, e.t); }
    match e
    case Look(_, g, found) => LookDelayed(r, s, others, g, found);
    case Send(_, _, ok) => RefusalDelayed(r, s, others);
    case Compare(_, k, matches) => CompareDelayed(r, s, others, k);
    case Settle(_) => NeverSettled(r, s, others);
    case Peek(_, g, found) => PeekDelayed(r, s, others, g, found);
    case Again(_) => AgainDelayed(r, s, others);
  }

  lemma SameOthers(w: World, u: World, t: nat)
    requires u.uploaded == w.uploaded
    ensures OtherUploads(u, t) == OtherUploads(w, t)
  {
  }

  lemma HasJobs(w: World, t: nat)
    requires FirstRunsNow(w) && t < |w.runs|
    ensures w.runs[t].expected != map[]
  {
  }

  lemma LookDelayed(r: Run, s: Steps, others: nat, g: string, found: bool)
    requires DelayedAt(r, s.Keys, others) && r.phase.Looking? && (found <==> g in s)
    ensures DelayedAt(r.(phase := Looking(r.phase.todo - {g}, if found then r.phase.created
        else r.phase.created + {g}, r.phase.retry)), s.Keys, others)
  {
    if !found { assert (r.phase.created + {g}) * s.Keys == r.phase.created * s.Keys; }
  }

  /** A refused first upload met a gate that somebody else created; a refused retry, another one. */
  lemma RefusalDelayed(r: Run, s: Steps, others: nat)
    requires DelayedAt(r, s.Keys, others) && r.phase.Looking? && r.expected.Keys !! s.Keys && Collides(s, Upload(r))
    ensures DelayedAt(r.(phase := Sent(r, false)), s.Keys, others)
  {
    var k :| k in Upload(r) && k in s;
    assert k in r.phase.created * s.Keys;
  }

  lemma CompareDelayed(r: Run, s: Steps, others: nat, k: string)
    requires DelayedAt(r, s.Keys, others) && r.phase.Checking? && r.expected.Keys !! s.Keys && k in r.expected
    ensures !Matches(s, k, r.expected[k])
    ensures DelayedAt(r.(phase := Racing(r.phase.created, {})), s.Keys, others)
  {
    assert k in r.expected.Keys;
  }

  lemma NeverSettled(r: Run, s: Steps, others: nat)
    requires DelayedAt(r, s.Keys, others) && r.phase.Checking? && r.expected != map[]
    ensures r.phase.todo != {}
  {
    assert r.expected.Keys != {};
  }

  lemma PeekDelayed(r: Run, s: Steps, others: nat, g: string, found: bool)
    requires DelayedAt(r, s.Keys, others) && r.phase.Racing? && (found <==> g in s)
    ensures DelayedAt(r.(phase := Racing(r.phase.todo - {g}, if found then r.phase.raced + {g} else r.phase.raced)),
        s.Keys, others)
  {
    if found {
      assert g in r.phase.raced + {g};
    } else {
      assert (r.phase.todo - {g}) * s.Keys == r.phase.todo * s.Keys;
    }
  }

  lemma AgainDelayed(r: Run, s: Steps, others: nat)
    requires DelayedAt(r, s.Keys, others) && r.phase.Racing? && r.phase.todo == {}
    ensures r.phase.raced != {}
    ensures DelayedAt(r.(phase := Looking(r.gates - r.recorded - r.phase.raced, {}, true)), s.Keys, others)
  {
    assert r.phase.todo * s.Keys == {};
    assert {} * s.Keys == {};
  }

  lemma FirstRunsLater(v: World, w: World)
    requires FirstRuns(v) && SameRuns(v, w)
    requires forall t :: 0 <= t < |w.runs| ==> RunFine(w.runs[t], w.steps)
    ensures FirstRunsNow(w)
  {
    hide OwnKeys, KeysApart;
    forall t | 0 <= t < |w.runs|
      ensures w.runs[t].expected != map[] && (w.runs[t].phase.Looking? ==> w.runs[t].phase.created <= w.runs[t].gates)
    {
      assert w.runs[t] == v.runs[t].(phase := w.runs[t].phase);
      assert RunFine(w.runs[t], w.steps);
    }
    forall t, u | 0 <= t < |w.runs| && 0 <= u < |w.runs| && t != u ensures OwnKeys(w.runs[t], w.runs[u]) {
      OwnKeysStay(v.runs[t], v.runs[u], w.runs[t].phase, w.runs[u].phase);
    }
  }

  lemma OwnKeysStay(a: Run, b: Run, p: Phase, q: Phase)
    requires OwnKeys(a, b)
    ensures OwnKeys(a.(phase := p), b.(phase := q))
  {
  }

  lemma {:induction false} RacesStay(ws: seq<World>, events: seq<Event>, gate: Attribute -> string, n: nat)
    requires ReliableRun(ws, events, gate) && FirstRuns(ws[0]) && n < |ws|
    ensures Race(ws[n])
  {
    hide Race, FirstRuns, FirstRunsNow, Starts, Inv, Reliable;
    assert forall t :: 0 <= t < |ws[0].runs| ==> KeysApart(ws[0].runs[t]) by { FirstRunsApart(ws[0]); }
    if n == 0 {
      StartsRace(ws[0], gate);
    } else {
      RacesStay(ws, events, gate, n - 1);
      RunsKeepInv(ws, events, gate, n - 1);
      InvFine(ws[n - 1], gate);
      FirstRunsLater(ws[0], ws[n - 1]);
      var e := events[n - 1];
      if e.Send? && e.taken {
        TakenIsTold(ws[n - 1], e);
        TakenKeepsRace(ws[n - 1], e.t);
      } else {
        MoveKeepsRace(ws[n - 1], e);
      }
    }
  }

  lemma TakenIsTold(w: World, e: Event)
    requires Enabled(w, e) && Reliable(w, e) && e.Send? && e.taken
    ensures e == Send(e.t, true, true)
  {
  }

  lemma FirstRunsApart(w: World)
    requires FirstRuns(w)
    ensures forall t :: 0 <= t < |w.runs| ==> KeysApart(w.runs[t])
  {
  }

  lemma InvFine(w: World, gate: Attribute -> string)
    requires Inv(w, gate)
    ensures forall t :: 0 <= t < |w.runs| ==> RunFine(w.runs[t], w.steps)
  {
  }

  /** A first run fails only if two other stages uploaded while it was trying. */
  lemma FailureNeedsTwoOthers(ws: seq<World>, events: seq<Event>, gate: Attribute -> string, n: nat, t: nat)
    requires ReliableRun(ws, events, gate) && FirstRuns(ws[0]) && n < |ws| && t < |ws[n].runs|
    requires ws[n].runs[t].phase.Failed?
    ensures OtherUploads(ws[n], t) >= 2
  {
    RacesStay(ws, events, gate, n);
    hide ReliableRun, FirstRuns, Unsent;
    assert Delayed(ws[n], t);
  }

  /** With two stages, whichever gates they share, one retry is enough: no run fails. */
  lemma TwoStagesNeverFail(ws: seq<World>, events: seq<Event>, gate: Attribute -> string, n: nat, t: nat)
    requires ReliableRun(ws, events, gate) && FirstRuns(ws[0]) && n < |ws| && |ws[n].runs| == 2 && t < 2
    ensures !ws[n].runs[t].phase.Failed?
  {
    RacesStay(ws, events, gate, n);
    if ws[n].runs[t].phase.Failed? {
      FailureNeedsTwoOthers(ws, events, gate, n, t);
      OneOtherAtMost(ws[n], t);
    }
  }

  lemma OneOtherAtMost(w: World, t: nat)
    requires Race(w) && |w.runs| == 2 && t < 2
    ensures OtherUploads(w, t) <= 1
  {
    hide Unsent, Delayed;
    var others := w.uploaded - {t};
    assert others <= {1 - t};
    SubsetIsNoLarger(others, {1 - t});
  }

  // ----- with three stages one retry may not be enough -----

  function GateOf(digest: Attribute): string {
    if digest == "1" then "g1" else if digest == "2" then "g2" else ""
  }

  const BOTH_GATES := map["a1" := "1", "a2" := "2"]

  /** The first stage has a job behind each gate, the other two a job behind one of them. */
  function Three(steps: Steps, a: Phase, b: Phase, c: Phase, uploaded: set<nat>): World {
    World(steps,
          [Run(BOTH_GATES, {"g1", "g2"}, {}, a), Run(map["b" := "1"], {"g1"}, {}, b),
            Run(map["c" := "2"], {"g2"}, {}, c)],
          uploaded)
  }

  const AFTER_B: Steps := map["b" := "1", "g1" := ""]
  const AFTER_C: Steps := map["b" := "1", "g1" := "", "c" := "2", "g2" := ""]

  /** The second stage takes the first gate from the first stage, and the third its other gate from the retry. */
  const OVERTAKEN: seq<Event> := [
    Look(0, "g1", false), Look(0, "g2", false), Look(1, "g1", false), Send(1, true, true), Send(0, false, false),
    Compare(0, "a1", false), Peek(0, "g1", true), Peek(0, "g2", false), Again(0), Look(0, "g2", false),
    Look(2, "g2", false), Send(2, true, true), Send(0, false, false)]

  function Overtaking(): (ws: seq<World>)
    ensures |ws| == 14
  {
    var b, c := Looking({"g1"}, {}, false), Looking({"g2"}, {}, false);
    var b' := Looking({}, {"g1"}, false);
    var c' := Looking({}, {"g2"}, false);
    var both := {"g1", "g2"};
    [Three(map[], Looking(both, {}, false), b, c, {}),
     Three(map[], Looking({"g2"}, {"g1"}, false), b, c, {}),
     Three(map[], Looking({}, both, false), b, c, {}),
     Three(map[], Looking({}, both, false), b', c, {}),
     Three(AFTER_B, Looking({}, both, false), Succeeded, c, {1}),
     Three(AFTER_B, Checking({"a1", "a2"}, both), Succeeded, c, {1}),
     Three(AFTER_B, Racing(both, {}), Succeeded, c, {1}),
     Three(AFTER_B, Racing({"g2"}, {"g1"}), Succeeded, c, {1}),
     Three(AFTER_B, Racing({}, {"g1"}), Succeeded, c, {1}),
     Three(AFTER_B, Looking({"g2"}, {}, true), Succeeded, c, {1}),
     Three(AFTER_B, Looking({}, {"g2"}, true), Succeeded, c, {1}),
     Three(AFTER_B, Looking({}, {"g2"}, true), Succeeded, c', {1}),
     Three(AFTER_C, Looking({}, {"g2"}, true), Succeeded, Succeeded, {1, 2}),
     Three(AFTER_C, Failed, Succeeded, Succeeded, {1, 2})]
  }

  ghost predicate Leads(w: World, e: Event, v: World) {
    Enabled(w, e) && Reliable(w, e) && v == Next(w, e)
  }

  lemma SetFacts()
    ensures {"g1", "g2"} - {"g1"} == {"g2"} && {"g1", "g2"} - {} - {"g1"} == {"g2"} && {"g2"} - {"g2"} == {}
    ensures {"g1"} - {"g1"} == {}
    ensures {} + {"g1"} == {"g1"} && {} + {"g2"} == {"g2"} && {"g1"} + {"g2"} == {"g1", "g2"}
    ensures {} + {1} == {1} && {1} + {2} == {1, 2} && BOTH_GATES.Keys == {"a1", "a2"}
  {
  }

  lemma UploadFacts()
    ensures map["b" := "1"] + Gates({"g1"}) == AFTER_B && map[] + AFTER_B == AFTER_B
    ensures AFTER_B + (map["c" := "2"] + Gates({"g2"})) == AFTER_C
    ensures "g1" in Gates({"g1", "g2"}) && "g2" in Gates({"g2"})
  {
    assert map["c" := "2"] + Gates({"g2"}) == map["c" := "2", "g2" := ""];
  }

  lemma FirstMoves(s: Steps, a: Phase, b: Phase, c: Phase, u: set<nat>, e: Event)
    requires Enabled(Three(s, a, b, c, u), e) && e.t == 0 && !(e.Send? && e.taken)
    ensures Next(Three(s, a, b, c, u), e) == Three(s, NextPhase(Three(s, a, b, c, u).runs[0], e), b, c, u)
  {
    hide NextPhase;
  }

  lemma EarlyMoves(ws: seq<World>)
    requires ws == Overtaking()
    ensures Leads(ws[0], OVERTAKEN[0], ws[1]) && Leads(ws[1], OVERTAKEN[1], ws[2])
    ensures Leads(ws[4], OVERTAKEN[4], ws[5]) && Leads(ws[5], OVERTAKEN[5], ws[6])
  {
    SetFacts();
    UploadFacts();
    var b, c := Looking({"g1"}, {}, false), Looking({"g2"}, {}, false);
    FirstMoves(map[], Looking({"g1", "g2"}, {}, false), b, c, {}, OVERTAKEN[0]);
    FirstMoves(map[], Looking({"g2"}, {"g1"}, false), b, c, {}, OVERTAKEN[1]);
    assert "g1" in Upload(ws[4].runs[0]) && "g1" in ws[4].steps;
    FirstMoves(AFTER_B, Looking({}, {"g1", "g2"}, false), Succeeded, c, {1}, OVERTAKEN[4]);
    FirstMoves(AFTER_B, Checking({"a1", "a2"}, {"g1", "g2"}), Succeeded, c, {1}, OVERTAKEN[5]);
  }

  lemma RetryMoves(ws: seq<World>)
    requires ws == Overtaking()
    ensures forall n :: 6 <= n < 10 ==> Leads(ws[n], OVERTAKEN[n], ws[n + 1])
    ensures Leads(ws[12], OVERTAKEN[12], ws[13])
  {
    SetFacts();
    UploadFacts();
    var c := Looking({"g2"}, {}, false);
    FirstMoves(AFTER_B, Racing({"g1", "g2"}, {}), Succeeded, c, {1}, OVERTAKEN[6]);
    FirstMoves(AFTER_B, Racing({"g2"}, {"g1"}), Succeeded, c, {1}, OVERTAKEN[7]);
    FirstMoves(AFTER_B, Racing({}, {"g1"}), Succeeded, c, {1}, OVERTAKEN[8]);
    FirstMoves(AFTER_B, Looking({"g2"}, {}, true), Succeeded, c, {1}, OVERTAKEN[9]);
    assert "g2" in Upload(ws[12].runs[0]) && "g2" in ws[12].steps;
    FirstMoves(AFTER_C, Looking({}, {"g2"}, true), Succeeded, Succeeded, {1, 2}, OVERTAKEN[12]);
    assert Leads(ws[6], OVERTAKEN[6], ws[7]) && Leads(ws[7], OVERTAKEN[7], ws[8]);
    assert Leads(ws[8], OVERTAKEN[8], ws[9]) && Leads(ws[9], OVERTAKEN[9], ws[10]);
  }

  lemma SecondMoves(ws: seq<World>)
    requires ws == Overtaking()
    ensures Leads(ws[2], OVERTAKEN[2], ws[3]) && Leads(ws[3], OVERTAKEN[3], ws[4])
  {
    SetFacts();
    UploadFacts();
    assert ws[3].steps + Upload(ws[3].runs[1]) == AFTER_B;
    assert Next(ws[2], OVERTAKEN[2]).runs == ws[3].runs && Next(ws[3], OVERTAKEN[3]).runs == ws[4].runs;
  }

  lemma ThirdMoves(ws: seq<World>)
    requires ws == Overtaking()
    ensures Leads(ws[10], OVERTAKEN[10], ws[11]) && Leads(ws[11], OVERTAKEN[11], ws[12])
  {
    SetFacts();
    UploadFacts();
    assert ws[11].steps + Upload(ws[11].runs[2]) == AFTER_C;
    assert Next(ws[10], OVERTAKEN[10]).runs == ws[11].runs && Next(ws[11], OVERTAKEN[11]).runs == ws[12].runs;
  }

  lemma ThreeStart(w: World)
    requires w == Overtaking()[0]
    ensures Starts(w, GateOf)
  {
    assert w.runs[0].expected["a1"] == "1" && w.runs[0].expected["a2"] == "2";
    assert w.runs[1].expected["b"] == "1" && w.runs[2].expected["c"] == "2";
  }

  lemma ThreeFirstRuns(w: World)
    requires w == Overtaking()[0]
    ensures FirstRuns(w)
  {
    assert "a1" in BOTH_GATES && "b" in map["b" := "1"] && "c" in map["c" := "2"];
  }

  /** The bound of FailureNeedsTwoOthers is met: a first run whose single retry is rejected as well. */
  lemma ThirdStageDefeatsRetry() returns (ws: seq<World>)
    ensures ReliableRun(ws, OVERTAKEN, GateOf) && FirstRuns(ws[0])
    ensures |ws[13].runs| == 3 && ws[13].runs[0].phase.Failed? && OtherUploads(ws[13], 0) == 2
  {
    hide *;
    ws := Overtaking();
    EarlyMoves(ws);
    SecondMoves(ws);
    ThirdMoves(ws);
    RetryMoves(ws);
    ThreeStart(ws[0]);
    ThreeFirstRuns(ws[0]);
    FailedAtLast(ws[13]);
    ThirteenMoves();
    MovesMakeRun(ws, OVERTAKEN);
  }

  lemma ThirteenMoves()
    ensures |OVERTAKEN| == 13
  {
  }

  lemma MovesMakeRun(ws: seq<World>, events: seq<Event>)
    requires |ws| == |events| + 1 && Starts(ws[0], GateOf)
    requires forall n :: 0 <= n < |events| ==> Leads(ws[n], events[n], ws[n + 1])
    ensures ReliableRun(ws, events, GateOf)
  {
    hide Enabled, Reliable, Next, Starts;
    forall n | 0 <= n < |events|
      ensures Enabled(ws[n], events[n]) && Reliable(ws[n], events[n]) && ws[n + 1] == Next(ws[n], events[n])
    {
      assert Leads(ws[n], events[n], ws[n + 1]);
    }
  }

  lemma FailedAtLast(w: World)
    requires w == Overtaking()[13]
    ensures |w.runs| == 3 && w.runs[0].phase.Failed? && OtherUploads(w, 0) == 2
  {
    assert w.uploaded - {0} == {1, 2};
  }
}
