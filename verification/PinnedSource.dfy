/** memoizedActionSource: fetches shared by many callers, each repository pinned once. */
module PinnedSource {
  import opened Pipelines

  // ----- references, answers and keys -----

  datatype Reference = Reference(
    serverURL: string, owner: string, repository: string, ref: string, path: string, repositoryRoot: bool)

  function ServerURL(url: string): string {
    if url == "" then "https://github.com" else url
  }

  function LowerChar(c: char): char {
    if 'A' <= c <= 'Z' then c - 'A' + 'a' else c
  }

  function ToLower(s: string): string {
    seq(|s|, i requires 0 <= i < |s| => LowerChar(s[i]))
  }

  datatype RepositoryKey = RepositoryKey(serverURL: string, repository: string, ref: string)

  datatype CallKey = CallKey(repository: RepositoryKey, path: string, repositoryRoot: bool)

  function RepositoryOf(ref: Reference): RepositoryKey {
    RepositoryKey(ServerURL(ref.serverURL), ToLower(ref.owner + "/" + ref.repository), ref.ref)
  }

  function KeyOf(ref: Reference): CallKey {
    CallKey(RepositoryOf(ref), ref.path, ref.repositoryRoot)
  }

  datatype Pin = Pin(serverURL: string, commit: string, digest: string)

  /** What a successful fetch resolved to and materialized. */
  datatype Answer = Answer(serverURL: string, commit: string, digest: string)

  datatype Outcome = Success(answer: Answer) | Failure(canceled: bool)

  function PinOf(a: Answer): Pin {
    Pin(ServerURL(a.serverURL), a.commit, a.digest)
  }

  /** The result of a real fetch, after the check against an existing pin. */
  function Checked(pin: Option<Pin>, o: Outcome): Outcome {
    if o.Success? && pin.Some? && PinOf(o.answer) != pin.value then Failure(false) else o
  }

  // ----- the shared state -----

  /** calls holds the outcomes of calls whose channel is closed, released the closed pin channels. */
  datatype State = State(
    cache: map<CallKey, Answer>, active: map<CallKey, nat>,
    pins: map<RepositoryKey, Pin>, pinActive: map<RepositoryKey, nat>,
    calls: map<nat, Outcome>, released: set<nat>, next: nat)

  datatype Decision = Cached(answer: Answer) | JoinCall(call: nat) | JoinPin(channel: nat) | Lead(call: nat,
    pin: Option<Pin>)

  function Decided(s: State, ref: Reference): Decision {
    var key, repository := KeyOf(ref), RepositoryOf(ref);
    if key in s.cache then Cached(s.cache[key])
    else if key in s.active then JoinCall(s.active[key])
    else if repository in s.pins then Lead(s.next, Some(s.pins[repository]))
    else if repository in s.pinActive then JoinPin(s.pinActive[repository])
    else Lead(s.next, None)
  }

  /** The first locked region of Fetch: whoever leads enters its call, and the pin it will write. */
  function Begun(s: State, ref: Reference): State {
    var d := Decided(s, ref);
    if !d.Lead? then s
    else
      s.(active := s.active[KeyOf(ref) := s.next], next := s.next + 1,
         pinActive := if d.pin.None? then s.pinActive[RepositoryOf(ref) := s.next] else s.pinActive)
  }

  /** The second locked region of Fetch. */
  function Published(s: State, ref: Reference, call: nat, pin: Option<Pin>, o: Outcome): State {
    var key, repository := KeyOf(ref), RepositoryOf(ref);
    s.(active := s.active - {key},
       pins := if o.Success? && pin.None? then s.pins[repository := PinOf(o.answer)] else s.pins,
       cache := if o.Success? then s.cache[key := o.answer] else s.cache,
       released := if pin.None? && repository in s.pinActive then s.released + {s.pinActive[repository]}
         else s.released,
       pinActive := if pin.None? then s.pinActive - {repository} else s.pinActive,
       calls := s.calls[call := o])
  }

  class MemoizedSource {
    var cache: map<CallKey, Answer>
    var active: map<CallKey, nat>
    var pins: map<RepositoryKey, Pin>
    var pinActive: map<RepositoryKey, nat>
    var calls: map<nat, Outcome>
    var released: set<nat>
    var next: nat

    constructor (pins: map<RepositoryKey, Pin>)
      ensures Now() == State(map[], map[], pins, map[], map[], {}, 0)
    {
      this.pins := pins;
      cache, active, pinActive, calls, released, next := map[], map[], map[], map[], {}, 0;
    }

    ghost function Now(): State
      reads this
    {
      State(cache, active, pins, pinActive, calls, released, next)
    }

    /** Runs under the lock: find an answer, a call or a pin to wait for, or take the lead. */
    method Begin(ref: Reference) returns (d: Decision)
      modifies this
      ensures d == Decided(old(Now()), ref) && Now() == Begun(old(Now()), ref)
    {
      var key, repository := KeyOf(ref), RepositoryOf(ref);
      if key in cache {
        return Cached(cache[key]);
      }
      if key in active {
        return JoinCall(active[key]);
      }
      var pin := None;
      if repository in pins {
        pin := Some(pins[repository]);
      } else {
        if repository in pinActive {
          return JoinPin(pinActive[repository]);
        }
        pinActive := pinActive[repository := next];
      }
      active := active[key := next];
      d := Lead(next, pin);
      next := next + 1;
    }

    /** Runs under the lock: keep a success, record the first pin, wake everybody who waits. */
    method Publish(ref: Reference, call: nat, pin: Option<Pin>, o: Outcome)
      requires pin.None? ==> RepositoryOf(ref) in pinActive
      modifies this
      ensures Now() == Published(old(Now()), ref, call, pin, o)
    {
      var key, repository := KeyOf(ref), RepositoryOf(ref);
      active := active - {key};
      if o.Success? {
        if pin.None? {
          pins := pins[repository := PinOf(o.answer)];
        }
        cache := cache[key := o.answer];
      }
      if pin.None? {
        released := released + {pinActive[repository]};
        pinActive := pinActive - {repository};
      }
      calls := calls[call := o];
    }
  }

  // ----- callers -----

  /** Where a caller of Fetch is. */
  datatype Caller =
    | Entering(ref: Reference)
    | OnCall(ref: Reference, call: nat)
    | OnPin(ref: Reference, channel: nat)
    | Fetching(ref: Reference, call: nat, pin: Option<Pin>)
    | Retaining(ref: Reference, answer: Answer)
    | Returned(ref: Reference, outcome: Outcome)

  datatype World = World(state: State, callers: seq<Caller>)

  /** Steps of one caller. Which server is valid, what the real source answers, whether
      Retain succeeds and when a context is done is left open. */
  datatype Event =
    | Arrive(ref: Reference)
    | Reject(t: nat)
    | Enter(t: nat)
    | Complete(t: nat, outcome: Outcome)
    | Wake(t: nat)
    | Retry(t: nat)
    | GiveUp(t: nat)
    | Retain(t: nat, ok: bool)

  function Took(ref: Reference, d: Decision): Caller {
    match d
    case Cached(a) => Retaining(ref, a)
    case JoinCall(call) => OnCall(ref, call)
    case JoinPin(channel) => OnPin(ref, channel)
    case Lead(call, pin) => Fetching(ref, call, pin)
  }

  predicate Enabled(w: World, e: Event) {
    if e.Arrive? then true
    else
      e.t < |w.callers| &&
      var c := w.callers[e.t];
      match e
      case Reject(_) => c.Entering?
      case Enter(_) => c.Entering?
      case Complete(_, _) => c.Fetching?
      case Wake(_) => (c.OnCall? && c.call in w.state.calls) || (c.OnPin? && c.channel in w.state.released)
      case Retry(_) => c.OnCall? && c.call in w.state.calls && w.state.calls[c.call] == Failure(true)
      case GiveUp(_) => c.OnCall? || c.OnPin?
      case Retain(_, _) => c.Retaining?
  }

  function Woken(s: State, c: Caller): Caller
    requires (c.OnCall? && c.call in s.calls) || c.OnPin?
  {
    if c.OnPin? then Entering(c.ref)
    else if s.calls[c.call].Success? then Retaining(c.ref, s.calls[c.call].answer)
    else Returned(c.ref, s.calls[c.call])
  }

  function Next(w: World, e: Event): World
    requires Enabled(w, e)
  {
    if e.Arrive? then w.(callers := w.callers + [Entering(e.ref)])
    else
      var c := w.callers[e.t];
      match e
      case Reject(t) => w.(callers := w.callers[t := Returned(c.ref, Failure(false))])
      case Enter(t) => World(Begun(w.state, c.ref), w.callers[t := Took(c.ref, Decided(w.state, c.ref))])
      case Complete(t, o) =>
        var checked := Checked(c.pin, o);
        World(Published(w.state, c.ref, c.call, c.pin, checked), w.callers[t := Returned(c.ref, checked)])
      case Wake(t) => w.(callers := w.callers[t := Woken(w.state, c)])
      case Retry(t) => w.(callers := w.callers[t := Entering(c.ref)])
      case GiveUp(t) => w.(callers := w.callers[t := Returned(c.ref, Failure(true))])
      case Retain(t, ok) => w.(callers := w.callers[t := Returned(c.ref, if ok then Success(c.answer)
        else Failure(false))])
  }

  /** Any interleaving of any callers, from a source that may already hold pins. */
  ghost predicate IsRun(run: seq<World>, events: seq<Event>) {
    && |run| == |events| + 1
    && run[0].callers == [] && run[0].state == State(map[], map[], run[0].state.pins, map[], map[], {}, 0)
    && forall n :: 0 <= n < |events| ==> Enabled(run[n], events[n]) && run[n + 1] == Next(run[n], events[n])
  }

  // ----- what every interleaving keeps -----

  /** The answer is the one that the repository is pinned to. */
  predicate Agrees(s: State, ref: Reference, a: Answer) {
    RepositoryOf(ref) in s.pins && s.pins[RepositoryOf(ref)] == PinOf(a)
  }

  /** A fetching caller owns its call, and the pin of its repository if there was none. */
  ghost predicate Owns(s: State, c: Caller)
    requires c.Fetching?
  {
    && KeyOf(c.ref) in s.active && s.active[KeyOf(c.ref)] == c.call
    && c.call < s.next && c.call !in s.calls && c.call !in s.released
    && KeyOf(c.ref) !in s.cache
    && (match c.pin
        case Some(p) => RepositoryOf(c.ref) in s.pins && s.pins[RepositoryOf(c.ref)] == p
        case None =>
          RepositoryOf(c.ref) !in s.pins && RepositoryOf(c.ref) in s.pinActive &&
            s.pinActive[RepositoryOf(c.ref)] == c.call)
  }

  ghost predicate CallerFine(s: State, c: Caller) {
    match c
    case Entering(_) => true
    case OnCall(ref, call) =>
      if call in s.calls then s.calls[call].Success? ==> Agrees(s, ref, s.calls[call].answer)
      else KeyOf(ref) in s.active && s.active[KeyOf(ref)] == call
    case OnPin(ref, channel) =>
      channel in s.released || (RepositoryOf(ref) in s.pinActive && s.pinActive[RepositoryOf(ref)] == channel)
    case Fetching(_, _, _) => Owns(s, c)
    case Retaining(ref, a) => Agrees(s, ref, a)
    case Returned(ref, o) => o.Success? ==> Agrees(s, ref, o.answer)
  }

  /** Two fetches at once are for different keys, and for different repositories while one is unpinned. */
  predicate Apart(c: Caller, d: Caller) {
    c.Fetching? && d.Fetching? ==>
      && KeyOf(c.ref) != KeyOf(d.ref) && c.call != d.call
      && (c.pin.None? || d.pin.None? ==> RepositoryOf(c.ref) != RepositoryOf(d.ref))
  }

  predicate Leads(c: Caller, key: CallKey) {
    c.Fetching? && KeyOf(c.ref) == key
  }

  predicate LeadsPin(c: Caller, repository: RepositoryKey) {
    c.Fetching? && c.pin.None? && RepositoryOf(c.ref) == repository
  }

  ghost predicate HasOwner(callers: seq<Caller>, key: CallKey) {
    exists t :: 0 <= t < |callers| && Leads(callers[t], key)
  }

  ghost predicate HasPinOwner(callers: seq<Caller>, repository: RepositoryKey) {
    exists t :: 0 <= t < |callers| && LeadsPin(callers[t], repository)
  }

  ghost predicate StateFine(s: State) {
    && (forall key :: key in s.cache ==>
          key.repository in s.pins && s.pins[key.repository] == PinOf(s.cache[key]))
    && (forall call :: call in s.calls ==> call < s.next)
    && (forall channel :: channel in s.released ==> channel < s.next)
    && (forall key :: key in s.active ==> s.active[key] < s.next && s.active[key] !in s.calls)
    && (forall k, l :: k in s.active && l in s.active && s.active[k] == s.active[l] ==> k == l)
    && (forall r :: r in s.pinActive ==> s.pinActive[r] < s.next)
  }

  ghost predicate Owned(w: World) {
    && (forall key {:trigger HasOwner(w.callers, key)} :: key in w.state.active ==> HasOwner(w.callers, key))
    && (forall r {:trigger HasPinOwner(w.callers, r)} :: r in w.state.pinActive ==> HasPinOwner(w.callers, r))
  }

  ghost predicate Inv(w: World) {
    && StateFine(w.state)
    && (forall t :: 0 <= t < |w.callers| ==> CallerFine(w.state, w.callers[t]))
    && (forall t, u :: 0 <= t < |w.callers| && 0 <= u < |w.callers| && t != u ==> Apart(w.callers[t], w.callers[u]))
    && Owned(w)
  }

  // ----- steps of one caller that leave the shared state alone -----

  /** Calls and pins keep their owners when caller t goes on as c. */
  lemma OwnersStay(w: World, s: State, t: nat, c: Caller)
    requires Owned(w) && t < |w.callers|
    requires forall key :: key in s.active ==> (key in w.state.active && !Leads(w.callers[t], key)) || Leads(c, key)
    requires forall r :: r in s.pinActive ==> (r in w.state.pinActive && !LeadsPin(w.callers[t], r)) || LeadsPin(c, r)
    ensures Owned(World(s, w.callers[t := c]))
  {
    hide Leads, LeadsPin;
    var after := w.callers[t := c];
    assert after[t] == c;
    forall key | key in s.active ensures HasOwner(after, key) {
      if !Leads(c, key) {
        assert HasOwner(w.callers, key);
        var u :| 0 <= u < |w.callers| && Leads(w.callers[u], key);
        assert after[u] == w.callers[u];
      }
    }
    forall r | r in s.pinActive ensures HasPinOwner(after, r) {
      if !LeadsPin(c, r) {
        assert HasPinOwner(w.callers, r);
        var u :| 0 <= u < |w.callers| && LeadsPin(w.callers[u], r);
        assert after[u] == w.callers[u];
      }
    }
  }

  /** Replacing a caller that does not fetch by another one that does not. */
  lemma CallerMoves(w: World, t: nat, c: Caller)
    requires Inv(w) && t < |w.callers| && !w.callers[t].Fetching? && !c.Fetching? && CallerFine(w.state, c)
    ensures Inv(w.(callers := w.callers[t := c]))
  {
    hide StateFine, CallerFine, Owned, KeyOf, RepositoryOf;
    OwnersStay(w, w.state, t, c);
  }

  lemma CallerArrives(w: World, ref: Reference)
    requires Inv(w)
    ensures Inv(w.(callers := w.callers + [Entering(ref)]))
  {
    hide StateFine, KeyOf, RepositoryOf, Owns, Leads, LeadsPin;
    var after := w.callers + [Entering(ref)];
    forall key | HasOwner(w.callers, key) ensures HasOwner(after, key) {
      var u :| 0 <= u < |w.callers| && Leads(w.callers[u], key);
      assert after[u] == w.callers[u];
    }
    forall r | HasPinOwner(w.callers, r) ensures HasPinOwner(after, r) {
      var u :| 0 <= u < |w.callers| && LeadsPin(w.callers[u], r);
      assert after[u] == w.callers[u];
    }
  }

  // ----- taking the lead -----

  /** Beginning adds at most one call and one pin in the making. */
  lemma BegunChanges(s: State, ref: Reference)
    ensures var b := Begun(s, ref);
            && b.cache == s.cache && b.pins == s.pins && b.calls == s.calls && b.released == s.released &&
              s.next <= b.next
            && (b.active == s.active ||
                (KeyOf(ref) !in s.active && b.active == s.active[KeyOf(ref) := s.next] && KeyOf(ref) !in s.cache))
            && (b.pinActive == s.pinActive ||
                (RepositoryOf(ref) !in s.pinActive && b.pinActive == s.pinActive[RepositoryOf(ref) := s.next]))
  {
    hide KeyOf, RepositoryOf;
  }

  /** A new call does not disturb what others rely on. */
  lemma BegunKeepsCaller(s: State, ref: Reference, c: Caller)
    requires StateFine(s) && CallerFine(s, c)
    ensures CallerFine(Begun(s, ref), c)
  {
    hide KeyOf, RepositoryOf, Begun, Decided, StateFine;
    BegunChanges(s, ref);
  }

  lemma BegunKeepsState(s: State, ref: Reference)
    requires StateFine(s)
    ensures StateFine(Begun(s, ref))
  {
    hide RepositoryOf, KeyOf;
  }

  lemma BegunCallerFine(s: State, ref: Reference)
    requires StateFine(s)
    ensures CallerFine(Begun(s, ref), Took(ref, Decided(s, ref)))
  {
    hide RepositoryOf, KeyOf;
    KeysName(ref);
  }

  /** Whoever fetches already leaves no room for a second leader. */
  lemma BegunStaysApart(s: State, ref: Reference, c: Caller)
    requires StateFine(s) && CallerFine(s, c)
    ensures Apart(Took(ref, Decided(s, ref)), c) && Apart(c, Took(ref, Decided(s, ref)))
  {
    hide KeyOf, RepositoryOf;
    assert KeyOf(ref).repository == RepositoryOf(ref) by { KeysName(ref); }
    if c.Fetching? { KeysName(c.ref); }
  }

  lemma KeysName(ref: Reference)
    ensures KeyOf(ref).repository == RepositoryOf(ref)
  {
  }

  lemma EnterKeepsInv(w: World, t: nat)
    requires Inv(w) && Enabled(w, Enter(t))
    ensures Inv(Next(w, Enter(t)))
  {
    hide StateFine, CallerFine, Apart, Owned, Begun, Decided, Leads, LeadsPin;
    var ref := w.callers[t].ref;
    var s := Begun(w.state, ref);
    var c := Took(ref, Decided(w.state, ref));
    var after := w.callers[t := c];
    BegunKeepsState(w.state, ref);
    BegunCallerFine(w.state, ref);
    forall u | 0 <= u < |after| ensures CallerFine(s, after[u]) {
      if u != t { BegunKeepsCaller(w.state, ref, w.callers[u]); }
    }
    forall u, v | 0 <= u < |after| && 0 <= v < |after| && u != v ensures Apart(after[u], after[v]) {
      if u == t { BegunStaysApart(w.state, ref, w.callers[v]); }
      if v == t { BegunStaysApart(w.state, ref, w.callers[u]); }
    }
    BegunAdds(w.state, ref);
    NotLeading(w.callers[t]);
    OwnersStay(w, s, t, c);
  }

  lemma NotLeading(c: Caller)
    requires !c.Fetching?
    ensures (forall key :: !Leads(c, key)) && forall r :: !LeadsPin(c, r)
  {
  }

  lemma BegunAdds(s: State, ref: Reference)
    ensures forall key :: key in Begun(s, ref).active ==> key in s.active || Leads(Took(ref, Decided(s, ref)), key)
    ensures forall r :: r in Begun(s, ref).pinActive ==> r in s.pinActive || LeadsPin(Took(ref, Decided(s, ref)), r)
  {
    hide KeyOf, RepositoryOf;
  }

  // ----- publishing -----

  lemma PublishedKeepsCaller(s: State, c: Caller, o: Outcome, d: Caller)
    requires StateFine(s) && c.Fetching? && Owns(s, c) && CallerFine(s, d) && Apart(c, d)
    requires o == Checked(c.pin, o)
    ensures CallerFine(Published(s, c.ref, c.call, c.pin, o), d)
  {
    hide KeyOf, RepositoryOf;
    KeysName(c.ref);
    KeysName(d.ref);
  }

  lemma PublishedKeepsState(s: State, c: Caller, o: Outcome)
    requires StateFine(s) && c.Fetching? && Owns(s, c) && o == Checked(c.pin, o)
    ensures var p := Published(s, c.ref, c.call, c.pin, o);
            StateFine(p)
  {
    hide KeyOf, RepositoryOf;
    KeysName(c.ref);
  }

  lemma PublisherFine(s: State, c: Caller, o: Outcome)
    requires c.Fetching? && Owns(s, c) && o == Checked(c.pin, o)
    ensures CallerFine(Published(s, c.ref, c.call, c.pin, o), Returned(c.ref, o))
  {
    hide KeyOf, RepositoryOf;
  }

  lemma CheckedTwice(pin: Option<Pin>, o: Outcome)
    ensures Checked(pin, Checked(pin, o)) == Checked(pin, o)
  {
  }

  lemma CompleteKeepsInv(w: World, t: nat, o: Outcome)
    requires Inv(w) && Enabled(w, Complete(t, o))
    ensures Inv(Next(w, Complete(t, o)))
  {
    hide StateFine, Owned, Checked, Owns, KeyOf, RepositoryOf;
    var c := w.callers[t];
    var checked := Checked(c.pin, o);
    CheckedTwice(c.pin, o);
    var s := Published(w.state, c.ref, c.call, c.pin, checked);
    var done := Returned(c.ref, checked);
    var after := w.callers[t := done];
    PublishedKeepsState(w.state, c, checked);
    PublisherFine(w.state, c, checked);
    forall u | 0 <= u < |after| ensures CallerFine(s, after[u]) {
      if u != t { PublishedKeepsCaller(w.state, c, checked, w.callers[u]); }
    }
    forall u, v | 0 <= u < |after| && 0 <= v < |after| && u != v ensures Apart(after[u], after[v]) {
      if u != t && v != t { assert Apart(w.callers[u], w.callers[v]); }
    }
    OwnersStay(w, s, t, done);
  }

  // ----- the results -----

  lemma StepKeepsInv(w: World, e: Event)
    requires Inv(w) && Enabled(w, e)
    ensures Inv(Next(w, e))
  {
    hide Inv, Begun, Decided, Published, Owns;
    assert e.Arrive? || CallerFine(w.state, w.callers[e.t]) by { CallersFine(w); }
    match e
    case Arrive(ref) => CallerArrives(w, ref);
    case Enter(t) => EnterKeepsInv(w, t);
    case Complete(t, o) => CompleteKeepsInv(w, t, o);
    case Reject(t) => CallerMoves(w, t, Returned(w.callers[t].ref, Failure(false)));
    case Wake(t) => CallerMoves(w, t, Woken(w.state, w.callers[t]));
    case Retry(t) => CallerMoves(w, t, Entering(w.callers[t].ref));
    case GiveUp(t) => CallerMoves(w, t, Returned(w.callers[t].ref, Failure(true)));
    case Retain(t, ok) =>
      CallerMoves(w, t, Returned(w.callers[t].ref, if ok then Success(w.callers[t].answer) else Failure(false)));
  }

  lemma CallersFine(w: World)
    requires Inv(w)
    ensures forall t :: 0 <= t < |w.callers| ==> CallerFine(w.state, w.callers[t])
  {
  }

  lemma {:induction false} RunsKeepInv(run: seq<World>, events: seq<Event>, n: nat)
    requires IsRun(run, events) && n < |run|
    ensures Inv(run[n])
  {
    if n == 0 {
    } else {
      hide Inv;
      RunsKeepInv(run, events, n - 1);
      StepKeepsInv(run[n - 1], events[n - 1]);
    }
  }

  /** A pin, once written, is never changed. */
  lemma StepKeepsPins(w: World, e: Event)
    requires Inv(w) && Enabled(w, e)
    ensures forall r :: r in w.state.pins ==> r in Next(w, e).state.pins && Next(w, e).state.pins[r] == w.state.pins[r]
  {
    hide StateFine, Owned, KeyOf, RepositoryOf;
    if e.Complete? { assert CallerFine(w.state, w.callers[e.t]); }
  }

  lemma {:induction false} PinsWrittenOnce(run: seq<World>, events: seq<Event>, m: nat, n: nat)
    requires IsRun(run, events) && m <= n < |run|
    ensures forall r :: r in run[m].state.pins ==>
        r in run[n].state.pins && run[n].state.pins[r] == run[m].state.pins[r]
    decreases n
  {
    hide Inv;
    if m < n {
      PinsWrittenOnce(run, events, m, n - 1);
      RunsKeepInv(run, events, n - 1);
      StepKeepsPins(run[n - 1], events[n - 1]);
    }
  }

  // ----- what the callers see -----

  const DEFAULT_SERVER := "https://github.com"

  /** The same server; no URL is the default server. */
  predicate SameServer(a: string, b: string) {
    a == b || (a in {"", DEFAULT_SERVER} && b in {"", DEFAULT_SERVER})
  }

  /** The same characters, but for the case of ASCII letters. */
  predicate SameLetters(s: string, t: string) {
    |s| == |t| && forall i :: 0 <= i < |s| ==>
      s[i] == t[i] ||
      ('A' <= s[i] <= 'Z' && t[i] as int == s[i] as int + 32) || ('A' <= t[i] <= 'Z' && s[i] as int == t[i] as int + 32)
  }

  predicate SameRepository(a: Reference, b: Reference) {
    SameServer(a.serverURL, b.serverURL) && SameLetters(a.owner + "/" + a.repository, b.owner + "/" + b.repository) &&
    a.ref == b.ref
  }

  predicate SameFetch(a: Reference, b: Reference) {
    SameRepository(a, b) && a.path == b.path && a.repositoryRoot == b.repositoryRoot
  }

  predicate SameSource(a: Answer, b: Answer) {
    SameServer(a.serverURL, b.serverURL) && a.commit == b.commit && a.digest == b.digest
  }

  /** The server, commit and digest of the answer are those of the pin. */
  predicate MeetsPin(a: Answer, pin: Pin) {
    pin.serverURL == (if a.serverURL == "" then DEFAULT_SERVER else a.serverURL) &&
    pin.commit == a.commit && pin.digest == a.digest
  }

  lemma LowerExactly(s: string, t: string)
    ensures ToLower(s) == ToLower(t) <==> SameLetters(s, t)
  {
    if ToLower(s) == ToLower(t) {
      assert |s| == |ToLower(s)| == |t|;
      forall i | 0 <= i < |s| ensures LowerChar(s[i]) == LowerChar(t[i]) {
        assert ToLower(s)[i] == ToLower(t)[i];
      }
    }
  }

  lemma ServerExactly(a: string, b: string)
    ensures ServerURL(a) == ServerURL(b) <==> SameServer(a, b)
  {
  }

  /** Two references share a pin exactly if they name one repository and ref, and a call if they ask for the same. */
  lemma KeysExactly(a: Reference, b: Reference)
    ensures RepositoryOf(a) == RepositoryOf(b) <==> SameRepository(a, b)
    ensures KeyOf(a) == KeyOf(b) <==> SameFetch(a, b)
  {
    hide ToLower, SameLetters, ServerURL, SameServer;
    LowerExactly(a.owner + "/" + a.repository, b.owner + "/" + b.repository);
    ServerExactly(a.serverURL, b.serverURL);
  }

  lemma PinExactly(a: Answer, b: Answer, pin: Pin)
    ensures PinOf(a) == PinOf(b) <==> SameSource(a, b)
    ensures PinOf(a) == pin <==> MeetsPin(a, pin)
  {
    ServerExactly(a.serverURL, b.serverURL);
  }

  /** Any two successful fetches of one repository and ref, by whichever callers and at whatever
      times, return the same server, commit and digest; and if the source started with a pin, that one. */
  lemma SuccessesAgree(run: seq<World>, events: seq<Event>, m: nat, n: nat, t: nat, u: nat)
    requires IsRun(run, events) && m <= n < |run| && t < |run[m].callers| && u < |run[n].callers|
    requires run[m].callers[t].Returned? && run[m].callers[t].outcome.Success?
    requires run[n].callers[u].Returned? && run[n].callers[u].outcome.Success?
    requires SameRepository(run[m].callers[t].ref, run[n].callers[u].ref)
    ensures SameSource(run[m].callers[t].outcome.answer, run[n].callers[u].outcome.answer)
    ensures var r := RepositoryOf(run[m].callers[t].ref);
            r in run[0].state.pins ==> MeetsPin(run[m].callers[t].outcome.answer, run[0].state.pins[r])
  {
    hide IsRun, RepositoryOf, PinOf, SameRepository, SameSource, MeetsPin;
    KeysExactly(run[m].callers[t].ref, run[n].callers[u].ref);
    var r := RepositoryOf(run[m].callers[t].ref);
    PinExactly(run[m].callers[t].outcome.answer, run[n].callers[u].outcome.answer,
               if r in run[0].state.pins then run[0].state.pins[r] else Pin("", "", ""));
    RunsKeepInv(run, events, m);
    RunsKeepInv(run, events, n);
    PinsWrittenOnce(run, events, m, n);
    PinsWrittenOnce(run, events, 0, m);
    assert CallerFine(run[m].state, run[m].callers[t]) && CallerFine(run[n].state, run[n].callers[u]);
  }

  /** A fetch that completes succeeds exactly if the real one did and the pin it started with, if any, is met;
      a first success becomes the pin. */
  lemma CompletedExactly(w: World, t: nat, o: Outcome)
    requires Enabled(w, Complete(t, o))
    ensures var c, v := w.callers[t], Next(w, Complete(t, o));
            && (v.callers[t] == Returned(c.ref, o) || v.callers[t] == Returned(c.ref, Failure(false)))
            && (v.callers[t].outcome.Success? <==> o.Success? && (c.pin.Some? ==> MeetsPin(o.answer, c.pin.value)))
            && (o.Success? && c.pin.None? ==>
                  RepositoryOf(c.ref) in v.state.pins && MeetsPin(o.answer, v.state.pins[RepositoryOf(c.ref)]))
  {
    hide MeetsPin, PinOf, RepositoryOf;
    if o.Success? {
      PinExactly(o.answer, o.answer, PinOf(o.answer));
      if w.callers[t].pin.Some? { PinExactly(o.answer, o.answer, w.callers[t].pin.value); }
    }
  }

  /** At most one real fetch is under way for a key, and for a repository that is not pinned. */
  lemma SingleFlight(run: seq<World>, events: seq<Event>, n: nat, t: nat, u: nat)
    requires IsRun(run, events) && n < |run| && t < |run[n].callers| && u < |run[n].callers| && t != u
    requires run[n].callers[t].Fetching? && run[n].callers[u].Fetching?
    ensures !SameFetch(run[n].callers[t].ref, run[n].callers[u].ref)
    ensures RepositoryOf(run[n].callers[t].ref) !in run[n].state.pins ==>
              !SameRepository(run[n].callers[t].ref, run[n].callers[u].ref)
  {
    hide IsRun, RepositoryOf, KeyOf, SameFetch, SameRepository;
    KeysExactly(run[n].callers[t].ref, run[n].callers[u].ref);
    RunsKeepInv(run, events, n);
    assert CallerFine(run[n].state, run[n].callers[t]) && Apart(run[n].callers[t], run[n].callers[u]);
  }

  /** The caller can go on without its own context being done. */
  predicate CanStep(w: World, t: nat)
    requires t < |w.callers|
  {
    var c := w.callers[t];
    c.Entering? || c.Fetching? || c.Retaining? || (!c.Returned? && Enabled(w, Wake(t)))
  }

  /** Whoever waits on a channel that is still open waits for a caller that is fetching and will close it. */
  lemma WaitersHaveOwners(run: seq<World>, events: seq<Event>, n: nat, t: nat)
    requires IsRun(run, events) && n < |run| && t < |run[n].callers|
    requires !run[n].callers[t].Returned? && !CanStep(run[n], t)
    ensures exists u ::
              && 0 <= u < |run[n].callers|
              && run[n].callers[u].Fetching? && ClosesFor(run[n].callers[u], run[n].callers[t])
  {
    hide IsRun, RepositoryOf, KeyOf;
    RunsKeepInv(run, events, n);
    var w := run[n];
    var c := w.callers[t];
    assert CallerFine(w.state, c);
    if c.OnCall? {
      assert HasOwner(w.callers, KeyOf(c.ref));
      var u :| 0 <= u < |w.callers| && Leads(w.callers[u], KeyOf(c.ref));
      assert CallerFine(w.state, w.callers[u]);
    } else {
      assert HasPinOwner(w.callers, RepositoryOf(c.ref));
      var u :| 0 <= u < |w.callers| && LeadsPin(w.callers[u], RepositoryOf(c.ref));
      assert CallerFine(w.state, w.callers[u]);
    }
  }

  /** Publishing by the one closes the channel that the other waits on. */
  predicate ClosesFor(owner: Caller, waiter: Caller) {
    owner.Fetching? &&
    ((waiter.OnCall? && owner.call == waiter.call && KeyOf(owner.ref) == KeyOf(waiter.ref)) ||
     (waiter.OnPin? && owner.call == waiter.channel && owner.pin.None? &&
       RepositoryOf(owner.ref) == RepositoryOf(waiter.ref)))
  }

  lemma OwnerWakesWaiter(w: World, t: nat, u: nat, o: Outcome)
    requires Inv(w) && t < |w.callers| && u < |w.callers| && ClosesFor(w.callers[u], w.callers[t])
    ensures Enabled(w, Complete(u, o)) && Enabled(Next(w, Complete(u, o)), Wake(t))
  {
    hide StateFine, Owned, KeyOf, RepositoryOf;
    assert CallerFine(w.state, w.callers[u]);
  }

  /** A failed fetch leaves nothing behind: the next caller of the key takes the lead again. */
  lemma FailuresAreNotKept(w: World, t: nat, o: Outcome, ref: Reference)
    requires Inv(w) && Enabled(w, Complete(t, o)) && Checked(w.callers[t].pin, o).Failure?
    requires KeyOf(ref) == KeyOf(w.callers[t].ref)
    ensures var s := Next(w, Complete(t, o)).state;
            s.cache == w.state.cache && s.pins == w.state.pins && Decided(s, ref).Lead?
  {
    hide StateFine, Owned, KeyOf, RepositoryOf;
    assert CallerFine(w.state, w.callers[t]);
    KeysName(ref);
    KeysName(w.callers[t].ref);
  }

  lemma CachedStays(w: World, e: Event, key: CallKey)
    requires Inv(w) && Enabled(w, e) && key in w.state.cache
    ensures key in Next(w, e).state.cache && Next(w, e).state.cache[key] == w.state.cache[key]
  {
    hide StateFine, Owned, KeyOf, RepositoryOf, Checked;
    if e.Complete? { assert CallerFine(w.state, w.callers[e.t]); }
  }

  lemma {:induction false} CacheGrows(run: seq<World>, events: seq<Event>, m: nat, n: nat, key: CallKey)
    requires IsRun(run, events) && m <= n < |run| && key in run[m].state.cache
    ensures key in run[n].state.cache && run[n].state.cache[key] == run[m].state.cache[key]
    decreases n
  {
    hide Inv, Enabled, Next;
    if m < n {
      CacheGrows(run, events, m, n - 1, key);
      RunsKeepInv(run, events, n - 1);
      CachedStays(run[n - 1], events[n - 1], key);
    }
  }

  /** After a fetch has succeeded, the source is never asked for the same again: whoever enters with a reference to it
      is given that answer. */
  lemma SuccessesAreKept(run: seq<World>, events: seq<Event>, m: nat, n: nat, t: nat, o: Outcome, u: nat)
    requires IsRun(run, events) && m < n < |events| && events[m] == Complete(t, o) && events[n] == Enter(u)
    requires t < |run[m + 1].callers| && run[m + 1].callers[t].Returned? && run[m + 1].callers[t].outcome.Success?
    requires u < |run[n].callers| && SameFetch(run[n].callers[u].ref, run[m].callers[t].ref)
    ensures u < |run[n + 1].callers|
    ensures run[n + 1].callers[u] == Retaining(run[n].callers[u].ref, run[m + 1].callers[t].outcome.answer)
    ensures run[n + 1].state == run[n].state
  {
    hide KeyOf, RepositoryOf, SameFetch, Inv, Checked;
    KeysExactly(run[n].callers[u].ref, run[m].callers[t].ref);
    assert run[m + 1] == Next(run[m], events[m]) && run[n + 1] == Next(run[n], events[n]);
    CacheGrows(run, events, m + 1, n, KeyOf(run[m].callers[t].ref));
  }

  // ----- pins from recorded locks -----

  datatype Lock = Lock(source: string, serverURL: string, repository: string, requestedRef: string, commit: string,
    sourceDigest: string)

  predicate Pinning(lock: Lock) {
    lock.source == "github" && lock.repository != "" && lock.requestedRef != "" && lock.commit != ""
  }

  function LockKey(lock: Lock): RepositoryKey {
    RepositoryKey(ServerURL(lock.serverURL), ToLower(lock.repository), lock.requestedRef)
  }

  function LockPin(lock: Lock): Pin {
    Pin(ServerURL(lock.serverURL), ToLower(lock.commit), lock.sourceDigest)
  }

  /** Locks of one repository and ref record one commit and digest. */
  ghost predicate LocksAgree(locks: seq<Lock>) {
    forall i, j ::
      0 <= i < j < |locks| && Pinning(locks[i]) && Pinning(locks[j]) && LockKey(locks[i]) == LockKey(locks[j]) ==>
        LockPin(locks[i]) == LockPin(locks[j])
  }

  ghost predicate PinsLocks(locks: seq<Lock>, pins: map<RepositoryKey, Pin>) {
    && (forall i :: 0 <= i < |locks| && Pinning(locks[i]) ==>
      LockKey(locks[i]) in pins && pins[LockKey(locks[i])] == LockPin(locks[i]))
    && (forall k :: k in pins ==> exists i :: 0 <= i < |locks| && Pinning(locks[i]) && LockKey(locks[i]) == k)
  }

  method NewPinnedSource(locks: seq<Lock>) returns (r: Result<map<RepositoryKey, Pin>>)
    ensures r.Ok? <==> LocksAgree(locks)
    ensures r.Ok? ==> PinsLocks(locks, r.value)
  {
    hide Pinning, LockKey, LockPin;
    var pins := map[];
    for i := 0 to |locks|
      invariant LocksAgree(locks[..i]) && PinsLocks(locks[..i], pins)
    {
      var lock := locks[i];
      assert locks[..i + 1] == locks[..i] + [lock];
      LocksGrow(locks[..i], lock, pins);
      if Pinning(lock) {
        if LockKey(lock) in pins && pins[LockKey(lock)] != LockPin(lock) {
          DisagreementStays(locks, i + 1);
          return Err("action locks pin a ref to two commits");
        }
        pins := pins[LockKey(lock) := LockPin(lock)];
      }
    }
    assert locks[..|locks|] == locks;
    r := Ok(pins);
  }

  /** The recorded lock is about what the reference names. */
  predicate LocksReference(lock: Lock, ref: Reference) {
    lock.source == "github" && lock.repository != "" && lock.requestedRef != "" && lock.commit != "" &&
    SameServer(lock.serverURL, ref.serverURL) && SameLetters(lock.repository, ref.owner + "/" + ref.repository) &&
    lock.requestedRef == ref.ref
  }

  /** With pins from recorded locks, whatever is fetched for a locked reference has the recorded commit and digest. */
  lemma LockedFetches(run: seq<World>, events: seq<Event>, locks: seq<Lock>, n: nat, t: nat, i: nat)
    requires IsRun(run, events) && PinsLocks(locks, run[0].state.pins) && n < |run| && t < |run[n].callers|
    requires i < |locks|
    requires run[n].callers[t].Returned? && run[n].callers[t].outcome.Success?
    requires LocksReference(locks[i], run[n].callers[t].ref)
    ensures var a := run[n].callers[t].outcome.answer;
            && SameServer(a.serverURL, locks[i].serverURL) && a.digest == locks[i].sourceDigest
            && SameLetters(a.commit, locks[i].commit)
            && forall k :: 0 <= k < |a.commit| ==> !('A' <= a.commit[k] <= 'Z')
  {
    hide IsRun, SameLetters, SameServer, ServerURL, ToLower, RepositoryOf, LockKey, LockPin, MeetsPin;
    var ref, a := run[n].callers[t].ref, run[n].callers[t].outcome.answer;
    LockKeyIs(locks[i], ref);
    KeysExactly(ref, ref);
    SameIsSame(ref);
    SuccessesAgree(run, events, n, n, t, t);
    LockPinMet(locks[i], a);
  }

  lemma SameIsSame(ref: Reference)
    ensures SameRepository(ref, ref)
  {
  }

  lemma LockKeyIs(lock: Lock, ref: Reference)
    requires LocksReference(lock, ref)
    ensures Pinning(lock) && LockKey(lock) == RepositoryOf(ref)
  {
    hide ToLower, SameLetters, ServerURL, SameServer;
    LowerExactly(lock.repository, ref.owner + "/" + ref.repository);
    ServerExactly(lock.serverURL, ref.serverURL);
  }

  lemma LockPinMet(lock: Lock, a: Answer)
    requires MeetsPin(a, LockPin(lock))
    ensures SameServer(a.serverURL, lock.serverURL) && a.digest == lock.sourceDigest
    ensures SameLetters(a.commit, lock.commit)
    ensures forall k :: 0 <= k < |a.commit| ==> !('A' <= a.commit[k] <= 'Z')
  {
    assert a.commit == ToLower(lock.commit);
  }

  lemma LocksGrow(locks: seq<Lock>, lock: Lock, pins: map<RepositoryKey, Pin>)
    requires LocksAgree(locks) && PinsLocks(locks, pins)
    ensures !Pinning(lock) ==> LocksAgree(locks + [lock]) && PinsLocks(locks + [lock], pins)
    ensures Pinning(lock) ==>
              (LocksAgree(locks + [lock]) <==> (LockKey(lock) in pins ==> pins[LockKey(lock)] == LockPin(lock)))
    ensures Pinning(lock) && LocksAgree(locks + [lock]) ==>
        PinsLocks(locks + [lock], pins[LockKey(lock) := LockPin(lock)])
  {
    hide Pinning, LockKey, LockPin, LocksAgree;
    var all := locks + [lock];
    OneMoreAgrees(locks, lock, pins);
    assert all[|locks|] == lock && forall i :: 0 <= i < |locks| ==> all[i] == locks[i];
    forall k | k in pins ensures exists i :: 0 <= i < |all| && Pinning(all[i]) && LockKey(all[i]) == k {
      var i :| 0 <= i < |locks| && Pinning(locks[i]) && LockKey(locks[i]) == k;
      assert all[i] == locks[i];
    }
  }

  lemma OneMoreAgrees(locks: seq<Lock>, lock: Lock, pins: map<RepositoryKey, Pin>)
    requires LocksAgree(locks) && PinsLocks(locks, pins)
    ensures LocksAgree(locks + [lock]) <==>
              (Pinning(lock) && LockKey(lock) in pins ==> pins[LockKey(lock)] == LockPin(lock))
  {
    hide Pinning, LockKey, LockPin;
    var all := locks + [lock];
    assert all[|locks|] == lock && forall i :: 0 <= i < |locks| ==> all[i] == locks[i];
    if Pinning(lock) && LockKey(lock) in pins && LocksAgree(all) {
      var i :| 0 <= i < |locks| && Pinning(locks[i]) && LockKey(locks[i]) == LockKey(lock);
      assert LockPin(all[i]) == LockPin(all[|locks|]);
    }
  }

  lemma DisagreementStays(locks: seq<Lock>, n: nat)
    requires n <= |locks| && !LocksAgree(locks[..n])
    ensures !LocksAgree(locks)
  {
    hide Pinning, LockKey, LockPin;
  }
}
