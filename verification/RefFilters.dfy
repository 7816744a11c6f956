/** Branch, tag and path filters: compiled to a build condition, and interpreted directly. */
module RefFilters {
  import opened Pipelines
  import opened Globs

  // ----- build conditions -----

  /** A quoted literal, null, or a field of the running build. */
  datatype Operand = Null | Text(s: string) | Field(name: string)

  datatype Cond =
    | Const(b: bool)
    | Given(predicate_: string)
    | Matches(value: Operand, atoms: seq<Atom>)
    | Equals(value: Operand, literal: string)
    | IsNull(value: Operand)
    | Not(c: Cond)
    | And(a: Cond, b1: Cond)
    | Or(c1: Cond, c2: Cond)

  /** A build: its fields, whether the given predicates hold, and what matching null yields, which
      nothing here depends on. */
  datatype Setting = Setting(field: string -> Option<string>, given: string -> bool, nullMatches: seq<Atom> -> bool)

  function ValueOf(e: Setting, o: Operand): Option<string> {
    match o
    case Null => None
    case Text(s) => Some(s)
    case Field(name) => e.field(name)
  }

  predicate Holds(cs: Classes, e: Setting, c: Cond) {
    match c
    case Const(b) => b
    case Given(p) => e.given(p)
    case Matches(o, atoms) => if ValueOf(e, o).Some? then Accepts(cs, atoms, ValueOf(e, o).value)
      else e.nullMatches(atoms)
    case Equals(o, literal) => ValueOf(e, o) == Some(literal)
    case IsNull(o) => ValueOf(e, o).None?
    case Not(c) => !Holds(cs, e, c)
    case And(a, b) => Holds(cs, e, a) && Holds(cs, e, b)
    case Or(a, b) => Holds(cs, e, a) || Holds(cs, e, b)
  }

  // ----- which filters are accepted -----

  predicate Negative(p: string) {
    p != "" && p[0] == '!'
  }

  function Bare(p: string): string {
    if Negative(p) then p[1..] else p
  }

  predicate Readable(cs: Classes, g: string, path: bool) {
    Parsed(cs, g, path, 0).Some?
  }

  /** A negative pattern comes after a positive one. */
  predicate PositiveBefore(ps: seq<string>, i: nat)
    requires i <= |ps|
  {
    exists j :: 0 <= j < i && !Negative(ps[j])
  }

  predicate IncludeOk(cs: Classes, ps: seq<string>) {
    forall i :: 0 <= i < |ps| ==>
      Bare(ps[i]) != "" && Readable(cs, Bare(ps[i]), false) && (Negative(ps[i]) ==> PositiveBefore(ps, i))
  }

  predicate ExcludeOk(cs: Classes, ps: seq<string>) {
    forall i :: 0 <= i < |ps| ==> !Negative(ps[i]) && Readable(cs, ps[i], false)
  }

  predicate FiltersOk(cs: Classes, included: Option<seq<string>>, ignored: Option<seq<string>>) {
    && !(included.Some? && ignored.Some?)
    && (included.Some? ==> IncludeOk(cs, included.value))
    && (ignored.Some? ==> ExcludeOk(cs, ignored.value))
  }

  predicate Configured(included: Option<seq<string>>, ignored: Option<seq<string>>) {
    included.Some? || ignored.Some?
  }

  // ----- the compiled filter -----

  /** state None stands for the empty condition that nothing has been added to. */
  function Applied(state: Option<Cond>, m: Cond, positive: bool): Option<Cond> {
    if positive then if state.None? then Some(m) else Some(Or(state.value, m))
    else if state.None? then Some(Not(m)) else Some(And(state.value, Not(m)))
  }

  function Pattern(cs: Classes, field: Operand, p: string): Cond {
    var atoms := Parsed(cs, Bare(p), false, 0);
    Matches(field, if atoms.Some? then atoms.value else [])
  }

  function Folded(cs: Classes, field: Operand, ps: seq<string>, included: bool, state: Option<Cond>): Option<Cond> {
    if ps == [] then state
    else
      var last := ps[|ps| - 1];
      Applied(Folded(cs, field, ps[..|ps| - 1], included, state), Pattern(cs, field, last), included && !Negative(last))
  }

  function FilterCond(cs: Classes, field: Operand, included: Option<seq<string>>,
                      ignored: Option<seq<string>>): Option<Cond> {
    if included.Some? then if included.value == [] then Some(Const(false))
      else Folded(cs, field, included.value, true, None)
    else if ignored.Some? then Folded(cs, field, ignored.value, false, Some(Const(true)))
    else None
  }

  method Apply(cs: Classes, field: Operand, state: Option<Cond>, p: string, positive: bool)
    returns (r: Result<Option<Cond>>)
    ensures r.Ok? <==> Readable(cs, p, false)
    ensures r.Ok? ==> r.value == Applied(state, Matches(field, Parsed(cs, p, false, 0).value), positive)
  {
    var glob := GithubGlob(cs, p, false);
    if glob.Err? {
      return Err(glob.reason);
    }
    r := Ok(Applied(state, Matches(field, glob.value), positive));
  }

  /** refFilters: the condition on the field, or an error; the verdict is exact. */
  method RefFilters(cs: Classes, field: Operand, included: Option<seq<string>>, ignored: Option<seq<string>>)
    returns (r: Result<Option<Cond>>)
    ensures r.Ok? <==> FiltersOk(cs, included, ignored)
    ensures r.Ok? ==> r.value == FilterCond(cs, field, included, ignored)
  {
    hide Readable, Pattern, PositiveBefore;
    if included.Some? && ignored.Some? {
      return Err("include and ignore filters cannot be combined");
    }
    if included.Some? {
      r := IncludeFilter(cs, field, included.value);
    } else if ignored.Some? {
      r := IgnoreFilter(cs, field, ignored.value);
    } else {
      r := Ok(None);
    }
  }

  method IncludeFilter(cs: Classes, field: Operand, ps: seq<string>) returns (r: Result<Option<Cond>>)
    ensures r.Ok? <==> IncludeOk(cs, ps)
    ensures r.Ok? ==> r.value == if ps == [] then Some(Const(false)) else Folded(cs, field, ps, true, None)
  {
    hide Readable, PositiveBefore, Folded, Pattern, Applied;
    var state: Option<Cond> := None;
    var positiveSeen := false;
    assert Folded(cs, field, [], true, None) == None && !PositiveBefore(ps, 0) by { NothingFolded(cs, field, ps); }
    assert ps[..0] == [];
    for i := 0 to |ps|
      invariant forall k :: 0 <= k < i ==>
                  Bare(ps[k]) != "" && Readable(cs, Bare(ps[k]), false) && (Negative(ps[k]) ==> PositiveBefore(ps, k))
      invariant state == Folded(cs, field, ps[..i], true, None)
      invariant positiveSeen == PositiveBefore(ps, i)
    {
      var positive := !Negative(ps[i]);
      var p := Bare(ps[i]);
      FoldOneMore(cs, field, ps, i);
      if p == "" || (!positive && !positiveSeen) {
        return Err("misplaced or empty pattern");
      }
      var applied := Apply(cs, field, state, p, positive);
      if applied.Err? {
        return Err(applied.reason);
      }
      PatternIs(cs, field, ps[i]);
      state := applied.value;
      positiveSeen := positiveSeen || positive;
    }
    assert ps[..|ps|] == ps;
    r := Ok(if ps == [] then Some(Const(false)) else state);
  }

  lemma NothingFolded(cs: Classes, field: Operand, ps: seq<string>)
    ensures Folded(cs, field, [], true, None) == None && !PositiveBefore(ps, 0)
  {
  }

  lemma FoldOneMore(cs: Classes, field: Operand, ps: seq<string>, i: nat)
    requires i < |ps|
    ensures Folded(cs, field, ps[..i + 1], true, None) ==
              Applied(Folded(cs, field, ps[..i], true, None), Pattern(cs, field, ps[i]), !Negative(ps[i]))
    ensures PositiveBefore(ps, i + 1) <==> PositiveBefore(ps, i) || !Negative(ps[i])
  {
    hide Pattern, Applied, Negative;
    LastIsApplied(cs, field, ps[..i + 1]);
    assert ps[..i + 1][..i] == ps[..i];
  }

  lemma LastIsApplied(cs: Classes, field: Operand, ps: seq<string>)
    requires ps != []
    ensures var last := ps[|ps| - 1];
            Folded(cs, field, ps, true, None) ==
              Applied(Folded(cs, field, ps[..|ps| - 1], true, None), Pattern(cs, field, last), !Negative(last))
  {
    hide Pattern, Applied, Negative;
  }

  lemma PatternIs(cs: Classes, field: Operand, p: string)
    requires Readable(cs, Bare(p), false)
    ensures Parsed(cs, Bare(p), false, 0).Some?
    ensures Pattern(cs, field, p) == Matches(field, Parsed(cs, Bare(p), false, 0).value)
  {
  }

  lemma FoldStarts(cs: Classes, field: Operand)
    ensures Folded(cs, field, [], false, Some(Const(true))) == Some(Const(true))
  {
  }

  lemma IgnoreOneMore(cs: Classes, field: Operand, ps: seq<string>, i: nat)
    requires i < |ps|
    ensures Folded(cs, field, ps[..i + 1], false, Some(Const(true))) ==
              Applied(Folded(cs, field, ps[..i], false, Some(Const(true))), Pattern(cs, field, ps[i]), false)
  {
    assert ps[..i + 1][..i] == ps[..i];
  }

  method IgnoreFilter(cs: Classes, field: Operand, ps: seq<string>) returns (r: Result<Option<Cond>>)
    ensures r.Ok? <==> ExcludeOk(cs, ps)
    ensures r.Ok? ==> r.value == Folded(cs, field, ps, false, Some(Const(true)))
  {
    hide Readable, Folded, Pattern, Applied;
    var state: Option<Cond> := Some(Const(true));
    assert ps[..0] == [] && Folded(cs, field, [], false, state) == state by { FoldStarts(cs, field); }
    for i := 0 to |ps|
      invariant forall k :: 0 <= k < i ==> !Negative(ps[k]) && Readable(cs, ps[k], false)
      invariant state == Folded(cs, field, ps[..i], false, Some(Const(true)))
    {
      IgnoreOneMore(cs, field, ps, i);
      if Negative(ps[i]) {
        return Err("ignore filter pattern cannot be negated");
      }
      var applied := Apply(cs, field, state, ps[i], false);
      if applied.Err? {
        return Err(applied.reason);
      }
      PatternIs(cs, field, ps[i]);
      state := applied.value;
    }
    assert ps[..|ps|] == ps;
    r := Ok(state);
  }

  // ----- the interpreted filter -----

  predicate Hits(cs: Classes, p: string, value: string, path: bool) {
    Readable(cs, Bare(p), path) && Accepts(cs, Parsed(cs, Bare(p), path, 0).value, value)
  }

  /** The last pattern that matches decides; if none does, only an ignore filter lets the value pass. */
  predicate Selected(cs: Classes, ps: seq<string>, value: string, including: bool, path: bool) {
    if ps == [] then !including
    else if Hits(cs, ps[|ps| - 1], value, path) then including && !Negative(ps[|ps| - 1])
    else Selected(cs, ps[..|ps| - 1], value, including, path)
  }

  /** The last match wins, said without going through the list. */
  lemma {:induction false} LastMatchWins(cs: Classes, ps: seq<string>, value: string, including: bool, path: bool)
    ensures Selected(cs, ps, value, including, path) <==>
              (including && exists i :: 0 <= i < |ps| && LastHit(cs, ps, value, path, i) && !Negative(ps[i])) ||
              (!including && forall i :: 0 <= i < |ps| ==> !Hits(cs, ps[i], value, path))
  {
    hide Hits, Negative;
    if ps != [] {
      var n := |ps| - 1;
      var front := ps[..n];
      LastMatchWins(cs, front, value, including, path);
      if Hits(cs, ps[n], value, path) {
        assert LastHit(cs, ps, value, path, n);
      } else {
        forall i | 0 <= i < n ensures LastHit(cs, ps, value, path, i) <==> LastHit(cs, front, value, path, i) {
          LastHitInFront(cs, ps, value, path, i);
        }
      }
    }
  }

  ghost predicate LastHit(cs: Classes, ps: seq<string>, value: string, path: bool, i: nat)
    requires i < |ps|
  {
    Hits(cs, ps[i], value, path) && forall j :: i < j < |ps| ==> !Hits(cs, ps[j], value, path)
  }

  lemma LastHitInFront(cs: Classes, ps: seq<string>, value: string, path: bool, i: nat)
    requires i < |ps| - 1 && !Hits(cs, ps[|ps| - 1], value, path)
    ensures LastHit(cs, ps, value, path, i) <==> LastHit(cs, ps[..|ps| - 1], value, path, i)
  {
    hide Hits;
    assert forall j :: 0 <= j < |ps| - 1 ==> ps[..|ps| - 1][j] == ps[j];
  }

  predicate RefSelected(cs: Classes, value: string, included: Option<seq<string>>, ignored: Option<seq<string>>) {
    if included.Some? then Selected(cs, included.value, value, true, false)
    else if ignored.Some? then Selected(cs, ignored.value, value, false, false)
    else true
  }

  /** refFilterMatches: validates as the compiled form does, then lets the last match decide. */
  method RefFilterMatches(cs: Classes, value: string, included: Option<seq<string>>, ignored: Option<seq<string>>)
    returns (r: Result<bool>)
    ensures r.Ok? <==> FiltersOk(cs, included, ignored)
    ensures r.Ok? ==> (r.value <==> RefSelected(cs, value, included, ignored))
  {
    hide Readable, Hits, Selected;
    var compiled := RefFilters(cs, Field("ref"), included, ignored);
    if compiled.Err? {
      return Err(compiled.reason);
    }
    if !Configured(included, ignored) {
      return Ok(true);
    }
    var patterns := if ignored.Some? then ignored.value else included.value;
    var matched := LastDecides(cs, patterns, value, included.Some?, false);
    r := Ok(matched);
  }

  /** Goes through the patterns; each that matches overrides what came before. */
  method LastDecides(cs: Classes, ps: seq<string>, value: string, including: bool, path: bool) returns (matched: bool)
    requires forall i :: 0 <= i < |ps| ==> Readable(cs, Bare(ps[i]), path)
    ensures matched <==> Selected(cs, ps, value, including, path)
  {
    hide Accepts;
    matched := !including;
    for i := 0 to |ps|
      invariant matched <==> Selected(cs, ps[..i], value, including, path)
    {
      assert ps[..i + 1][..i] == ps[..i];
      var glob := GithubGlob(cs, Bare(ps[i]), path);
      var hit := MatchString(cs, glob.value, value);
      if hit {
        matched := including && !Negative(ps[i]);
      }
    }
    assert ps[..|ps|] == ps;
  }

  /** Runs the regular expression: tries every split for its first piece. */
  method MatchString(cs: Classes, atoms: seq<Atom>, s: string) returns (ok: bool)
    ensures ok <==> Accepts(cs, atoms, s)
    decreases |atoms|
  {
    if atoms == [] {
      return s == "";
    }
    for k := 0 to |s| + 1
      invariant forall j :: 0 <= j < k ==> !(AtomMatches(cs, atoms[0], s[..j]) && Accepts(cs, atoms[1..], s[j..]))
    {
      if AtomMatches(cs, atoms[0], s[..k]) {
        var rest := MatchString(cs, atoms[1..], s[k..]);
        if rest {
          return true;
        }
      }
    }
    ok := false;
  }

  // ----- compiled and interpreted filters agree -----

  lemma {:induction false} FoldMeans(cs: Classes, e: Setting, field: Operand, value: string, ps: seq<string>,
                                     including: bool)
    requires ValueOf(e, field) == Some(value) && ps != []
    requires forall i :: 0 <= i < |ps| ==> Readable(cs, Bare(ps[i]), false)
    requires including ==> !Negative(ps[0])
    requires including || forall i :: 0 <= i < |ps| ==> !Negative(ps[i])
    ensures var c := Folded(cs, field, ps, including, if including then None else Some(Const(true)));
            c.Some? && (Holds(cs, e, c.value) <==> Selected(cs, ps, value, including, false))
  {
    hide Accepts, Readable, Pattern, Hits, Applied, Negative, Holds, Bare;
    var n := |ps| - 1;
    var start: Option<Cond> := if including then None else Some(Const(true));
    if n == 0 {
      assert ps[..0] == [];
      assert Folded(cs, field, ps[..0], including, start) == start;
      StartHolds(cs, e);
    } else {
      FoldMeans(cs, e, field, value, ps[..n], including);
    }
    PatternHolds(cs, e, field, value, ps[n]);
    AppliedMeans(cs, e, Folded(cs, field, ps[..n], including, start), Pattern(cs, field, ps[n]),
                 including && !Negative(ps[n]));
  }

  lemma StartHolds(cs: Classes, e: Setting)
    ensures Holds(cs, e, Const(true))
  {
  }

  lemma AppliedMeans(cs: Classes, e: Setting, state: Option<Cond>, m: Cond, positive: bool)
    ensures var c := Applied(state, m, positive);
            && c.Some?
            && (state.None? ==> (Holds(cs, e, c.value) <==> (positive <==> Holds(cs, e, m))))
            && (state.Some? ==> (Holds(cs, e, c.value) <==>
              if Holds(cs, e, m) then positive else Holds(cs, e, state.value)))
  {
  }

  lemma PatternHolds(cs: Classes, e: Setting, field: Operand, value: string, p: string)
    requires ValueOf(e, field) == Some(value) && Readable(cs, Bare(p), false)
    ensures Holds(cs, e, Pattern(cs, field, p)) <==> Hits(cs, p, value, false)
  {
    hide Accepts;
  }

  /** On every value that is there, the nested condition holds exactly when the list, read so that
      the last match wins, selects the value; also for empty lists. */
  lemma CompiledIsInterpreted(cs: Classes, e: Setting, field: Operand, value: string, included: Option<seq<string>>,
                              ignored: Option<seq<string>>)
    requires FiltersOk(cs, included, ignored) && Configured(included, ignored) && ValueOf(e, field) == Some(value)
    ensures FilterCond(cs, field, included, ignored).Some?
    ensures Holds(cs, e, FilterCond(cs, field, included, ignored).value) <==> RefSelected(cs, value, included, ignored)
  {
    hide Accepts, Readable, Hits;
    if included.Some? {
      if included.value != [] {
        FirstIsPositive(cs, included.value);
        FoldMeans(cs, e, field, value, included.value, true);
      }
    } else if ignored.value != [] {
      assert forall i :: 0 <= i < |ignored.value| ==> Bare(ignored.value[i]) == ignored.value[i];
      FoldMeans(cs, e, field, value, ignored.value, false);
    }
  }

  lemma FirstIsPositive(cs: Classes, ps: seq<string>)
    requires IncludeOk(cs, ps) && ps != []
    ensures !Negative(ps[0])
  {
    assert !PositiveBefore(ps, 0);
  }

  // ----- path filters -----

  /** lint stands for the glob linter that path patterns have to pass as well. */
  predicate PathOk(cs: Classes, lint: string -> bool, p: string) {
    Bare(p) != "" && '\\' !in Bare(p) && lint(Bare(p)) && Readable(cs, Bare(p), true)
  }

  predicate PathFiltersOk(cs: Classes, lint: string -> bool, included: Option<seq<string>>,
                          ignored: Option<seq<string>>) {
    && !(included.Some? && ignored.Some?)
    && (included.Some? ==> forall i :: 0 <= i < |included.value| ==>
          PathOk(cs, lint, included.value[i]) && (Negative(included.value[i]) ==> PositiveBefore(included.value, i)))
    && (ignored.Some? ==> forall i :: 0 <= i < |ignored.value| ==>
          PathOk(cs, lint, ignored.value[i]) && !Negative(ignored.value[i]))
  }

  /** Some changed path is selected. */
  predicate PathsSelected(cs: Classes, paths: seq<string>, included: Option<seq<string>>,
                          ignored: Option<seq<string>>) {
    var ps := if ignored.Some? then ignored.value else if included.Some? then included.value else [];
    exists i :: 0 <= i < |paths| && Selected(cs, ps, paths[i], ignored.None?, true)
  }

  method PathFiltersMatch(cs: Classes, lint: string -> bool, paths: seq<string>, included: Option<seq<string>>,
                          ignored: Option<seq<string>>)
    returns (r: Result<bool>)
    ensures r.Ok? <==> PathFiltersOk(cs, lint, included, ignored)
    ensures r.Ok? ==> (r.value <==> PathsSelected(cs, paths, included, ignored))
  {
    hide Readable, PathOk, Selected;
    if included.Some? && ignored.Some? {
      return Err("include and ignore filters cannot be combined");
    }
    var patterns := if ignored.Some? then ignored.value else if included.Some? then included.value else [];
    var positiveSeen := false;
    for i := 0 to |patterns|
      invariant positiveSeen == (included.Some? && PositiveBefore(patterns, i))
      invariant forall k :: 0 <= k < i ==> PathOk(cs, lint, patterns[k])
      invariant forall k :: 0 <= k < i && Negative(patterns[k]) ==> included.Some? && PositiveBefore(patterns, k)
    {
      var negated := Negative(patterns[i]);
      if (negated && ignored.Some?) || !PathOk(cs, lint, patterns[i]) || (negated && !positiveSeen) {
        return Err("invalid path filter");
      }
      positiveSeen := positiveSeen || (included.Some? && !negated);
    }
    PathsReadable(cs, lint, patterns);
    for i := 0 to |paths|
      invariant forall k :: 0 <= k < i ==> !Selected(cs, patterns, paths[k], ignored.None?, true)
    {
      var matched := LastDecides(cs, patterns, paths[i], ignored.None?, true);
      if matched {
        return Ok(true);
      }
    }
    r := Ok(false);
  }

  lemma PathsReadable(cs: Classes, lint: string -> bool, ps: seq<string>)
    requires forall k :: 0 <= k < |ps| ==> PathOk(cs, lint, ps[k])
    ensures forall k :: 0 <= k < |ps| ==> Readable(cs, Bare(ps[k]), true)
  {
  }
}
