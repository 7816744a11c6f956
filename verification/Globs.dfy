/** githubGlob: a GitHub filter glob becomes an anchored regular expression. */
module Globs {
  import opened Pipelines

  /** One character position: a literal character, or a character class by its source text. */
  datatype Unit = Literal(c: char) | Class(text: string)

  /** The pieces of the regular expression. Star: not across "/". Any: one line. All: anything.
      Directories: nothing, or anything that ends in "/". */
  datatype Atom = One(u: Unit) | Optional(u: Unit) | Repeated(u: Unit) | Star | Any | All | Directories

  /** Which bracket expressions the regexp package compiles, and what they then contain. */
  datatype Classes = Classes(compiles: string -> bool, has: (string, char) -> bool)

  predicate UnitHas(cs: Classes, u: Unit, c: char) {
    match u
    case Literal(l) => l == c
    case Class(text) => cs.has(text, c)
  }

  /** The strings that one piece of the regular expression matches. */
  predicate AtomMatches(cs: Classes, a: Atom, s: string) {
    match a
    case One(u) => |s| == 1 && UnitHas(cs, u, s[0])
    case Optional(u) => s == "" || (|s| == 1 && UnitHas(cs, u, s[0]))
    case Repeated(u) => s != "" && forall i :: 0 <= i < |s| ==> UnitHas(cs, u, s[i])
    case Star => '/' !in s
    case Any => '\n' !in s
    case All => true
    case Directories => s == "" || s[|s| - 1] == '/'
  }

  /** The whole string is a concatenation of matches of the pieces, in order. */
  predicate Accepts(cs: Classes, atoms: seq<Atom>, s: string) {
    if atoms == [] then s == ""
    else exists k :: 0 <= k <= |s| && AtomMatches(cs, atoms[0], s[..k]) && Accepts(cs, atoms[1..], s[k..])
  }

  // ----- reading a glob -----

  predicate AsciiAlphanumeric(c: char) {
    '0' <= c <= '9' || 'A' <= c <= 'Z' || 'a' <= c <= 'z'
  }

  predicate SameRange(left: char, right: char) {
    '0' <= left <= right <= '9' || 'A' <= left <= right <= 'Z' || 'a' <= left <= right <= 'z'
  }

  predicate ValidInClass(class_: string, i: nat)
    requires i < |class_|
  {
    AsciiAlphanumeric(class_[i]) ||
    (class_[i] == '-' && 0 < i < |class_| - 1 && SameRange(class_[i - 1], class_[i + 1]))
  }

  predicate ValidPathClass(class_: string) {
    class_ != "" && forall i :: 0 <= i < |class_| ==> ValidInClass(class_, i)
  }

  /** The place of the bracket that closes a class opened before i, or the length. */
  function ClassEnd(g: string, i: nat): (j: nat)
    requires i <= |g|
    ensures i <= j <= |g| && (j < |g| ==> g[j] == ']')
    decreases |g| - i
  {
    if i == |g| || g[i] == ']' then i else ClassEnd(g, i + 1)
  }

  /** One token of a glob: a piece and where the next token starts. */
  datatype Token = Token(atom: Atom, next: nat) | Malformed

  predicate SegmentStart(g: string, i: nat)
    requires i < |g|
  {
    i == 0 || g[i - 1] == '/'
  }

  function TokenAt(cs: Classes, g: string, path: bool, i: nat): (t: Token)
    requires i < |g|
    ensures t.Token? ==> i < t.next <= |g|
  {
    var c := g[i];
    if c == '\\' then
      if i + 1 < |g| then Token(One(Literal(g[i + 1])), i + 2) else Malformed
    else if c == '*' then
      if i + 1 < |g| && g[i + 1] == '*' then
        if path && SegmentStart(g, i) && i + 2 < |g| && g[i + 2] == '/' then Token(Directories, i + 3)
        else if path then Token(All, i + 2)
        else Token(Any, i + 2)
      else Token(Star, i + 1)
    else if c == '[' then
      var j := ClassEnd(g, i + 1);
      if j == |g| || (path && !ValidPathClass(g[i + 1..j])) || !cs.compiles(g[i..j + 1]) then Malformed
      else Token(One(Class(g[i..j + 1])), j + 1)
    else if c == '?' || c == '+' then Malformed
    else Token(One(Literal(c)), i + 1)
  }

  // ----- the direct reading of a glob -----

  /** The bracket at i is closed at j. */
  predicate Closes(g: string, i: nat, j: nat) {
    i < j < |g| && g[j] == ']' && forall k :: i < k < j ==> g[k] != ']'
  }

  /** The characters from i to n stand for one character: an escape, a class, or a plain character. */
  predicate Span(g: string, i: nat, n: nat)
    requires i < |g|
  {
    if g[i] == '\\' then n == i + 2 <= |g|
    else if g[i] == '[' then n > 0 && Closes(g, i, n - 1)
    else n == i + 1 && g[i] != '*' && g[i] != '?' && g[i] != '+'
  }

  predicate SpanHas(cs: Classes, g: string, i: nat, n: nat, c: char)
    requires i < n <= |g| && (g[i] == '\\' ==> i + 1 < |g|)
  {
    if g[i] == '\\' then c == g[i + 1]
    else if g[i] == '[' then cs.has(g[i..n], c)
    else c == g[i]
  }

  predicate DoubleStar(g: string, i: nat)
    requires i < |g|
  {
    g[i] == '*' && i + 1 < |g| && g[i + 1] == '*'
  }

  /** A "**" followed by "/" where a segment of a path begins. */
  predicate LeadingStars(g: string, path: bool, i: nat)
    requires i < |g|
  {
    path && DoubleStar(g, i) && i + 2 < |g| && g[i + 2] == '/' && (i == 0 || g[i - 1] == '/')
  }

  /** One character of the position from i to n, then the glob from next on. */
  ghost predicate OnceThen(cs: Classes, g: string, path: bool, i: nat, n: nat, next: nat, s: string)
    requires i < n <= next <= |g| && Span(g, i, n)
    decreases |g| - next, |s|, 0
  {
    s != "" && SpanHas(cs, g, i, n, s[0]) && GlobMatches(cs, g, path, next, s[1..])
  }

  /** One or more characters of the position, then the glob from next on. */
  ghost predicate OftenThen(cs: Classes, g: string, path: bool, i: nat, n: nat, next: nat, s: string)
    requires i < n <= next <= |g| && Span(g, i, n)
    decreases |g| - next, |s|, 1
  {
    s != "" && SpanHas(cs, g, i, n, s[0]) &&
    (GlobMatches(cs, g, path, next, s[1..]) || OftenThen(cs, g, path, i, n, next, s[1..]))
  }

  /** Reads the glob character by character from place i against the string: "*" stops at "/", "**" does not (and in
      a ref stops at a line end only), a leading "**" with a slash may be absent, "?" and "+" say how often the
      character before them may occur. */
  ghost predicate GlobMatches(cs: Classes, g: string, path: bool, i: nat, s: string)
    requires i <= |g|
    decreases |g| - i, |s|
  {
    if i == |g| then s == ""
    else if LeadingStars(g, path, i) then
      GlobMatches(cs, g, path, i + 3, s) ||
      exists k :: 0 < k <= |s| && s[k - 1] == '/' && GlobMatches(cs, g, path, i + 3, s[k..])
    else if DoubleStar(g, i) then
      exists k :: 0 <= k <= |s| && (path || '\n' !in s[..k]) && GlobMatches(cs, g, path, i + 2, s[k..])
    else if g[i] == '*' then
      exists k :: 0 <= k <= |s| && '/' !in s[..k] && GlobMatches(cs, g, path, i + 1, s[k..])
    else
      exists n :: i < n <= |g| && Span(g, i, n) &&
        if n < |g| && g[n] == '?' then
          GlobMatches(cs, g, path, n + 1, s) || OnceThen(cs, g, path, i, n, n + 1, s)
        else if n < |g| && g[n] == '+' then OftenThen(cs, g, path, i, n, n + 1, s)
        else OnceThen(cs, g, path, i, n, n, s)
  }

  /** A letter, a digit, or a range from one digit to another or from one letter to another of the same case. */
  predicate PlainAt(g: string, i: nat, j: nat, k: int)
    requires i < k < j < |g|
  {
    ('0' <= g[k] <= '9' || 'A' <= g[k] <= 'Z' || 'a' <= g[k] <= 'z') ||
    (g[k] == '-' && i + 1 < k < j - 1 && g[k - 1] <= g[k + 1] &&
     (('0' <= g[k - 1] && g[k + 1] <= '9') ||
      ('A' <= g[k - 1] && g[k + 1] <= 'Z') ||
      ('a' <= g[k - 1] && g[k + 1] <= 'z')))
  }

  /** A class that a path may use: not empty, and plain at every place. */
  predicate PlainClass(g: string, i: nat, j: nat)
    requires i < j < |g|
  {
    j > i + 1 &&
    forall k :: i < k < j ==> PlainAt(g, i, j, k)
  }

  /** From place i on no escape is cut off, every class is closed and fine, and "?" and "+" follow a position. */
  predicate WellFormed(cs: Classes, g: string, path: bool, i: nat)
    requires i <= |g|
    decreases |g| - i
  {
    if i == |g| then true
    else if LeadingStars(g, path, i) then WellFormed(cs, g, path, i + 3)
    else if DoubleStar(g, i) then WellFormed(cs, g, path, i + 2)
    else if g[i] == '*' then WellFormed(cs, g, path, i + 1)
    else
      exists n :: i < n <= |g| && Span(g, i, n) &&
        (g[i] == '[' ==> (path ==> PlainClass(g, i, n - 1)) && cs.compiles(g[i..n])) &&
        WellFormed(cs, g, path, if n < |g| && (g[n] == '?' || g[n] == '+') then n + 1 else n)
  }

  lemma {:induction false} ClassEndCloses(g: string, i: nat, k: nat)
    requires i < k <= |g| && forall m :: i < m < k ==> g[m] != ']'
    ensures ClassEnd(g, k) < |g| ==> Closes(g, i, ClassEnd(g, k))
    ensures ClassEnd(g, k) == |g| ==> forall j :: !Closes(g, i, j)
    decreases |g| - k
  {
    if k < |g| && g[k] != ']' { ClassEndCloses(g, i, k + 1); }
  }

  lemma OneSpan(g: string, i: nat, m: nat, n: nat)
    requires i < |g| && Span(g, i, m) && Span(g, i, n)
    ensures m == n
  {
  }

  lemma PlainAtIsValid(g: string, i: nat, j: nat, k: nat)
    requires i < k < j < |g|
    ensures ValidInClass(g[i + 1..j], k - i - 1) <==> PlainAt(g, i, j, k)
  {
    var c, m := g[i + 1..j], k - i - 1;
    assert c[m] == g[k];
    if 0 < m < |c| - 1 { assert c[m - 1] == g[k - 1] && c[m + 1] == g[k + 1]; }
  }

  lemma PlainIsValid(g: string, i: nat, j: nat)
    requires i < j < |g|
    ensures ValidPathClass(g[i + 1..j]) <==> PlainClass(g, i, j)
  {
    hide PlainAt, ValidInClass;
    var c := g[i + 1..j];
    if ValidPathClass(c) {
      forall k | i < k < j ensures PlainAt(g, i, j, k) {
        PlainAtIsValid(g, i, j, k);
        assert ValidInClass(c, k - i - 1);
      }
    }
    if PlainClass(g, i, j) {
      forall m | 0 <= m < |c| ensures ValidInClass(c, m) {
        PlainAtIsValid(g, i, j, m + i + 1);
        assert PlainAt(g, i, j, m + i + 1);
      }
    }
  }

  /** What the tokenizer makes of the characters at place i. */
  lemma TokenIs(cs: Classes, g: string, path: bool, i: nat)
    requires i < |g|
    ensures var t := TokenAt(cs, g, path, i);
            if LeadingStars(g, path, i) then t == Token(Directories, i + 3)
            else if DoubleStar(g, i) then t == Token(if path then All else Any, i + 2)
            else if g[i] == '*' then t == Token(Star, i + 1)
            else if t.Malformed? then
              forall n :: i < n <= |g| && Span(g, i, n) ==>
                g[i] == '[' && ((path && !PlainClass(g, i, n - 1)) || !cs.compiles(g[i..n]))
            else
              && t.atom.One? && Span(g, i, t.next)
              && (g[i] == '[' ==> (path ==> PlainClass(g, i, t.next - 1)) && cs.compiles(g[i..t.next]))
              && forall c :: UnitHas(cs, t.atom.u, c) <==> SpanHas(cs, g, i, t.next, c)
  {
    hide ValidPathClass, PlainClass, ClassEnd;
    if g[i] == '[' {
      var j := ClassEnd(g, i + 1);
      ClassEndCloses(g, i, i + 1);
      if j < |g| {
        PlainIsValid(g, i, j);
        forall n | Span(g, i, n) ensures n == j + 1 { OneSpan(g, i, n, j + 1); }
      }
    }
  }

  // ----- the pieces of a whole glob -----

  function Modified(u: Unit, c: char): Atom {
    if c == '?' then Optional(u) else Repeated(u)
  }

  predicate Modifier(c: char) {
    c == '?' || c == '+'
  }

  /** The pieces from place i on. */
  function Parsed(cs: Classes, g: string, path: bool, i: nat): Option<seq<Atom>>
    requires i <= |g|
    decreases |g| - i
  {
    if i == |g| then Some([])
    else
      var t := TokenAt(cs, g, path, i);
      if t.Malformed? then None
      else if t.atom.One? && t.next < |g| && Modifier(g[t.next]) then
        Prepend(Modified(t.atom.u, g[t.next]), Parsed(cs, g, path, t.next + 1))
      else Prepend(t.atom, Parsed(cs, g, path, t.next))
  }

  function Prepend(a: Atom, rest: Option<seq<Atom>>): Option<seq<Atom>> {
    if rest.Some? then Some([a] + rest.value) else None
  }

  function Join(front: seq<Atom>, rest: Option<seq<Atom>>): Option<seq<Atom>> {
    if rest.Some? then Some(front + rest.value) else None
  }

  /** What the loop will end with when it has the pieces so far and stands at place i, where a
      modifier may still change the last piece. */
  function Resumed(cs: Classes, g: string, path: bool, atoms: seq<Atom>, i: nat): Option<seq<Atom>>
    requires i <= |g|
  {
    if i < |g| && Modifier(g[i]) then
      if atoms != [] && atoms[|atoms| - 1].One? then
        Join(atoms[..|atoms| - 1] + [Modified(atoms[|atoms| - 1].u, g[i])], Parsed(cs, g, path, i + 1))
      else None
    else Join(atoms, Parsed(cs, g, path, i))
  }

  lemma ResumeToken(cs: Classes, g: string, path: bool, atoms: seq<Atom>, i: nat)
    requires i < |g| && !Modifier(g[i])
    ensures var t := TokenAt(cs, g, path, i);
            Resumed(cs, g, path, atoms, i) == if t.Malformed? then None
              else Resumed(cs, g, path, atoms + [t.atom], t.next)
  {
    var t := TokenAt(cs, g, path, i);
    if t.Token? {
      var more := atoms + [t.atom];
      assert more[..|more| - 1] == atoms && more[|more| - 1] == t.atom;
      if t.next < |g| && Modifier(g[t.next]) {
        if t.atom.One? {
          var rest := Parsed(cs, g, path, t.next + 1);
          if rest.Some? {
            assert atoms + ([Modified(t.atom.u, g[t.next])] + rest.value) ==
              (atoms + [Modified(t.atom.u, g[t.next])]) + rest.value;
          }
        } else {
          assert TokenAt(cs, g, path, t.next).Malformed?;
          assert Parsed(cs, g, path, t.next).None?;
        }
      } else {
        var rest := Parsed(cs, g, path, t.next);
        if rest.Some? { assert atoms + ([t.atom] + rest.value) == more + rest.value; }
      }
    }
  }

  lemma ResumeModifier(cs: Classes, g: string, path: bool, atoms: seq<Atom>, i: nat)
    requires i < |g| && Modifier(g[i]) && atoms != [] && atoms[|atoms| - 1].One?
    ensures var changed := atoms[..|atoms| - 1] + [Modified(atoms[|atoms| - 1].u, g[i])];
            Resumed(cs, g, path, atoms, i) == Resumed(cs, g, path, changed, i + 1)
  {
    var changed := atoms[..|atoms| - 1] + [Modified(atoms[|atoms| - 1].u, g[i])];
    if i + 1 < |g| && Modifier(g[i + 1]) {
      assert TokenAt(cs, g, path, i + 1).Malformed?;
    }
  }

  /** The loop over the glob, which rewrites the last piece in place when it meets a modifier. */
  method GithubGlob(cs: Classes, g: string, path: bool) returns (r: Result<seq<Atom>>)
    ensures r.Ok? <==> Parsed(cs, g, path, 0).Some?
    ensures r.Ok? <==> WellFormed(cs, g, path, 0)
    ensures r.Ok? ==> forall s: string :: Accepts(cs, r.value, s) <==> GlobMatches(cs, g, path, 0, s)
    ensures r.Ok? ==> r.value == Parsed(cs, g, path, 0).value
  {
    hide Resumed, Parsed, WellFormed, Accepts, GlobMatches;
    ParsedExactly(cs, g, path, 0);
    var atoms: seq<Atom> := [];
    var i := 0;
    ResumeStarts(cs, g, path);
    while i < |g|
      invariant i <= |g|
      invariant Resumed(cs, g, path, atoms, i) == Parsed(cs, g, path, 0)
    {
      var c := g[i];
      if c == '?' || c == '+' {
        ResumeFails(cs, g, path, atoms, i);
        if atoms == [] || !atoms[|atoms| - 1].One? {
          return Err("invalid modifier");
        }
        ResumeModifier(cs, g, path, atoms, i);
        atoms := atoms[..|atoms| - 1] + [Modified(atoms[|atoms| - 1].u, c)];
        i := i + 1;
      } else {
        ResumeToken(cs, g, path, atoms, i);
        var t := TokenAt(cs, g, path, i);
        if t.Malformed? {
          return Err("invalid glob");
        }
        atoms := atoms + [t.atom];
        i := t.next;
      }
    }
    ResumeEnds(cs, g, path, atoms);
    forall s: string ensures Accepts(cs, atoms, s) <==> GlobMatches(cs, g, path, 0, s) {
      GlobMeaning(cs, g, path, 0, s);
    }
    r := Ok(atoms);
  }

  lemma ResumeStarts(cs: Classes, g: string, path: bool)
    ensures Resumed(cs, g, path, [], 0) == Parsed(cs, g, path, 0)
  {
    if g != "" && Modifier(g[0]) {
      assert TokenAt(cs, g, path, 0).Malformed?;
    } else if Parsed(cs, g, path, 0).Some? {
      assert [] + Parsed(cs, g, path, 0).value == Parsed(cs, g, path, 0).value;
    }
  }

  lemma ResumeFails(cs: Classes, g: string, path: bool, atoms: seq<Atom>, i: nat)
    requires i < |g| && Modifier(g[i])
    ensures (atoms == [] || !atoms[|atoms| - 1].One?) ==> Resumed(cs, g, path, atoms, i).None?
  {
  }

  lemma ResumeEnds(cs: Classes, g: string, path: bool, atoms: seq<Atom>)
    ensures Resumed(cs, g, path, atoms, |g|) == Some(atoms)
  {
    assert Parsed(cs, g, path, |g|) == Some([]);
    assert atoms + [] == atoms;
  }

  // ----- the pieces mean what the glob says -----

  lemma SplitFirst(cs: Classes, a: Atom, rest: seq<Atom>, s: string)
    ensures Accepts(cs, [a] + rest, s) <==>
              exists k :: 0 <= k <= |s| && AtomMatches(cs, a, s[..k]) && Accepts(cs, rest, s[k..])
  {
    assert ([a] + rest)[1..] == rest;
  }

  lemma OneFirst(cs: Classes, u: Unit, rest: seq<Atom>, s: string)
    ensures Accepts(cs, [One(u)] + rest, s) <==> s != "" && UnitHas(cs, u, s[0]) && Accepts(cs, rest, s[1..])
  {
    hide Accepts, UnitHas;
    SplitFirst(cs, One(u), rest, s);
    if s != "" { assert s[..1] == [s[0]]; }
  }

  lemma OptionalFirst(cs: Classes, u: Unit, rest: seq<Atom>, s: string)
    ensures Accepts(cs, [Optional(u)] + rest, s) <==>
              Accepts(cs, rest, s) || (s != "" && UnitHas(cs, u, s[0]) && Accepts(cs, rest, s[1..]))
  {
    hide Accepts, UnitHas;
    SplitFirst(cs, Optional(u), rest, s);
    assert s[..0] == "" && s[0..] == s;
    if s != "" { assert s[..1] == [s[0]]; }
  }

  lemma RepeatedFirst(cs: Classes, u: Unit, rest: seq<Atom>, s: string)
    ensures Accepts(cs, [Repeated(u)] + rest, s) <==>
              s != "" && UnitHas(cs, u, s[0]) && (Accepts(cs, rest, s[1..]) ||
                Accepts(cs, [Repeated(u)] + rest, s[1..]))
  {
    hide Accepts, UnitHas;
    SplitFirst(cs, Repeated(u), rest, s);
    if s != "" {
      SplitFirst(cs, Repeated(u), rest, s[1..]);
      assert s[..1] == [s[0]];
      forall k | 1 < k <= |s| ensures s[..k] == [s[0]] + s[1..][..k - 1] && s[1..][k - 1..] == s[k..] { }
      if k :| 0 <= k <= |s| && AtomMatches(cs, Repeated(u), s[..k]) && Accepts(cs, rest, s[k..]) {
        assert s[..k][0] == s[0];
        if k > 1 { TailRepeats(cs, u, s[0], s[1..][..k - 1]); }
      }
      if UnitHas(cs, u, s[0]) {
        if k :| 0 <= k <= |s[1..]| && AtomMatches(cs, Repeated(u), s[1..][..k]) && Accepts(cs, rest, s[1..][k..]) {
          TailRepeats(cs, u, s[0], s[1..][..k]);
          assert s[..k + 1] == [s[0]] + s[1..][..k] && s[k + 1..] == s[1..][k..];
        }
      }
    }
  }

  lemma TailRepeats(cs: Classes, u: Unit, c: char, t: string)
    requires t != ""
    ensures AtomMatches(cs, Repeated(u), [c] + t) <==> UnitHas(cs, u, c) && AtomMatches(cs, Repeated(u), t)
  {
    var all := [c] + t;
    if AtomMatches(cs, Repeated(u), all) {
      assert UnitHas(cs, u, all[0]);
      forall i | 0 <= i < |t| ensures UnitHas(cs, u, t[i]) { assert UnitHas(cs, u, all[i + 1]); }
    }
  }

  lemma {:induction false} UnitsAreRepeated(cs: Classes, g: string, path: bool, u: Unit, i: nat, n: nat, next: nat,
                                            rest: seq<Atom>, s: string)
    requires i < n <= next <= |g| && Span(g, i, n) && forall c :: UnitHas(cs, u, c) <==> SpanHas(cs, g, i, n, c)
    requires forall t: string :: Accepts(cs, rest, t) <==> GlobMatches(cs, g, path, next, t)
    ensures Accepts(cs, [Repeated(u)] + rest, s) <==> OftenThen(cs, g, path, i, n, next, s)
    decreases |s|
  {
    hide Accepts, UnitHas, SpanHas, Span, GlobMatches;
    RepeatedFirst(cs, u, rest, s);
    if s != "" { UnitsAreRepeated(cs, g, path, u, i, n, next, rest, s[1..]); }
  }

  /** A piece that is not a character position, against the direct reading. */
  lemma WildcardFirst(cs: Classes, g: string, path: bool, i: nat, rest: seq<Atom>, s: string)
    requires i < |g| && TokenAt(cs, g, path, i).Token? && !TokenAt(cs, g, path, i).atom.One?
    requires forall t: string :: Accepts(cs, rest, t) <==> GlobMatches(cs, g, path, TokenAt(cs, g, path, i).next, t)
    ensures Accepts(cs, [TokenAt(cs, g, path, i).atom] + rest, s) <==> GlobMatches(cs, g, path, i, s)
  {
    hide Accepts, TokenAt, Span, SpanHas, LeadingStars, DoubleStar;
    var t := TokenAt(cs, g, path, i);
    TokenIs(cs, g, path, i);
    SplitFirst(cs, t.atom, rest, s);
    assert s[0..] == s && s[..0] == "";
    if t.atom.Directories? {
      forall k | 0 < k <= |s| ensures AtomMatches(cs, Directories, s[..k]) <==> s[k - 1] == '/' {
        assert s[..k][|s[..k]| - 1] == s[k - 1];
      }
    }
  }

  /** What the glob matches at a position is read off the span of the position. */
  lemma PositionMatches(cs: Classes, g: string, path: bool, i: nat, n: nat, s: string)
    requires i < n <= |g| && g[i] != '*' && Span(g, i, n)
    ensures GlobMatches(cs, g, path, i, s) <==>
              if n < |g| && g[n] == '?' then
                GlobMatches(cs, g, path, n + 1, s) || OnceThen(cs, g, path, i, n, n + 1, s)
              else if n < |g| && g[n] == '+' then OftenThen(cs, g, path, i, n, n + 1, s)
              else OnceThen(cs, g, path, i, n, n, s)
  {
    hide SpanHas, Span, OnceThen, OftenThen;
    forall m | i < m <= |g| && Span(g, i, m) ensures m == n { OneSpan(g, i, m, n); }
  }

  /** A character position with its modifier, against the direct reading. */
  lemma PositionFirst(cs: Classes, g: string, path: bool, i: nat, rest: seq<Atom>, s: string)
    requires i < |g| && TokenAt(cs, g, path, i).Token? && TokenAt(cs, g, path, i).atom.One?
    requires var next := TokenAt(cs, g, path, i).next;
             var after := if next < |g| && Modifier(g[next]) then next + 1 else next;
             forall t: string :: Accepts(cs, rest, t) <==> GlobMatches(cs, g, path, after, t)
    ensures var t := TokenAt(cs, g, path, i);
            var atom := if t.next < |g| && Modifier(g[t.next]) then Modified(t.atom.u, g[t.next]) else t.atom;
            Accepts(cs, [atom] + rest, s) <==> GlobMatches(cs, g, path, i, s)
  {
    hide Accepts, UnitHas, TokenAt, Span, SpanHas, GlobMatches;
    var t := TokenAt(cs, g, path, i);
    var u := t.atom.u;
    TokenIs(cs, g, path, i);
    PositionMatches(cs, g, path, i, t.next, s);
    if t.next < |g| && g[t.next] == '?' {
      OptionalFirst(cs, u, rest, s);
    } else if t.next < |g| && g[t.next] == '+' {
      UnitsAreRepeated(cs, g, path, u, i, t.next, t.next + 1, rest, s);
    } else {
      OneFirst(cs, u, rest, s);
    }
  }

  /** For every accepted glob, in both modes, the regular expression accepts exactly the strings that
      the glob itself matches. */
  lemma {:induction false} GlobMeaning(cs: Classes, g: string, path: bool, i: nat, s: string)
    requires i <= |g| && Parsed(cs, g, path, i).Some?
    ensures Accepts(cs, Parsed(cs, g, path, i).value, s) <==> GlobMatches(cs, g, path, i, s)
    decreases |g| - i
  {
    hide Accepts, GlobMatches, TokenAt;
    if i == |g| {
      EndOfGlob(cs, g, path, s);
    } else {
      var t := TokenAt(cs, g, path, i);
      var modified := t.atom.One? && t.next < |g| && Modifier(g[t.next]);
      var after := if modified then t.next + 1 else t.next;
      var rest := Parsed(cs, g, path, after).value;
      forall x: string ensures Accepts(cs, rest, x) <==> GlobMatches(cs, g, path, after, x) {
        GlobMeaning(cs, g, path, after, x);
      }
      if t.atom.One? { PositionFirst(cs, g, path, i, rest, s); } else { WildcardFirst(cs, g, path, i, rest, s); }
    }
  }

  lemma EndOfGlob(cs: Classes, g: string, path: bool, s: string)
    ensures Accepts(cs, [], s) <==> GlobMatches(cs, g, path, |g|, s)
  {
  }

  /** A glob has pieces exactly if it is well formed. */
  lemma {:induction false} ParsedExactly(cs: Classes, g: string, path: bool, i: nat)
    requires i <= |g|
    ensures Parsed(cs, g, path, i).Some? <==> WellFormed(cs, g, path, i)
    decreases |g| - i
  {
    hide TokenAt, Span, SpanHas, UnitHas, LeadingStars, DoubleStar, PlainClass;
    if i < |g| {
      var t := TokenAt(cs, g, path, i);
      TokenIs(cs, g, path, i);
      if t.Token? {
        ParsedExactly(cs, g, path, t.next);
        if t.next < |g| && Modifier(g[t.next]) {
          ParsedExactly(cs, g, path, t.next + 1);
          ModifierIsNoStart(cs, g, path, t.next);
        }
        forall n | t.atom.One? && i < n <= |g| && Span(g, i, n) ensures n == t.next { OneSpan(g, i, n, t.next); }
      }
    }
  }

  lemma ModifierIsNoStart(cs: Classes, g: string, path: bool, i: nat)
    requires i < |g| && Modifier(g[i])
    ensures !WellFormed(cs, g, path, i) && Parsed(cs, g, path, i).None?
  {
  }
}
