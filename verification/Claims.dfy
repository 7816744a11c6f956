/** Keys that may be claimed once. */
module Claims {
  import opened Pipelines

  ghost predicate Fresh(used: set<string>, keys: seq<string>) {
    Distinct(keys) && forall k :: k in keys ==> k !in used
  }

  function KeysIn(keys: seq<string>): (s: set<string>)
    ensures forall k :: k in s <==> k in keys
  {
    set k | k in keys
  }

  lemma FreshInTurn(used: set<string>, a: seq<string>, b: seq<string>)
    ensures Fresh(used, a + b) <==> Fresh(used, a) && Fresh(used + KeysIn(a), b)
    ensures KeysIn(a + b) == KeysIn(a) + KeysIn(b)
  {
    var all := a + b;
    if Fresh(used, all) {
      forall i, j | 0 <= i < j < |a| ensures a[i] != a[j] { assert all[i] != all[j]; }
      forall i, j | 0 <= i < j < |b| ensures b[i] != b[j] { assert all[|a| + i] != all[|a| + j]; }
      forall i, j | 0 <= i < |a| && 0 <= j < |b| ensures a[i] != b[j] { assert all[i] != all[|a| + j]; }
    }
    if Fresh(used, a) && Fresh(used + KeysIn(a), b) {
      forall i, j | 0 <= i < j < |all| ensures all[i] != all[j] {
        if i < |a| <= j { assert all[i] in a && all[j] in b; }
      }
    }
  }

  /** Enters the keys one by one until one is taken. */
  method Claim(used: set<string>, keys: seq<string>) returns (ok: bool, used': set<string>)
    ensures ok <==> Fresh(used, keys)
    ensures ok ==> used' == used + KeysIn(keys)
  {
    used' := used;
    for i := 0 to |keys|
      invariant Fresh(used, keys[..i]) && used' == used + KeysIn(keys[..i])
    {
      if keys[i] in used' {
        return false, used;
      }
      assert keys[..i + 1] == keys[..i] + [keys[i]];
      used' := used' + {keys[i]};
    }
    assert keys[..|keys|] == keys;
    ok := true;
  }

  // ----- distinct keys by counting -----

  lemma {:induction false} DistinctCounts(s: seq<string>)
    requires Distinct(s)
    ensures forall x :: multiset(s)[x] <= 1
  {
    if s != [] {
      var front, last := s[..|s| - 1], s[|s| - 1];
      DistinctCounts(front);
      assert s == front + [last];
      assert last !in front;
      assert last !in multiset(front);
    }
  }

  lemma RepeatCounts(s: seq<string>, i: nat, j: nat)
    requires i < j < |s| && s[i] == s[j]
    ensures multiset(s)[s[i]] >= 2
  {
    assert s == s[..j] + [s[j]] + s[j + 1..];
    assert s[..j][i] == s[i];
    assert s[i] in multiset(s[..j]);
  }

  lemma PartOfDistinct(part: seq<string>, all: seq<string>)
    requires Distinct(all) && multiset(part) <= multiset(all)
    ensures Distinct(part) && KeysIn(part) <= KeysIn(all)
  {
    DistinctCounts(all);
    forall i, j | 0 <= i < j < |part| ensures part[i] != part[j] {
      if part[i] == part[j] { RepeatCounts(part, i, j); }
    }
    forall k | k in part ensures k in all {
      assert k in multiset(part);
      assert k in multiset(all);
    }
  }

  lemma {:induction false} SubsetIsNoLarger<T>(a: set<T>, b: set<T>)
    requires a <= b
    ensures |a| <= |b|
  {
    if a != {} {
      var x :| x in a;
      SubsetIsNoLarger(a - {x}, b - {x});
    }
  }

  lemma {:induction false} DistinctSize(s: seq<string>)
    requires Distinct(s)
    ensures |KeysIn(s)| == |s|
  {
    if s == [] {
      assert KeysIn(s) == {};
    } else {
      var front, last := s[..|s| - 1], s[|s| - 1];
      DistinctSize(front);
      assert s == front + [last] && last !in front;
      assert KeysIn(s) == KeysIn(front) + {last};
    }
  }

  lemma SameSizeSame<T>(a: set<T>, b: set<T>)
    requires a <= b && |a| == |b|
    ensures a == b
  {
    if x :| x in b && x !in a {
      SubsetIsNoLarger(a + {x}, b);
      assert false;
    }
  }
}
