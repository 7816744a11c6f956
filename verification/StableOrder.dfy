/** Sorting that keeps equal elements in their order, by keys compared field by field. */
module StableOrder {
  import opened Ordering

  datatype Part = Num(n: int) | Str(s: string)

  type Key = seq<Part>

  predicate PartLess(a: Part, b: Part) {
    match (a, b)
    case (Num(x), Num(y)) => x < y
    case (Str(x), Str(y)) => x != y && Leq(x, y)
    case (Num(_), Str(_)) => true
    case (Str(_), Num(_)) => false
  }

  /** The first field that differs decides. */
  predicate Less(a: Key, b: Key) {
    if b == [] then false
    else if a == [] then true
    else if a[0] != b[0] then PartLess(a[0], b[0])
    else Less(a[1..], b[1..])
  }

  lemma PartsCompare(a: Part, b: Part, c: Part)
    ensures a == b || PartLess(a, b) || PartLess(b, a)
    ensures PartLess(a, b) ==> !PartLess(b, a)
    ensures PartLess(a, b) && PartLess(b, c) ==> PartLess(a, c)
  {
    if a.Str? && b.Str? {
      LeqTotal(a.s, b.s);
      if Leq(a.s, b.s) && Leq(b.s, a.s) { LeqAntisymmetric(a.s, b.s); }
      if c.Str? && Leq(a.s, b.s) && Leq(b.s, c.s) {
        LeqTransitive(a.s, b.s, c.s);
        if a.s == c.s { LeqAntisymmetric(a.s, b.s); }
      }
    }
  }

  /** Not being greater is transitive and total. */
  lemma {:induction false} LessOrders(a: Key, b: Key, c: Key)
    ensures !Less(b, a) && !Less(c, b) ==> !Less(c, a)
    ensures Less(a, b) ==> !Less(b, a)
  {
    hide PartLess;
    if a != [] && b != [] {
      PartsCompare(a[0], b[0], if c == [] then a[0] else c[0]);
      if c != [] {
        PartsCompare(b[0], c[0], a[0]);
        PartsCompare(c[0], a[0], b[0]);
        PartsCompare(c[0], b[0], a[0]);
        PartsCompare(a[0], c[0], b[0]);
        PartsCompare(b[0], a[0], c[0]);
        LessOrders(a[1..], b[1..], c[1..]);
      } else {
        LessOrders(a[1..], b[1..], []);
      }
    }
  }

  /** No later element is less than an earlier one. */
  ghost predicate InOrder<T(!new)>(s: seq<T>, key: T -> Key) {
    forall i, j :: 0 <= i < j < |s| ==> !Less(key(s[j]), key(s[i]))
  }

  function Insert<T>(x: T, s: seq<T>, key: T -> Key): seq<T> {
    if s == [] || !Less(key(s[0]), key(x)) then [x] + s else [s[0]] + Insert(x, s[1..], key)
  }

  function StableSort<T>(s: seq<T>, key: T -> Key): seq<T> {
    if s == [] then [] else Insert(s[0], StableSort(s[1..], key), key)
  }

  lemma {:induction false} InsertOrders<T(!new)>(x: T, s: seq<T>, key: T -> Key)
    requires InOrder(s, key)
    ensures InOrder(Insert(x, s, key), key) && multiset(Insert(x, s, key)) == multiset(s) + multiset{x}
  {
    hide Less;
    if s == [] {
    } else if !Less(key(s[0]), key(x)) {
      forall j | 0 <= j < |s| ensures !Less(key(s[j]), key(x)) {
        if j > 0 { LessOrders(key(x), key(s[0]), key(s[j])); }
      }
    } else {
      InsertOrders(x, s[1..], key);
      var rest := Insert(x, s[1..], key);
      assert s == [s[0]] + s[1..];
      LessOrders(key(s[0]), key(x), key(x));
      forall j | 0 <= j < |rest| ensures !Less(key(rest[j]), key(s[0])) {
        assert rest[j] in multiset(rest);
        assert rest[j] == x || rest[j] in s[1..];
      }
    }
  }

  /** The elements with one key, in order. */
  function WithKey<T>(s: seq<T>, key: T -> Key, k: Key): seq<T> {
    if s == [] then [] else (if key(s[0]) == k then [s[0]] else []) + WithKey(s[1..], key, k)
  }

  lemma {:induction false} InsertIsStable<T(!new)>(x: T, s: seq<T>, key: T -> Key, k: Key)
    ensures WithKey(Insert(x, s, key), key, k) == WithKey([x] + s, key, k)
  {
    hide Less;
    assert ([x] + s)[1..] == s;
    if s != [] && Less(key(s[0]), key(x)) {
      InsertIsStable(x, s[1..], key, k);
      var rest := Insert(x, s[1..], key);
      assert ([s[0]] + rest)[1..] == rest && ([x] + s[1..])[1..] == s[1..];
      LessIsNotEqual(key(s[0]), key(x));
    }
  }

  lemma LessIsNotEqual(a: Key, b: Key)
    requires Less(a, b)
    ensures a != b
  {
    LessOrders(a, b, b);
  }

  /** Sorts, permutes, and keeps elements with equal keys in their order. */
  lemma {:induction false} StableSortSorts<T(!new)>(s: seq<T>, key: T -> Key)
    ensures InOrder(StableSort(s, key), key) && multiset(StableSort(s, key)) == multiset(s)
    ensures forall k :: WithKey(StableSort(s, key), key, k) == WithKey(s, key, k)
  {
    hide Less, Insert;
    if s != [] {
      StableSortSorts(s[1..], key);
      InsertOrders(s[0], StableSort(s[1..], key), key);
      assert s == [s[0]] + s[1..];
      forall k ensures WithKey(StableSort(s, key), key, k) == WithKey(s, key, k) {
        InsertIsStable(s[0], StableSort(s[1..], key), key, k);
        assert ([s[0]] + StableSort(s[1..], key))[1..] == StableSort(s[1..], key);
      }
    }
  }

  /** What is in order stays as it is. */
  lemma {:induction false} SortedStays<T(!new)>(s: seq<T>, key: T -> Key)
    requires InOrder(s, key)
    ensures StableSort(s, key) == s
  {
    if s != [] {
      SortedStays(s[1..], key);
      assert s == [s[0]] + s[1..];
      if |s| > 1 { assert s[1..][0] == s[1]; }
    }
  }
}
