/** The step keys of gates: uniqueStepKey and concurrencyGateKeys. */
module GateKeys {
  import opened Pipelines
  import opened Claims

  function Decimal(n: nat): string {
    if n < 10 then [('0' as int + n) as char]
    else Decimal(n / 10) + [('0' as int + n % 10) as char]
  }

  function DecimalValue(digits: string): int {
    if digits == "" then 0
    else DecimalValue(digits[..|digits| - 1]) * 10 + (digits[|digits| - 1] as int - '0' as int)
  }

  lemma {:induction false} DecimalReadsBack(n: nat)
    ensures DecimalValue(Decimal(n)) == n && Decimal(n) != ""
  {
    if n < 10 {
      assert Decimal(n)[..0] == "";
    } else {
      DecimalReadsBack(n / 10);
      assert Decimal(n)[..|Decimal(n)| - 1] == Decimal(n / 10);
    }
  }

  function Candidate(base: string, suffix: nat): string {
    base + "-" + Decimal(suffix)
  }

  lemma CandidatesDiffer(base: string, i: nat, j: nat)
    requires Candidate(base, i) == Candidate(base, j)
    ensures i == j
  {
    DecimalReadsBack(i);
    DecimalReadsBack(j);
    assert Decimal(i) == Candidate(base, i)[|base| + 1..];
    assert Decimal(j) == Candidate(base, j)[|base| + 1..];
  }

  /** The base itself, or its first numbered candidate that is free. */
  ghost predicate FirstFree(base: string, used: set<string>, key: string) {
    key !in used &&
    (key == base ||
     (base in used && exists n: nat :: n >= 2 && key == Candidate(base, n) && TakenBelow(base, used, n)))
  }

  ghost predicate TakenBelow(base: string, used: set<string>, n: nat) {
    forall j {:trigger Candidate(base, j)} :: 2 <= j < n ==> Candidate(base, j) in used
  }

  /** A key is claimed once, so only so many numbered candidates can be taken. */
  lemma {:induction false} TakenCandidates(base: string, used: set<string>, n: nat) returns (tried: set<string>)
    requires n >= 2 && TakenBelow(base, used, n)
    ensures |tried| == n - 2 && tried <= used
    ensures forall t :: t in tried ==> exists j :: 2 <= j < n && t == Candidate(base, j)
  {
    if n == 2 {
      tried := {};
    } else {
      var before := TakenCandidates(base, used, n - 1);
      if Candidate(base, n - 1) in before {
        var j :| 2 <= j < n - 1 && Candidate(base, n - 1) == Candidate(base, j);
        CandidatesDiffer(base, j, n - 1);
      }
      tried := before + {Candidate(base, n - 1)};
    }
  }

  lemma TakenIsBounded(base: string, used: set<string>, n: nat)
    requires n >= 2 && TakenBelow(base, used, n)
    ensures n - 2 <= |used|
  {
    var tried := TakenCandidates(base, used, n);
    SubsetIsNoLarger(tried, used);
  }

  /** The search for a free suffix ends because only finitely many keys are used. */
  method UniqueStepKey(base: string, used: set<string>) returns (key: string)
    ensures FirstFree(base, used, key)
  {
    if base !in used {
      return base;
    }
    var suffix := 2;
    while true
      invariant suffix >= 2 && TakenBelow(base, used, suffix)
      decreases |used| + 2 - suffix
    {
      var candidate := Candidate(base, suffix);
      if candidate !in used {
        return candidate;
      }
      TakenIsBounded(base, used, suffix);
      TakenIsBounded(base, used, suffix + 1);
      suffix := suffix + 1;
    }
  }

  lemma {:induction false} FreeFrom(base: string, used: set<string>, n: nat) returns (key: string)
    requires base in used && n >= 2 && TakenBelow(base, used, n)
    ensures FirstFree(base, used, key)
    decreases |used| + 2 - n
  {
    key := Candidate(base, n);
    if key in used {
      TakenIsBounded(base, used, n + 1);
      key := FreeFrom(base, used, n + 1);
    }
  }

  /** There is one first free key for any base and any keys in use. */
  lemma FirstFreeIsOne(base: string, used: set<string>)
    ensures exists key :: FirstFree(base, used, key)
    ensures forall a, b :: FirstFree(base, used, a) && FirstFree(base, used, b) ==> a == b
  {
    var key := base;
    if base in used { key := FreeFrom(base, used, 2); }
    assert FirstFree(base, used, key);
    forall a, b | FirstFree(base, used, a) && FirstFree(base, used, b) ensures a == b {
      if base in used {
        var m: nat :| m >= 2 && a == Candidate(base, m) && TakenBelow(base, used, m);
        var n: nat :| n >= 2 && b == Candidate(base, n) && TakenBelow(base, used, n);
        assert m < n ==> Candidate(base, m) in used;
        assert n < m ==> Candidate(base, n) in used;
      }
    }
  }

  /** The keys that belong to a gate: the first free ones beside its namespace and the jobs. */
  ghost predicate KeyPair(namespace: string, digest: string, jobs: seq<Job>, open: string, close: string) {
    var used := {namespace} + set k | k in KeysOf(jobs);
    && FirstFree("gha-concurrency-start-" + digest, used, open)
    && FirstFree("gha-concurrency-finish-" + digest, used + {open}, close)
  }

  lemma KeyPairIsOne(namespace: string, digest: string, jobs: seq<Job>)
    ensures exists open, close :: KeyPair(namespace, digest, jobs, open, close)
    ensures forall a, b, c, d :: KeyPair(namespace, digest, jobs, a, b) && KeyPair(namespace, digest, jobs, c, d) ==>
        a == c && b == d
  {
    hide FirstFree;
    var used := {namespace} + set k | k in KeysOf(jobs);
    FirstFreeIsOne("gha-concurrency-start-" + digest, used);
    var open :| FirstFree("gha-concurrency-start-" + digest, used, open);
    FirstFreeIsOne("gha-concurrency-finish-" + digest, used + {open});
    var close :| FirstFree("gha-concurrency-finish-" + digest, used + {open}, close);
    assert KeyPair(namespace, digest, jobs, open, close);
  }

  lemma KeyPairApart(namespace: string, digest: string, jobs: seq<Job>, open: string, close: string)
    requires KeyPair(namespace, digest, jobs, open, close)
    ensures open != close && open != "" && close != ""
    ensures open !in KeysOf(jobs) && close !in KeysOf(jobs) && open != namespace && close != namespace
  {
    NotEmpty("gha-concurrency-start-" + digest);
    NotEmpty("gha-concurrency-finish-" + digest);
  }

  lemma NotEmpty(base: string)
    requires base != ""
    ensures forall n: nat :: Candidate(base, n) != ""
  {
  }

  /** The keys of one gate; hash stands for the truncated digest of namespace and group. */
  method ConcurrencyGateKeys(namespace: string, digest: string, jobs: seq<Job>) returns (open: string, close: string)
    ensures KeyPair(namespace, digest, jobs, open, close)
  {
    hide FirstFree;
    var used := {namespace};
    for i := 0 to |jobs|
      invariant used == {namespace} + set k | k in KeysOf(jobs[..i])
    {
      assert KeysOf(jobs[..i + 1]) == KeysOf(jobs[..i]) + [jobs[i].key];
      used := used + {jobs[i].key};
    }
    assert jobs[..|jobs|] == jobs;
    open := UniqueStepKey("gha-concurrency-start-" + digest, used);
    used := used + {open};
    close := UniqueStepKey("gha-concurrency-finish-" + digest, used);
  }

  // ----- what the keys look like -----

  predicate IsNumber(digits: string) {
    digits != "" && digits[0] != '0' && forall i :: 0 <= i < |digits| ==> '0' <= digits[i] <= '9'
  }

  lemma {:induction false} DecimalIsNumber(n: nat)
    requires n > 0
    ensures IsNumber(Decimal(n))
  {
    if n >= 10 { DecimalIsNumber(n / 10); }
  }

  /** The base, or the base, a dash and a number from two up. */
  predicate Numbered(base: string, key: string) {
    key == base ||
    (|key| > |base| + 1 && key[..|base|] == base && key[|base|] == '-' &&
     IsNumber(key[|base| + 1..]) && DecimalValue(key[|base| + 1..]) >= 2)
  }

  lemma FreeIsNumbered(base: string, used: set<string>, key: string)
    requires FirstFree(base, used, key)
    ensures Numbered(base, key) && key !in used && (base !in used ==> key == base)
  {
    if key != base {
      var n: nat :| n >= 2 && key == Candidate(base, n) && TakenBelow(base, used, n);
      DecimalIsNumber(n);
      DecimalReadsBack(n);
      assert key[..|base|] == base && key[|base| + 1..] == Decimal(n);
    }
  }

  /** The keys of a gate are its two markers, numbered only if a job has the marker's name already. */
  lemma KeyPairShape(namespace: string, digest: string, jobs: seq<Job>, open: string, close: string)
    requires KeyPair(namespace, digest, jobs, open, close)
    ensures Numbered("gha-concurrency-start-" + digest, open)
    ensures Numbered("gha-concurrency-finish-" + digest, close)
    ensures forall j :: j in jobs ==> j.key != open && j.key != close
  {
    hide FirstFree, Numbered;
    var used := {namespace} + set k | k in KeysOf(jobs);
    FreeIsNumbered("gha-concurrency-start-" + digest, used, open);
    FreeIsNumbered("gha-concurrency-finish-" + digest, used + {open}, close);
    forall j | j in jobs ensures j.key in used {
      var i :| 0 <= i < |jobs| && jobs[i] == j;
      assert KeysOf(jobs)[i] == j.key;
    }
  }
}
