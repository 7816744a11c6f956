/** The commit to compare a newly pushed branch with, from the list of pushed commits. */
module DiffBase {
  import opened Graphs
  import opened Pipelines
  import opened Claims

  const MAX_PUSH_COMMITS := 1000

  // ----- the webhook's commits -----

  /** One entry of the commits array: None when it is not an object; ids may be malformed. */
  ghost predicate ValidCommits(values: seq<Option<string>>, objectID: string -> bool) {
    && |values| <= MAX_PUSH_COMMITS
    && (forall i :: 0 <= i < |values| ==> values[i].Some? && objectID(values[i].value))
    && forall i, j :: 0 <= i < j < |values| ==> values[i] != values[j]
  }

  method PushWebhookCommits(values: seq<Option<string>>, objectID: string -> bool) returns (r: Result<seq<string>>)
    ensures r.Ok? <==> ValidCommits(values, objectID)
    ensures r.Ok? ==> Distinct(r.value) && |r.value| == |values| && forall i :: 0 <= i < |values| ==>
        values[i] == Some(r.value[i])
  {
    if |values| > MAX_PUSH_COMMITS {
      return Err("push exceeds the commit bound");
    }
    var commits := [];
    var seen := {};
    for i := 0 to |values|
      invariant |commits| == i && forall k :: 0 <= k < i ==> values[k] == Some(commits[k])
      invariant seen == KeysIn(commits) && Distinct(commits)
      invariant forall k :: 0 <= k < i ==> objectID(commits[k])
    {
      if values[i].None? {
        return Err("push contains an invalid commit");
      }
      var id := values[i].value;
      if !objectID(id) || id in seen {
        if id in seen {
          var k :| 0 <= k < i && commits[k] == id;
          assert values[k] == values[i];
        }
        return Err("push contains an invalid or duplicate commit ID");
      }
      seen := seen + {id};
      commits := commits + [id];
    }
    r := Ok(commits);
  }

  // ----- the history -----

  /** What git answers about a history: each commit it has with its parents. */
  datatype Git = Git(parents: Graph, isAncestor: (string, string) -> bool, revList: (string, string) -> seq<string>)

  /** The commits of after's history that are not in the history of base. */
  ghost predicate InRange(g: Graph, base: string, after: string, c: string) {
    Reaches(g, after, c) && !Reaches(g, base, c)
  }

  /** Ancestry is reachability, and rev-list lists a range once each, but not beyond 1001 commits. */
  ghost predicate Answers(git: Git, a: string, b: string) {
    && (git.isAncestor(a, b) <==> Reaches(git.parents, b, a))
    && Distinct(git.revList(a, b)) && |git.revList(a, b)| <= MAX_PUSH_COMMITS + 1
    && (forall c :: c in git.revList(a, b) ==> InRange(git.parents, a, b, c))
    && (|git.revList(a, b)| <= MAX_PUSH_COMMITS ==> forall c :: InRange(git.parents, a, b, c) ==>
      c in git.revList(a, b))
  }

  ghost predicate Truthful(git: Git) {
    forall a, b :: Answers(git, a, b)
  }

  /** No pushed commit is among the parents. */
  predicate NoPushedParent(g: Graph, commits: seq<string>, c: string) {
    forall p :: p in Successors(g, c) ==> p !in commits
  }

  /** The one pushed commit that the others build on, with its only parent. */
  ghost predicate OnlyRoot(g: Graph, commits: seq<string>, root: string, parent: string) {
    && root in commits && NoPushedParent(g, commits, root) && Successors(g, root) == [parent]
    && forall c :: c in commits && NoPushedParent(g, commits, c) ==> c == root
  }

  // ----- the base -----

  ghost predicate SameSet(a: seq<string>, b: seq<string>) {
    forall c :: c in a <==> c in b
  }

  method SameCommitSet(left: seq<string>, right: seq<string>) returns (same: bool)
    requires Distinct(left) && Distinct(right)
    ensures same <==> SameSet(left, right)
  {
    DistinctSizes(left, right);
    if |left| != |right| {
      return false;
    }
    var commits := KeysIn(left);
    for i := 0 to |right|
      invariant forall k :: 0 <= k < i ==> right[k] in commits
    {
      if right[i] !in commits {
        assert right[i] in right;
        return false;
      }
    }
    SubsetOfSameSize(left, right);
    same := true;
  }

  lemma DistinctSizes(a: seq<string>, b: seq<string>)
    requires Distinct(a) && Distinct(b)
    ensures SameSet(a, b) ==> |a| == |b|
  {
    DistinctSize(a);
    DistinctSize(b);
    if SameSet(a, b) { assert KeysIn(a) == KeysIn(b); }
  }

  lemma SubsetOfSameSize(a: seq<string>, b: seq<string>)
    requires Distinct(a) && Distinct(b) && |a| == |b| && forall c :: c in b ==> c in a
    ensures SameSet(a, b)
  {
    DistinctSize(a);
    DistinctSize(b);
    if c :| c in a && c !in b {
      SubsetIsNoLarger(KeysIn(b) + {c}, KeysIn(a));
    }
  }

  /** What the code requires of a nonempty push. */
  ghost predicate BaseOk(git: Git, after: string, commits: seq<string>, parent: string) {
    && after in commits
    && (forall c :: c in commits ==> c in git.parents && Reaches(git.parents, after, c))
    && (exists root :: OnlyRoot(git.parents, commits, root, parent))
    && |git.revList(parent, after)| <= MAX_PUSH_COMMITS && SameSet(git.revList(parent, after), commits)
  }

  /** Finds the commit to compare with; the verdict is exact. */
  method NewBranchDiffBase(git: Git, after: string, commits: seq<string>) returns (r: Result<string>)
    requires Truthful(git) && Distinct(commits)
    ensures commits == [] ==> r == Ok(after)
    ensures commits != [] ==> (r.Ok? <==> exists parent :: BaseOk(git, after, commits, parent))
    ensures commits != [] && r.Ok? ==> BaseOk(git, after, commits, r.value)
  {
    hide SameSet, OnlyRoot;
    if commits == [] {
      return Ok(after);
    }
    if after !in commits {
      return Err("incomplete pushed commit evidence");
    }
    for i := 0 to |commits|
      invariant forall k :: 0 <= k < i ==> commits[k] in git.parents && Reaches(git.parents, after, commits[k])
    {
      assert Answers(git, commits[i], after);
      if commits[i] !in git.parents || !git.isAncestor(commits[i], after) {
        assert commits[i] in commits;
        return Err("a pushed commit is unavailable or not an ancestor");
      }
    }
    var found := FindRoot(git.parents, commits);
    if found.Err? {
      assert forall p :: !BaseOk(git, after, commits, p);
      return Err(found.reason);
    }
    var (root, parent) := found.value;
    OneParent(git.parents, commits, root, parent);
    assert forall p :: BaseOk(git, after, commits, p) ==> p == parent;
    assert Answers(git, parent, after);
    var local := git.revList(parent, after);
    if |local| > MAX_PUSH_COMMITS {
      return Err("push exceeds the commit bound");
    }
    var same := SameCommitSet(local, commits);
    if !same {
      return Err("pushed commits do not match local history");
    }
    assert BaseOk(git, after, commits, parent);
    r := Ok(parent);
  }

  lemma OneParent(g: Graph, commits: seq<string>, root: string, parent: string)
    requires OnlyRoot(g, commits, root, parent)
    ensures forall other, p :: OnlyRoot(g, commits, other, p) ==> p == parent
  {
    hide NoPushedParent;
    forall other, p | OnlyRoot(g, commits, other, p) ensures p == parent {
      assert other == root;
      assert [p][0] == [parent][0];
    }
  }

  /** Looks for the single commit none of whose parents was pushed. */
  method FindRoot(g: Graph, commits: seq<string>) returns (r: Result<(string, string)>)
    requires Distinct(commits)
    ensures r.Ok? <==> exists root, parent :: OnlyRoot(g, commits, root, parent)
    ensures r.Ok? ==> OnlyRoot(g, commits, r.value.0, r.value.1)
  {
    hide NoPushedParent;
    var found: Option<(string, string)> := None;
    for i := 0 to |commits|
      invariant found.None? ==> forall k :: 0 <= k < i ==> !NoPushedParent(g, commits, commits[k])
      invariant found.Some? ==>
        found.value.0 in commits[..i] && NoPushedParent(g, commits, found.value.0) &&
          Successors(g, found.value.0) == [found.value.1]
      invariant found.Some? ==> forall k :: 0 <= k < i && NoPushedParent(g, commits, commits[k]) ==>
          commits[k] == found.value.0
    {
      var hasPushedParent := HasPushedParent(g, commits, commits[i]);
      if !hasPushedParent {
        if found.Some? {
          NotOnly(g, commits, commits[i], found.value.0);
          return Err("no unambiguous diff ancestor");
        }
        if |Successors(g, commits[i])| != 1 {
          NotSingle(g, commits, commits[i]);
          return Err("no unambiguous diff ancestor");
        }
        found := Some((commits[i], Successors(g, commits[i])[0]));
      }
    }
    if found.None? {
      return Err("no unambiguous diff ancestor");
    }
    assert OnlyRoot(g, commits, found.value.0, found.value.1);
    r := Ok(found.value);
  }

  method HasPushedParent(g: Graph, commits: seq<string>, c: string) returns (has: bool)
    ensures has <==> !NoPushedParent(g, commits, c)
  {
    has := false;
    var parents := Successors(g, c);
    for i := 0 to |parents|
      invariant has <==> exists k :: 0 <= k < i && parents[k] in commits
    {
      has := has || parents[i] in commits;
    }
  }

  lemma NotOnly(g: Graph, commits: seq<string>, c: string, d: string)
    requires c != d && c in commits && d in commits && NoPushedParent(g, commits, c) && NoPushedParent(g, commits, d)
    ensures !exists root, parent :: OnlyRoot(g, commits, root, parent)
  {
    hide NoPushedParent;
  }

  lemma NotSingle(g: Graph, commits: seq<string>, c: string)
    requires c in commits && NoPushedParent(g, commits, c) && |Successors(g, c)| != 1
    ensures !exists root, parent :: OnlyRoot(g, commits, root, parent)
  {
    hide NoPushedParent;
  }

  // ----- what the base is -----

  /** Following pushed parents from any pushed commit ends at the root, as history has no cycles. */
  lemma {:induction false} RootIsBelow(g: Graph, rank: map<string, nat>, commits: seq<string>, root: string,
                                       parent: string, c: string)
    requires OnlyRoot(g, commits, root, parent) && c in commits
    requires Ranks(g, rank) && forall d :: d in commits ==> d in rank
    ensures Reaches(g, c, parent)
    decreases rank[c]
  {
    hide Reaches;
    if NoPushedParent(g, commits, c) {
      ReachesSelf(g, c);
      assert parent in Successors(g, root);
      ReachesStep(g, c, c, parent);
    } else {
      var p :| p in Successors(g, c) && p in commits;
      RootIsBelow(g, rank, commits, root, parent, p);
      ReachesBefore(g, c, p, parent);
    }
  }

  lemma ReachesBefore(g: Graph, a: string, b: string, c: string)
    requires b in Successors(g, a) && Reaches(g, b, c)
    ensures Reaches(g, a, c)
  {
    var p :| PathFromTo(g, p, b, c);
    var q := [a] + p;
    assert forall i, j :: 0 <= i < j < |q| && j == i + 1 ==> (i == 0 || (q[i] == p[i - 1] && q[j] == p[j - 1]));
    assert PathFromTo(g, q, a, c);
  }

  /** For any history without cycles: the base is not a pushed commit, is an ancestor of every pushed
      commit, and what was pushed is exactly what is reachable from the new head but not from the base. */
  lemma BaseIsRight(git: Git, rank: map<string, nat>, after: string, commits: seq<string>, parent: string)
    requires Truthful(git) && BaseOk(git, after, commits, parent)
    requires Ranks(git.parents, rank) && forall c :: c in commits ==> c in rank
    ensures parent !in commits
    ensures forall c :: c in commits ==> Reaches(git.parents, c, parent)
    ensures forall c :: c in commits <==> Reaches(git.parents, after, c) && !Reaches(git.parents, parent, c)
  {
    hide Reaches;
    var root :| OnlyRoot(git.parents, commits, root, parent);
    assert parent in Successors(git.parents, root);
    forall c | c in commits ensures Reaches(git.parents, c, parent) {
      RootIsBelow(git.parents, rank, commits, root, parent, c);
    }
    assert Answers(git, parent, after);
    forall c ensures c in commits <==> InRange(git.parents, parent, after, c) {
      assert c in git.revList(parent, after) <==> c in commits;
    }
  }
}
