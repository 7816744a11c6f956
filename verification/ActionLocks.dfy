/** buildActionGraph: locks for an action and all that it uses, by memoized depth-first search. */
module ActionLocks {
  import opened Graphs
  import opened Pipelines

  const MAX_NESTED_ACTION_DEPTH := 10
  const MAX_EXECUTABLE_PATH_BYTES := 0x10_0000

  /** The content of a lock that its ID is a hash of. */
  datatype Fields = Fields(
    source: string, serverURL: string, repository: string, requestedRef: string, commit: string,
    path: string, sourceDigest: string, executablePaths: seq<string>)

  /** What loading an action finds; uses is "" for a step that runs a command. */
  datatype Loaded = Unloaded | Native | Leaf | Composite(uses: seq<string>)

  /** selectors are the lock IDs written for the children, children the keys of their nodes. */
  datatype Node = Node(
    fields: Fields, id: string, loaded: Loaded, selectors: map<string, string>, children: map<string, string>)

  datatype Described = Described(key: string, fields: Fields)

  function PathBytes(paths: seq<string>): nat {
    if paths == [] then 0 else PathBytes(paths[..|paths| - 1]) + |paths[|paths| - 1]|
  }

  function ChildrenUsed(loaded: Loaded): set<string> {
    if loaded.Composite? then set u | u in loaded.uses && u != "" else {}
  }

  /** The bytes of the listed nodes. */
  ghost function Charge(nodes: map<string, Node>, keys: seq<string>): nat {
    if keys == [] then 0
    else
      var last := keys[|keys| - 1];
      Charge(nodes, keys[..|keys| - 1]) + if last in nodes then PathBytes(nodes[last].fields.executablePaths) else 0
  }

  /** Replacing nodes without touching their paths does not change the charge. */
  lemma {:induction false} SameCharge(a: map<string, Node>, b: map<string, Node>, keys: seq<string>)
    requires forall k :: k in keys ==> k in a && k in b && a[k].fields == b[k].fields
    ensures Charge(a, keys) == Charge(b, keys)
  {
    if keys != [] { SameCharge(a, b, keys[..|keys| - 1]); }
  }

  // ----- what a finished graph is -----

  /** Every child is a node, and the lock names it by its ID. */
  ghost predicate NamesChildren(nodes: map<string, Node>, n: Node) {
    && n.selectors.Keys == n.children.Keys
    && forall u :: u in n.children ==> n.children[u] in nodes && n.selectors[u] == nodes[n.children[u]].id
  }

  /** Children come earlier in the ranking. */
  ghost predicate ChildrenBelow(rank: map<string, nat>, n: Node, bound: nat) {
    forall u :: u in n.children ==> n.children[u] in rank && rank[n.children[u]] < bound
  }

  ghost predicate Finished(nodes: map<string, Node>, rank: map<string, nat>) {
    && rank.Keys <= nodes.Keys
    && forall k :: k in rank ==>
         ChildrenBelow(rank, nodes[k], rank[k]) && nodes[k].children.Keys == ChildrenUsed(nodes[k].loaded)
  }

  /** Locks with one ID have one content, and every ID that is taken belongs to a lock. */
  ghost predicate Identified(nodes: map<string, Node>, ids: map<string, Fields>, hash: Fields -> string) {
    && (forall k :: k in nodes ==>
          nodes[k].id == hash(nodes[k].fields) && nodes[k].id in ids && ids[nodes[k].id] == nodes[k].fields)
    && forall id :: id in ids ==> Owned(nodes, id, ids[id])
  }

  ghost predicate Owned(nodes: map<string, Node>, id: string, fields: Fields) {
    exists k :: k in nodes && nodes[k].id == id && nodes[k].fields == fields
  }

  ghost predicate Charged(nodes: map<string, Node>, charged: seq<string>, bytes: nat) {
    && Distinct(charged)
    && (forall k :: k in charged <==> k in nodes)
    && bytes == Charge(nodes, charged) <= MAX_EXECUTABLE_PATH_BYTES
  }

  /** The search in progress: finished nodes are ranked, active ones wait for a child. */
  datatype Search = Search(
    nodes: map<string, Node>, ids: map<string, Fields>, active: set<string>,
    rank: map<string, nat>, charged: seq<string>, bytes: nat)

  ghost predicate Good(s: Search, hash: Fields -> string) {
    && s.active !! s.rank.Keys && s.nodes.Keys == s.active + s.rank.Keys
    && (forall k :: k in s.nodes ==> NamesChildren(s.nodes, s.nodes[k]))
    && (forall k, u :: k in s.active && u in s.nodes[k].children ==> s.nodes[k].children[u] in s.rank)
    && Finished(s.nodes, s.rank)
    && Identified(s.nodes, s.ids, hash)
    && Charged(s.nodes, s.charged, s.bytes)
  }

  /** Nodes that were there keep their content and their rank. */
  ghost predicate Kept(s: Search, t: Search) {
    && (forall k :: k in s.nodes ==> k in t.nodes && t.nodes[k] == s.nodes[k])
    && (forall k :: k in s.rank ==> k in t.rank && t.rank[k] == s.rank[k])
  }

  function NewNode(fields: Fields, id: string): Node {
    Node(fields, id, Unloaded, map[], map[])
  }

  function WithChild(n: Node, u: string, child: string, id: string): Node {
    n.(selectors := n.selectors[u := id], children := n.children[u := child])
  }

  lemma Insert(s: Search, hash: Fields -> string, key: string, fields: Fields)
    requires Good(s, hash) && key !in s.nodes
    requires hash(fields) in s.ids ==> s.ids[hash(fields)] == fields
    requires s.bytes + PathBytes(fields.executablePaths) <= MAX_EXECUTABLE_PATH_BYTES
    ensures var t := Search(s.nodes[key := NewNode(fields, hash(fields))], s.ids[hash(fields) := fields],
        s.active + {key},
                            s.rank, s.charged + [key], s.bytes + PathBytes(fields.executablePaths));
            Good(t, hash) && Kept(s, t) && key !in s.active
  {
    hide PathBytes, ChildrenUsed, Charged, Identified, NamesChildren;
    var n := NewNode(fields, hash(fields));
    var nodes := s.nodes[key := n];
    InsertCharged(s.nodes, s.charged, s.bytes, key, n);
    InsertIdentified(s.nodes, s.ids, hash, key, n);
    forall k | k in nodes ensures NamesChildren(nodes, nodes[k]) {
      if k == key { NoChildren(nodes, n); } else { StillNamed(s.nodes, nodes, s.nodes[k]); }
    }
  }

  lemma InsertCharged(nodes: map<string, Node>, charged: seq<string>, bytes: nat, key: string, n: Node)
    requires Charged(nodes, charged, bytes) && key !in nodes
    requires bytes + PathBytes(n.fields.executablePaths) <= MAX_EXECUTABLE_PATH_BYTES
    ensures Charged(nodes[key := n], charged + [key], bytes + PathBytes(n.fields.executablePaths))
  {
    hide PathBytes;
    var all := charged + [key];
    assert all[..|all| - 1] == charged;
    SameCharge(nodes, nodes[key := n], charged);
  }

  lemma InsertIdentified(nodes: map<string, Node>, ids: map<string, Fields>, hash: Fields -> string, key: string,
                         n: Node)
    requires Identified(nodes, ids, hash) && n.id == hash(n.fields) && (n.id in ids ==> ids[n.id] == n.fields)
    requires key !in nodes
    ensures Identified(nodes[key := n], ids[n.id := n.fields], hash)
  {
    forall id | id in ids && id != n.id ensures Owned(nodes[key := n], id, ids[id]) {
      assert Owned(nodes, id, ids[id]);
      var k :| k in nodes && nodes[k].id == id && nodes[k].fields == ids[id];
      assert k in nodes[key := n];
    }
    assert key in nodes[key := n];
  }

  lemma NoChildren(nodes: map<string, Node>, n: Node)
    requires n.children == map[] && n.selectors == map[]
    ensures NamesChildren(nodes, n)
  {
  }

  /** More nodes, or nodes with the same IDs, do not change what a lock names. */
  lemma StillNamed(a: map<string, Node>, b: map<string, Node>, n: Node)
    requires NamesChildren(a, n) && forall k :: k in a ==> k in b && b[k].id == a[k].id
    ensures NamesChildren(b, n)
  {
  }

  /** The node in progress may change anything but its fields and ID. */
  lemma Update(s: Search, hash: Fields -> string, key: string, n: Node)
    requires Good(s, hash) && key in s.active && n.fields == s.nodes[key].fields && n.id == s.nodes[key].id
    requires NamesChildren(s.nodes, n) && forall u :: u in n.children ==> n.children[u] in s.rank
    ensures Good(s.(nodes := s.nodes[key := n]), hash)
  {
    hide PathBytes, ChildrenUsed, NamesChildren, Charged, Identified;
    var nodes := s.nodes[key := n];
    UpdateCharged(s.nodes, nodes, s.charged, s.bytes);
    UpdateIdentified(s.nodes, nodes, s.ids, hash);
    forall k | k in nodes ensures NamesChildren(nodes, nodes[k]) {
      StillNamed(s.nodes, nodes, nodes[k]);
    }
  }

  lemma UpdateCharged(a: map<string, Node>, b: map<string, Node>, charged: seq<string>, bytes: nat)
    requires Charged(a, charged, bytes) && a.Keys == b.Keys && forall k :: k in a ==> b[k].fields == a[k].fields
    ensures Charged(b, charged, bytes)
  {
    SameCharge(a, b, charged);
  }

  lemma UpdateIdentified(a: map<string, Node>, b: map<string, Node>, ids: map<string, Fields>, hash: Fields -> string)
    requires Identified(a, ids, hash) && a.Keys == b.Keys && forall k :: k in a ==>
        b[k].fields == a[k].fields && b[k].id == a[k].id
    ensures Identified(b, ids, hash)
  {
    forall id | id in ids ensures Owned(b, id, ids[id]) {
      assert Owned(a, id, ids[id]);
    }
  }

  lemma Finish(s: Search, hash: Fields -> string, key: string)
    requires Good(s, hash) && key in s.active && s.nodes[key].children.Keys == ChildrenUsed(s.nodes[key].loaded)
    ensures Good(s.(active := s.active - {key}, rank := s.rank[key := Above(s.rank)]), hash)
  {
    hide PathBytes, ChildrenUsed, Charged, Identified, NamesChildren;
  }

  // ----- children are what the metadata names -----

  type Describe = (nat, string) -> Result<Described>

  /** The n-th answer about an action of this key. */
  type Load = (nat, string) -> Result<Loaded>

  /** Some description of the action that is written u gave this key. */
  ghost predicate Names(describe: Describe, u: string, key: string) {
    exists n :: describe(n, u).Ok? && describe(n, u).value.key == key
  }

  lemma NamedNow(describe: Describe, call: nat, u: string)
    ensures describe(call, u).Ok? ==> Names(describe, u, describe(call, u).value.key)
  {
  }

  ghost predicate Truthful(describe: Describe, nodes: map<string, Node>) {
    forall k, u :: k in nodes && u in nodes[k].children ==> Names(describe, u, nodes[k].children[u])
  }

  lemma TruthfulChild(describe: Describe, nodes: map<string, Node>, key: string, u: string, child: string, id: string)
    requires Truthful(describe, nodes) && key in nodes && Names(describe, u, child)
    ensures Truthful(describe, nodes[key := WithChild(nodes[key], u, child, id)])
  {
    hide Names;
  }

  lemma TruthfulSame(describe: Describe, nodes: map<string, Node>, key: string, n: Node)
    requires Truthful(describe, nodes) && (n.children == map[] || (key in nodes && n.children == nodes[key].children))
    ensures Truthful(describe, nodes[key := n])
  {
    hide Names;
  }

  // ----- nodes are what was answered -----

  ghost predicate DescribedAs(describe: Describe, key: string, fields: Fields) {
    exists n, u :: describe(n, u) == Ok(Described(key, fields))
  }

  ghost predicate LoadedAs(load: Load, key: string, loaded: Loaded) {
    exists n :: load(n, key) == Ok(loaded)
  }

  /** Nodes have the content that was described, and finished ones what was loaded for them. */
  ghost predicate Sourced(describe: Describe, load: Load, nodes: map<string, Node>, rank: map<string, nat>) {
    && (forall k :: k in nodes ==> DescribedAs(describe, k, nodes[k].fields))
    && forall k :: k in rank && k in nodes ==> LoadedAs(load, k, nodes[k].loaded)
  }

  lemma SourcedWith(describe: Describe, load: Load, nodes: map<string, Node>, rank: map<string, nat>, key: string,
                    n: Node)
    requires Sourced(describe, load, nodes, rank) && DescribedAs(describe, key, n.fields) && key !in rank
    ensures Sourced(describe, load, nodes[key := n], rank)
  {
    hide DescribedAs, LoadedAs;
  }

  lemma SourcedFinish(describe: Describe, load: Load, nodes: map<string, Node>, rank: map<string, nat>, key: string,
                      n: nat)
    requires Sourced(describe, load, nodes, rank) && key in nodes && LoadedAs(load, key, nodes[key].loaded)
    ensures Sourced(describe, load, nodes, rank[key := n])
  {
    hide DescribedAs, LoadedAs;
  }

  lemma DescribedNow(describe: Describe, call: nat, u: string, key: string, fields: Fields)
    requires describe(call, u) == Ok(Described(key, fields))
    ensures DescribedAs(describe, key, fields)
  {
  }

  lemma LoadedNow(load: Load, call: nat, key: string)
    ensures load(call, key).Ok? ==> LoadedAs(load, key, load(call, key).value)
  {
  }

  lemma SourcedAt(describe: Describe, load: Load, nodes: map<string, Node>, rank: map<string, nat>, key: string)
    requires Sourced(describe, load, nodes, rank) && key in nodes
    ensures DescribedAs(describe, key, nodes[key].fields)
  {
    hide DescribedAs, LoadedAs;
  }

  // ----- why a build fails -----

  /** Metadata of a names an action that was described as b. */
  ghost predicate Links(describe: Describe, nodes: map<string, Node>, a: string, b: string) {
    a in nodes && exists u :: u in ChildrenUsed(nodes[a].loaded) && Names(describe, u, b)
  }

  /** Different actions, each used by the one before it. */
  ghost predicate Chain(describe: Describe, nodes: map<string, Node>, keys: seq<string>) {
    && Distinct(keys)
    && (forall k :: k in keys ==> k in nodes)
    && forall i, j :: 0 <= i < j < |keys| && j == i + 1 ==> Links(describe, nodes, keys[i], keys[j])
  }

  /** raw is written in the last action of the chain, or is one of the references of the workflow. */
  ghost predicate Reaching(describe: Describe, nodes: map<string, Node>, keys: seq<string>, raw: string) {
    && Chain(describe, nodes, keys)
    && (keys != [] ==> raw in ChildrenUsed(nodes[keys[|keys| - 1]].loaded))
  }

  datatype Cause =
    | TooDeep(chain: seq<string>, raw: string)
    | NotDescribed(call: nat, raw: string)
    | UsesItself(circle: seq<string>)
    | OverLimit(call: nat, raw: string, charged: seq<string>)
    | IdTaken(call: nat, raw: string, other: string)
    | NotLoaded(call: nat, key: string)

  /** The failure is real: the nodes built so far and the answers that were given show it. */
  ghost predicate Deserved(why: Cause, describe: Describe, load: Load, hash: Fields -> string,
                           nodes: map<string, Node>) {
    match why
    case TooDeep(chain, raw) => |chain| >= MAX_NESTED_ACTION_DEPTH && Reaching(describe, nodes, chain, raw)
    case NotDescribed(call, raw) => describe(call, raw).Err?
    case UsesItself(circle) =>
      circle != [] && Chain(describe, nodes, circle) && Links(describe, nodes, circle[|circle| - 1], circle[0])
    case OverLimit(call, raw, charged) =>
      && describe(call, raw).Ok? && describe(call, raw).value.key !in nodes
      && Distinct(charged) && (forall k :: k in charged <==> k in nodes)
      && Charge(nodes, charged) + PathBytes(describe(call, raw).value.fields.executablePaths) >
        MAX_EXECUTABLE_PATH_BYTES
    case IdTaken(call, raw, other) =>
      && describe(call, raw).Ok? && other in nodes
      && nodes[other].id == hash(describe(call, raw).value.fields) &&
        nodes[other].fields != describe(call, raw).value.fields
    case NotLoaded(call, key) => load(call, key).Err?
  }

  lemma ChainKept(describe: Describe, a: map<string, Node>, b: map<string, Node>, keys: seq<string>)
    requires Chain(describe, a, keys) && forall k :: k in keys ==> k in b && k in a && b[k].loaded == a[k].loaded
    ensures Chain(describe, b, keys)
  {
    hide Names, Distinct, ChildrenUsed;
    forall i, j | 0 <= i < j < |keys| && j == i + 1 ensures Links(describe, b, keys[i], keys[j]) {
      assert Links(describe, a, keys[i], keys[j]);
      assert keys[i] in keys;
    }
  }

  lemma ChainGrows(describe: Describe, nodes: map<string, Node>, keys: seq<string>, raw: string, key: string)
    requires Reaching(describe, nodes, keys, raw) && Names(describe, raw, key) && key in nodes && key !in keys
    ensures Chain(describe, nodes, keys + [key])
  {
    hide Names, ChildrenUsed;
    var all := keys + [key];
    forall i, j | 0 <= i < j < |all| && j == i + 1 ensures Links(describe, nodes, all[i], all[j]) {
      if j < |keys| {
        assert Links(describe, nodes, keys[i], keys[j]);
      } else {
        assert keys[i] in keys;
      }
    }
  }

  /** An action in progress that is met again closes a circle of uses. */
  lemma CircleClosed(describe: Describe, nodes: map<string, Node>, keys: seq<string>, raw: string, key: string,
                     load: Load, hash: Fields -> string) returns (why: Cause)
    requires Reaching(describe, nodes, keys, raw) && Names(describe, raw, key) && key in keys
    ensures Deserved(why, describe, load, hash, nodes)
  {
    hide Names, ChildrenUsed;
    var at :| 0 <= at < |keys| && keys[at] == key;
    var circle := keys[at..];
    why := UsesItself(circle);
    forall i, j | 0 <= i < j < |circle| && j == i + 1 ensures Links(describe, nodes, circle[i], circle[j]) {
      assert Links(describe, nodes, keys[at + i], keys[at + j]);
    }
    assert keys[|keys| - 1] in keys;
  }

  lemma PlainCauses(describe: Describe, load: Load, hash: Fields -> string, nodes: map<string, Node>,
                    call: nat, raw: string)
    ensures describe(call, raw).Err? ==> Deserved(NotDescribed(call, raw), describe, load, hash, nodes)
    ensures load(call, raw).Err? ==> Deserved(NotLoaded(call, raw), describe, load, hash, nodes)
    ensures forall chain :: |chain| >= MAX_NESTED_ACTION_DEPTH && Reaching(describe, nodes, chain, raw) ==>
              Deserved(TooDeep(chain, raw), describe, load, hash, nodes)
  {
    hide Reaching;
  }

  // ----- the builder -----

  class Builder {
    // The n-th answers of the source tree, the network and the file system, which may be anything.
    const describe: Describe
    const load: Load
    const hash: Fields -> string
    var calls: nat
    var nodes: map<string, Node>
    var ids: map<string, Fields>
    var active: set<string>
    var executablePathBytes: nat
    // Proof state: ranks of the finished nodes, and the order in which nodes were charged.
    ghost var rank: map<string, nat>
    ghost var charged: seq<string>

    constructor (describe: Describe, load: Load, hash: Fields -> string)
      ensures Valid() && Now() == Search(map[], map[], {}, map[], [], 0)
      ensures this.hash == hash && this.describe == describe && this.load == load
    {
      this.describe, this.load, this.hash := describe, load, hash;
      calls, nodes, ids, active, executablePathBytes, rank, charged := 0, map[], map[], {}, 0, map[], [];
    }

    ghost function Now(): Search
      reads this
    {
      Search(nodes, ids, active, rank, charged, executablePathBytes)
    }

    ghost predicate Valid()
      reads this
    {
      Good(Now(), hash) && Truthful(describe, nodes) && Sourced(describe, load, nodes, rank)
    }

    /** Charges the paths one by one until the limit is passed. */
    method ChargePaths(paths: seq<string>) returns (ok: bool)
      requires executablePathBytes <= MAX_EXECUTABLE_PATH_BYTES
      modifies this`executablePathBytes
      ensures ok <==> old(executablePathBytes) + PathBytes(paths) <= MAX_EXECUTABLE_PATH_BYTES
      ensures ok ==> executablePathBytes == old(executablePathBytes) + PathBytes(paths)
    {
      for i := 0 to |paths|
        invariant executablePathBytes == old(executablePathBytes) + PathBytes(paths[..i]) <= MAX_EXECUTABLE_PATH_BYTES
      {
        assert paths[..i + 1][..i] == paths[..i];
        executablePathBytes := executablePathBytes + |paths[i]|;
        if executablePathBytes > MAX_EXECUTABLE_PATH_BYTES {
          PathBytesGrow(paths, i + 1);
          return false;
        }
      }
      assert paths[..|paths|] == paths;
      ok := true;
    }

    /** Adds the node of an action and everything below it, or fails; a node that exists is reused
        unless it is still in progress, which means that the action uses itself. */
    method Add(raw: string, depth: nat, ghost above: seq<string>) returns (r: Result<string>, ghost why: Cause)
      requires Valid() && depth == |above| + 1
      requires Reaching(describe, nodes, above, raw) && forall k :: k in above <==> k in active
      modifies this
      ensures r.Ok? ==> Valid() && active == old(active) && Kept(old(Now()), Now()) && r.value in rank
      ensures r.Ok? ==> Names(describe, raw, r.value)
      ensures r.Ok? ==> describe(old(calls), raw).Ok? && describe(old(calls), raw).value.key == r.value
      ensures r.Ok? && r.value !in old(nodes) ==>
          r.value in nodes && nodes[r.value].fields == describe(old(calls), raw).value.fields
      ensures r.Err? ==> Deserved(why, describe, load, hash, nodes)
      decreases MAX_NESTED_ACTION_DEPTH + 1 - depth
    {
      hide Good, Kept, Truthful, Sourced, Reaching, Deserved, Names, InProgress, PathBytes, ChildrenUsed, Above;
      why := TooDeep(above, raw);
      PlainCauses(describe, load, hash, nodes, calls, raw);
      if depth > MAX_NESTED_ACTION_DEPTH {
        return Err("action nesting exceeds maximum depth"), why;
      }
      var described := describe(calls, raw);
      calls := calls + 1;
      KeptSelf(Now());
      NamedNow(describe, calls - 1, raw);
      if described.Err? {
        return Err(described.reason), NotDescribed(calls - 1, raw);
      }
      var key, fields := described.value.key, described.value.fields;
      GoodParts(Now(), hash);
      if key in nodes {
        if key in active {
          why := CircleClosed(describe, nodes, above, raw, key, load, hash);
          return Err("action recursion detected"), why;
        }
        return Ok(key), why;
      }
      ghost var cause;
      var ok;
      ok, cause := AddNew(key, fields, depth, above, raw, old(calls));
      if !ok {
        return Err("the action or one of its children does not compile"), cause;
      }
      r := Ok(key);
    }

    /** Enters the node of an action that is met for the first time, and finishes it. */
    method AddNew(key: string, fields: Fields, depth: nat, ghost above: seq<string>, ghost raw: string, ghost call: nat)
      returns (ok: bool, ghost why: Cause)
      requires Valid() && key !in nodes && describe(call, raw) == Ok(Described(key, fields))
      requires Names(describe, raw, key)
      requires depth == |above| + 1 <= MAX_NESTED_ACTION_DEPTH
      requires Reaching(describe, nodes, above, raw) && forall k :: k in above <==> k in active
      modifies this
      ensures ok ==> Valid() && active == old(active) && Kept(old(Now()), Now())
      ensures ok ==> key in rank && key in nodes && nodes[key].fields == fields
      ensures !ok ==> Deserved(why, describe, load, hash, nodes)
      decreases MAX_NESTED_ACTION_DEPTH + 1 - depth, 2
    {
      hide Good, Kept, Truthful, Sourced, Reaching, Deserved, Names, InProgress, PathBytes, ChildrenUsed, Above;
      ghost var start := Now();
      DescribedNow(describe, call, raw, key, fields);
      ok := Open(key, fields);
      if !ok {
        why := WhyNotOpened(start, describe, load, hash, call, raw);
        return;
      }
      OpenedInProgress(start, Now(), hash, key);
      ok, why := LoadNode(key, depth, start, above, raw);
      if ok {
        FinishIsGood(start, Now(), hash, key);
        SourcedFinish(describe, load, nodes, rank, key, Above(rank));
        rank := rank[key := Above(rank)];
      }
      active := active - {key};
    }

    /** Loads the node in progress and adds everything below it. */
    method LoadNode(key: string, depth: nat, ghost start: Search, ghost above: seq<string>, ghost raw: string)
      returns (ok: bool, ghost why: Cause)
      requires InProgress(start, Now(), hash, key) && key in nodes && Truthful(describe, nodes)
      requires Sourced(describe, load, nodes, rank)
      requires nodes[key].children == map[] && nodes[key].selectors == map[]
      requires depth == |above| + 1 <= MAX_NESTED_ACTION_DEPTH && (forall k :: k in above <==> k in start.active)
      requires Reaching(describe, start.nodes, above, raw) && Names(describe, raw, key)
      modifies this
      ensures ok ==> InProgress(start, Now(), hash, key) && key in nodes && Truthful(describe, nodes)
      ensures ok ==> nodes[key].children.Keys == ChildrenUsed(nodes[key].loaded)
      ensures ok ==> nodes[key].fields == old(nodes)[key].fields
      ensures ok ==> Sourced(describe, load, nodes, rank) && LoadedAs(load, key, nodes[key].loaded)
      ensures !ok ==> Deserved(why, describe, load, hash, nodes)
      decreases MAX_NESTED_ACTION_DEPTH + 1 - depth, 1
    {
      hide Good, Charged, Identified, Kept, InProgress, Truthful, Sourced, DescribedAs, LoadedAs, Reaching, Chain,
        Deserved, Names;
      var loaded := load(calls, key);
      PlainCauses(describe, load, hash, nodes, calls, key);
      LoadedNow(load, calls, key);
      calls := calls + 1;
      if loaded.Err? {
        return false, NotLoaded(calls - 1, key);
      }
      LoadedIsGood(start, Now(), hash, key, loaded.value);
      TruthfulSame(describe, nodes, key, nodes[key].(loaded := loaded.value));
      SourcedInProgress(describe, load, start, Now(), hash, key, nodes[key].(loaded := loaded.value));
      nodes := nodes[key := nodes[key].(loaded := loaded.value)];
      ok, why := true, NotLoaded(0, "");
      if loaded.value.Composite? {
        AboveKept(describe, start, Now(), hash, key, above, raw);
        ok, why := AddChildren(key, loaded.value.uses, depth, start, above);
      }
    }

    /** Charges a new lock and enters its node, unless the limit is passed or its ID is taken. */
    method Open(key: string, fields: Fields) returns (ok: bool)
      requires Valid() && key !in nodes && DescribedAs(describe, key, fields)
      modifies this
      ensures calls == old(calls)
      ensures ok <==> old(executablePathBytes) + PathBytes(fields.executablePaths) <= MAX_EXECUTABLE_PATH_BYTES &&
                      (hash(fields) in old(ids) ==> old(ids)[hash(fields)] == fields)
      ensures !ok ==> nodes == old(nodes)
      ensures ok ==> Valid() && Kept(old(Now()), Now()) && rank == old(rank)
      ensures ok ==> active == old(active) + {key} && key !in old(active)
      ensures ok ==> nodes == old(nodes)[key := NewNode(fields, hash(fields))]
      ensures ok ==> executablePathBytes == old(executablePathBytes) + PathBytes(fields.executablePaths)
    {
      hide Good, Kept, PathBytes, Truthful, Sourced, DescribedAs;
      ghost var start := Now();
      GoodParts(start, hash);
      ok := ChargePaths(fields.executablePaths);
      if ok {
        var id := hash(fields);
        if id in ids && ids[id] != fields {
          return false;
        }
        Insert(start, hash, key, fields);
        TruthfulSame(describe, nodes, key, NewNode(fields, id));
        SourcedWith(describe, load, nodes, rank, key, NewNode(fields, id));
        ids := ids[id := fields];
        nodes := nodes[key := NewNode(fields, id)];
        active := active + {key};
        charged := charged + [key];
      }
    }

    /** Adds the children of the node in progress and writes their selectors. */
    method AddChildren(key: string, uses: seq<string>, depth: nat, ghost start: Search, ghost above: seq<string>)
      returns (ok: bool, ghost why: Cause)
      requires InProgress(start, Now(), hash, key) && key in nodes && nodes[key].loaded == Composite(uses)
      requires nodes[key].children == map[]
      requires depth <= MAX_NESTED_ACTION_DEPTH && Truthful(describe, nodes) && Sourced(describe, load, nodes, rank)
      requires depth == |above| + 1 && (forall k :: k in above <==> k in start.active)
      requires Chain(describe, nodes, above + [key])
      modifies this
      ensures ok ==> InProgress(start, Now(), hash, key) && key in nodes && Truthful(describe, nodes)
      ensures ok ==> nodes[key].fields == old(nodes)[key].fields && nodes[key].id == old(nodes)[key].id
      ensures ok ==> nodes[key].loaded == Composite(uses) && nodes[key].children.Keys == ChildrenUsed(Composite(uses))
      ensures ok ==> Sourced(describe, load, nodes, rank)
      ensures !ok ==> Deserved(why, describe, load, hash, nodes)
      decreases MAX_NESTED_ACTION_DEPTH + 1 - depth, 0
    {
      hide Good, Charged, Identified, Kept, InProgress, Truthful, Sourced, DescribedAs, LoadedAs, Names, Chain,
        Deserved;
      why := NotLoaded(0, "");
      ProgressParts(start, Now(), hash, key);
      for i := 0 to |uses|
        invariant InProgress(start, Now(), hash, key) && Truthful(describe, nodes)
        invariant Sourced(describe, load, nodes, rank)
        invariant key in nodes && nodes[key].loaded == Composite(uses)
        invariant nodes[key].fields == old(nodes)[key].fields && nodes[key].id == old(nodes)[key].id
        invariant nodes[key].children.Keys == ChildrenUsed(Composite(uses[..i]))
        invariant Chain(describe, nodes, above + [key])
      {
        UsedSoFar(uses, i);
        if uses[i] != "" {
          ghost var before := Now();
          ProgressParts(start, before, hash, key);
          InProgressAbove(start, before, hash, key, above);
          var child;
          ghost var deeper;
          child, deeper := Add(uses[i], depth + 1, above + [key]);
          if child.Err? {
            return false, deeper;
          }
          ChainKeptByAdd(describe, before, Now(), above + [key]);
          ChildIsGood(start, before, Now(), hash, key, uses[i], child.value);
          TruthfulChild(describe, nodes, key, uses[i], child.value, nodes[child.value].id);
          ProgressNode(start, before, Now(), hash, key);
          SourcedBeside(describe, load, Now(), hash, key,
                        WithChild(nodes[key], uses[i], child.value, nodes[child.value].id));
          ChainIsBuilt(describe, nodes, above + [key]);
          ChainKept(describe, nodes, nodes[key := WithChild(nodes[key], uses[i], child.value, nodes[child.value].id)],
            above + [key]);
          nodes := nodes[key := WithChild(nodes[key], uses[i], child.value, nodes[child.value].id)];
        }
      }
      assert uses[..|uses|] == uses;
      ok := true;
    }
  }

  /** Only the node in progress has been added to what was there, and what finished below it. */
  ghost predicate InProgress(start: Search, s: Search, hash: Fields -> string, key: string) {
    Good(s, hash) && key in s.active && key !in start.nodes && key !in start.active &&
      s.active == start.active + {key} && Kept(start, s)
  }

  lemma SourcedInProgress(describe: Describe, load: Load, start: Search, s: Search, hash: Fields -> string, key: string,
                          n: Node)
    requires InProgress(start, s, hash, key) && key in s.nodes && n.fields == s.nodes[key].fields
    requires Sourced(describe, load, s.nodes, s.rank)
    ensures Sourced(describe, load, s.nodes[key := n], s.rank)
  {
    hide Good, Kept, Sourced, DescribedAs;
    SourcedBeside(describe, load, s, hash, key, n);
  }

  /** Changing an active node, its content apart, does not matter. */
  lemma SourcedBeside(describe: Describe, load: Load, s: Search, hash: Fields -> string, key: string, n: Node)
    requires Good(s, hash) && key in s.active && key in s.nodes && n.fields == s.nodes[key].fields
    requires Sourced(describe, load, s.nodes, s.rank)
    ensures Sourced(describe, load, s.nodes[key := n], s.rank)
  {
    hide Good, Sourced, DescribedAs;
    NotRanked(s, hash, key);
    SourcedAt(describe, load, s.nodes, s.rank, key);
    SourcedWith(describe, load, s.nodes, s.rank, key, n);
  }

  lemma ProgressNode(start: Search, before: Search, s: Search, hash: Fields -> string, key: string)
    requires InProgress(start, before, hash, key) && s.active == before.active
    ensures key in s.active
  {
    hide Good, Kept;
  }

  lemma InProgressAbove(start: Search, s: Search, hash: Fields -> string, key: string, above: seq<string>)
    requires InProgress(start, s, hash, key) && forall k :: k in above <==> k in start.active
    ensures forall k :: k in above + [key] <==> k in s.active
  {
    hide Good, Kept;
  }

  lemma ChainKeptByAdd(describe: Describe, s: Search, t: Search, keys: seq<string>)
    requires Chain(describe, s.nodes, keys) && Kept(s, t)
    ensures Chain(describe, t.nodes, keys)
  {
    ChainIsBuilt(describe, s.nodes, keys);
    hide Chain;
    ChainKept(describe, s.nodes, t.nodes, keys);
  }

  lemma ChainIsBuilt(describe: Describe, nodes: map<string, Node>, keys: seq<string>)
    requires Chain(describe, nodes, keys)
    ensures forall k :: k in keys ==> k in nodes
  {
  }

  /** The chain reaches the node that has just been loaded. */
  lemma AboveKept(describe: Describe, start: Search, s: Search, hash: Fields -> string, key: string,
                  above: seq<string>, raw: string)
    requires Reaching(describe, start.nodes, above, raw) && Names(describe, raw, key)
    requires InProgress(start, s, hash, key) && key in s.nodes
    ensures Chain(describe, s.nodes, above + [key])
  {
    ChainIsBuilt(describe, start.nodes, above);
    hide Names, Chain, Good;
    ChainKept(describe, start.nodes, s.nodes, above);
    ChainGrows(describe, s.nodes, above, raw, key);
  }

  lemma WhyNotOpened(s: Search, describe: Describe, load: Load, hash: Fields -> string, call: nat,
                     raw: string) returns (why: Cause)
    requires Good(s, hash) && describe(call, raw).Ok? && describe(call, raw).value.key !in s.nodes
    requires var fields := describe(call, raw).value.fields;
             s.bytes + PathBytes(fields.executablePaths) > MAX_EXECUTABLE_PATH_BYTES ||
             (hash(fields) in s.ids && s.ids[hash(fields)] != fields)
    ensures Deserved(why, describe, load, hash, s.nodes)
  {
    hide PathBytes, ChildrenUsed, NamesChildren, Finished, Charge, Reaching, Chain, Links;
    var fields := describe(call, raw).value.fields;
    if s.bytes + PathBytes(fields.executablePaths) > MAX_EXECUTABLE_PATH_BYTES {
      why := OverLimit(call, raw, s.charged);
    } else {
      assert Owned(s.nodes, hash(fields), s.ids[hash(fields)]);
      var other :| other in s.nodes && s.nodes[other].id == hash(fields) &&
        s.nodes[other].fields == s.ids[hash(fields)];
      why := IdTaken(call, raw, other);
    }
  }

  lemma ProgressParts(start: Search, s: Search, hash: Fields -> string, key: string)
    requires InProgress(start, s, hash, key)
    ensures Good(s, hash) && key in s.active && key in s.nodes
  {
    hide Charged, Identified, Kept;
  }

  lemma KeptSelf(s: Search)
    ensures Kept(s, s)
  {
  }

  lemma GoodParts(s: Search, hash: Fields -> string)
    requires Good(s, hash)
    ensures s.nodes.Keys == s.active + s.rank.Keys && s.bytes <= MAX_EXECUTABLE_PATH_BYTES
  {
  }

  lemma {:induction false} PathBytesGrow(paths: seq<string>, n: nat)
    requires n <= |paths|
    ensures PathBytes(paths[..n]) <= PathBytes(paths)
  {
    if n < |paths| {
      PathBytesGrow(paths[..|paths| - 1], n);
      assert paths[..|paths| - 1][..n] == paths[..n];
    } else {
      assert paths[..n] == paths;
    }
  }

  lemma OpenedInProgress(start: Search, s: Search, hash: Fields -> string, key: string)
    requires Good(s, hash) && Kept(start, s) && key !in start.nodes && key !in start.active
    requires s.active == start.active + {key}
    ensures InProgress(start, s, hash, key) && key in s.nodes
  {
    hide Charged, Identified, Kept, Finished;
  }

  lemma LoadedIsGood(start: Search, s: Search, hash: Fields -> string, key: string, loaded: Loaded)
    requires InProgress(start, s, hash, key) && key in s.nodes
    requires s.nodes[key].children == map[] && s.nodes[key].selectors == map[]
    ensures InProgress(start, s.(nodes := s.nodes[key := s.nodes[key].(loaded := loaded)]), hash, key)
  {
    hide Good, Kept, NamesChildren;
    var n := s.nodes[key].(loaded := loaded);
    NoChildren(s.nodes, n);
    Update(s, hash, key, n);
    KeptBeside(start, s, key, n);
  }

  /** A node that was not there at the start may change. */
  lemma KeptBeside(start: Search, s: Search, key: string, n: Node)
    requires Kept(start, s) && key !in start.nodes
    ensures Kept(start, s.(nodes := s.nodes[key := n]))
  {
  }

  lemma KeptTwice(a: Search, b: Search, c: Search)
    requires Kept(a, b) && Kept(b, c)
    ensures Kept(a, c)
  {
  }

  lemma FinishIsGood(start: Search, s: Search, hash: Fields -> string, key: string)
    requires InProgress(start, s, hash, key) && key in s.nodes
    requires s.nodes[key].children.Keys == ChildrenUsed(s.nodes[key].loaded)
    ensures var t := s.(active := s.active - {key}, rank := s.rank[key := Above(s.rank)]);
            Good(t, hash) && t.active == start.active && Kept(start, t)
  {
    hide Good, Kept;
    NotActive(start, s, hash, key);
    NotRanked(s, hash, key);
    Finish(s, hash, key);
    assert s.active - {key} == start.active;
    RankedBeside(start, s, key);
  }

  lemma NotRanked(s: Search, hash: Fields -> string, key: string)
    requires Good(s, hash) && key in s.active
    ensures key !in s.rank
  {
    hide Charged, Identified, Finished;
  }

  /** A new rank disturbs none that was there. */
  lemma RankedBeside(start: Search, s: Search, key: string)
    requires Kept(start, s) && key !in s.rank
    ensures Kept(start, s.(active := s.active - {key}, rank := s.rank[key := Above(s.rank)]))
  {
    hide Above;
  }

  lemma NotActive(start: Search, s: Search, hash: Fields -> string, key: string)
    requires InProgress(start, s, hash, key)
    ensures key !in start.active
  {
  }

  lemma UsedSoFar(uses: seq<string>, i: nat)
    requires i < |uses|
    ensures ChildrenUsed(Composite(uses[..i + 1])) ==
              ChildrenUsed(Composite(uses[..i])) + if uses[i] == "" then {} else {uses[i]}
  {
    assert uses[..i + 1] == uses[..i] + [uses[i]];
  }

  lemma ChildIsGood(start: Search, before: Search, s: Search, hash: Fields -> string, key: string, u: string,
                    child: string)
    requires InProgress(start, before, hash, key) && Good(s, hash) && s.active == before.active && Kept(before, s)
    requires key in before.nodes && child in s.rank
    ensures key in s.nodes && s.nodes[key] == before.nodes[key] && child in s.nodes
    ensures InProgress(start, s.(nodes := s.nodes[key := WithChild(s.nodes[key], u, child, s.nodes[child].id)]), hash,
        key)
  {
    ActiveParts(s, hash, key);
    assert s.nodes[key] == before.nodes[key];
    hide Good, NamesChildren, Kept;
    var n := WithChild(s.nodes[key], u, child, s.nodes[child].id);
    ChildNamed(s.nodes, s.nodes[key], u, child);
    Update(s, hash, key, n);
    KeptTwice(start, before, s);
    KeptBeside(start, s, key, n);
  }

  lemma ActiveParts(s: Search, hash: Fields -> string, key: string)
    requires Good(s, hash) && key in s.active
    ensures s.nodes.Keys == s.active + s.rank.Keys && NamesChildren(s.nodes, s.nodes[key])
    ensures forall u :: u in s.nodes[key].children ==> s.nodes[key].children[u] in s.rank
  {
    hide Charged, Identified, Finished;
  }

  lemma ChildNamed(nodes: map<string, Node>, n: Node, u: string, child: string)
    requires NamesChildren(nodes, n) && child in nodes
    ensures NamesChildren(nodes, WithChild(n, u, child, nodes[child].id))
  {
  }

  // ----- the whole graph -----

  /** A built graph: acyclic and closed, each node charged once, each ID with one content. */
  ghost predicate BuiltGraph(s: Search, hash: Fields -> string, roots: seq<string>) {
    && s.active == {}
    && (forall k :: k in s.nodes <==> k in s.rank)
    && (forall k :: k in s.nodes ==> NamesChildren(s.nodes, s.nodes[k]))
    && Finished(s.nodes, s.rank)
    && Identified(s.nodes, s.ids, hash)
    && Charged(s.nodes, s.charged, s.bytes)
    && (forall r :: r in roots ==> r in s.nodes)
  }

  /** The node is what was answered: its content as some description gave it, what was loaded for its key, and
      one child for each action that the steps of a loaded composite action use. */
  ghost predicate Answered(describe: Describe, load: Load, key: string, n: Node) {
    && (exists call, u :: describe(call, u) == Ok(Described(key, n.fields)))
    && exists call :: load(call, key) == Ok(n.loaded) &&
         match load(call, key).value
         case Composite(uses) => forall u :: u in n.children <==> u in uses && u != ""
         case _ => n.children == map[]
  }

  lemma AllAnswered(s: Search, hash: Fields -> string, roots: seq<string>, describe: Describe, load: Load)
    requires BuiltGraph(s, hash, roots) && Sourced(describe, load, s.nodes, s.rank)
    ensures forall k :: k in s.nodes ==> Answered(describe, load, k, s.nodes[k])
  {
    hide Charged, Identified, NamesChildren;
    forall k | k in s.nodes ensures Answered(describe, load, k, s.nodes[k]) {
      var n := s.nodes[k];
      assert n.children.Keys == ChildrenUsed(n.loaded);
      assert LoadedAs(load, k, n.loaded) && DescribedAs(describe, k, n.fields);
      var call :| load(call, k) == Ok(n.loaded);
      if !n.loaded.Composite? { assert n.children == map[]; }
    }
  }

  method BuildActionGraph(refs: seq<string>, describe: Describe, load: Load, hash: Fields -> string)
    returns (r: Result<map<string, Node>>, ghost s: Search, ghost roots: seq<string>, ghost why: Cause)
    ensures r.Ok? ==> BuiltGraph(s, hash, roots) && s.nodes == r.value
    ensures r.Ok? ==> Truthful(describe, r.value)
    ensures r.Ok? ==> forall k :: k in r.value ==> Answered(describe, load, k, r.value[k])
    ensures r.Ok? ==> |roots| == |refs| && forall i :: 0 <= i < |refs| ==> Names(describe, refs[i], roots[i])
    ensures r.Err? ==> Deserved(why, describe, load, hash, s.nodes)
  {
    hide Good, Kept, Truthful, Sourced, Answered, Names, Deserved;
    roots, why := [], NotLoaded(0, "");
    var b := new Builder(describe, load, hash);
    s := b.Now();
    for i := 0 to |refs|
      invariant b.Valid() && b.active == {} && b.hash == hash && b.describe == describe && b.load == load
      invariant |roots| == i
      invariant forall n :: 0 <= n < i ==> Names(describe, refs[n], roots[n])
      invariant forall k :: k in roots ==> k in b.rank
    {
      ghost var before := b.Now();
      var added;
      ghost var cause;
      added, cause := b.Add(refs[i], 1, []);
      if added.Err? {
        return Err(added.reason), b.Now(), roots, cause;
      }
      RanksKept(before, b.Now());
      roots := roots + [added.value];
    }
    s := b.Now();
    BuiltWhole(s, hash, roots);
    AllAnswered(s, hash, roots, describe, load);
    r := Ok(b.nodes);
  }

  lemma RanksKept(s: Search, t: Search)
    requires Kept(s, t)
    ensures forall k :: k in s.rank ==> k in t.rank
  {
  }

  lemma BuiltWhole(s: Search, hash: Fields -> string, roots: seq<string>)
    requires Good(s, hash) && s.active == {} && forall r :: r in roots ==> r in s.rank
    ensures BuiltGraph(s, hash, roots)
  {
    hide Charged, Identified;
  }

  /** A walk down the children of a built graph. */
  ghost predicate IsWalk(nodes: map<string, Node>, walk: seq<string>) {
    && walk != []
    && (forall i :: 0 <= i < |walk| ==> walk[i] in nodes)
    && forall i, j :: 0 <= i < j < |walk| && j == i + 1 ==> walk[j] in nodes[walk[i]].children.Values
  }

  /** No action reaches itself, so running a built graph ends. */
  lemma {:induction false} WalksDescend(s: Search, hash: Fields -> string, roots: seq<string>, walk: seq<string>)
    requires BuiltGraph(s, hash, roots) && IsWalk(s.nodes, walk)
    ensures s.rank[walk[|walk| - 1]] + |walk| - 1 <= s.rank[walk[0]]
    ensures |walk| > 1 ==> walk[|walk| - 1] != walk[0]
  {
    hide Charged, Identified, NamesChildren;
    if |walk| > 1 {
      var front := walk[..|walk| - 1];
      assert forall i :: 0 <= i < |front| ==> front[i] == walk[i];
      WalksDescend(s, hash, roots, front);
      var k := walk[|walk| - 2];
      assert walk[|walk| - 1] in s.nodes[k].children.Values;
      var u :| u in s.nodes[k].children && s.nodes[k].children[u] == walk[|walk| - 1];
      assert ChildrenBelow(s.rank, s.nodes[k], s.rank[k]);
    }
  }

  /** Two locks of a built graph share an ID only if their contents are equal. */
  lemma LockIdsIdentify(s: Search, hash: Fields -> string, roots: seq<string>, k: string, l: string)
    requires BuiltGraph(s, hash, roots) && k in s.nodes && l in s.nodes && s.nodes[k].id == s.nodes[l].id
    ensures s.nodes[k].fields == s.nodes[l].fields
  {
    hide Charged, Finished, NamesChildren;
  }

  // ----- what is charged -----

  function Text(paths: seq<string>): string {
    if paths == [] then "" else Text(paths[..|paths| - 1]) + paths[|paths| - 1]
  }

  /** All executable paths of the listed nodes, one after the other. */
  ghost function PathText(nodes: map<string, Node>, keys: seq<string>): string {
    if keys == [] then ""
    else
      var last := keys[|keys| - 1];
      PathText(nodes, keys[..|keys| - 1]) + if last in nodes then Text(nodes[last].fields.executablePaths) else ""
  }

  lemma {:induction false} TextLength(paths: seq<string>)
    ensures |Text(paths)| == PathBytes(paths)
  {
    if paths != [] { TextLength(paths[..|paths| - 1]); }
  }

  /** The charge is the length of all paths of all charged nodes. */
  lemma {:induction false} ChargeIsLength(nodes: map<string, Node>, keys: seq<string>)
    ensures Charge(nodes, keys) == |PathText(nodes, keys)|
  {
    hide Text, PathBytes;
    if keys != [] {
      var last := keys[|keys| - 1];
      ChargeIsLength(nodes, keys[..|keys| - 1]);
      if last in nodes { TextLength(nodes[last].fields.executablePaths); }
    }
  }

  /** The executable paths of a built graph stay within the limit: each node counts once. */
  lemma PathsWithinLimit(s: Search, hash: Fields -> string, roots: seq<string>)
    requires BuiltGraph(s, hash, roots)
    ensures |PathText(s.nodes, s.charged)| <= MAX_EXECUTABLE_PATH_BYTES
    ensures Distinct(s.charged) && forall k :: k in s.charged <==> k in s.nodes
  {
    hide Identified, Finished, NamesChildren, Charge, PathText;
    ChargeIsLength(s.nodes, s.charged);
  }
}
