/**
 The safety gate in front of every JSON-RPC `result` (section 5 of the JSON-RPC 2.0
 specification): shared/protocol/envelopes.ts.

 A JavaScript value is a primitive or a reference into an object graph, so sharing and cycles
 are expressible.  The code walks the graph with an explicit stack and three early exits.  The
 reference definition lists the nodes of the unfolded tree recursively, and a second one speaks
 only of paths from the root.  All three are proved to agree.
 */
module SafeJson {
  import opened Wrappers

  const MAX_DEPTH: nat := 128
  const MAX_NODES: nat := 65536

  type Ref = nat

  /** `Unsupported` is undefined, a function, a symbol or a bigint. */
  datatype Value = Null | Str | Bool | Number(finite: bool) | Unsupported | Object(ref: Ref)

  /** What a reference denotes; the value order is the order of `Object.keys`. */
  datatype Body =
    | Array(items: seq<Value>)
    | Record(plainPrototype: bool, entries: seq<(string, Value)>)

  type Heap = Ref -> Body

  const DANGEROUS_KEYS: set<string> := {"__proto__", "prototype", "constructor"}

  predicate HasPlainShape(body: Body) {
    match body
    case Array(_) => true
    case Record(plainPrototype, entries) =>
      plainPrototype && forall i | 0 <= i < |entries| :: entries[i].0 !in DANGEROUS_KEYS
  }

  /** A node that JSON may contain, looking at this node alone. */
  predicate Legal(heap: Heap, v: Value) {
    match v
    case Number(finite) => finite
    case Unsupported => false
    case Object(ref) => HasPlainShape(heap(ref))
    case _ => true
  }

  function EntryValues(body: Body): (values: seq<Value>) {
    match body
    case Array(items) => items
    case Record(_, entries) => seq(|entries|, i requires 0 <= i < |entries| => entries[i].1)
  }

  function Children(heap: Heap, v: Value): (values: seq<Value>) {
    if v.Object? then EntryValues(heap(v.ref)) else []
  }

  // ---------- Recursive reference definition ----------

  datatype Node = Node(value: Value, depth: nat)

  function Levels(depth: nat): (levels: nat)
    ensures levels >= 1
  {
    if depth <= MAX_DEPTH then MAX_DEPTH + 2 - depth else 1
  }

  /** The nodes of the tree below `v`, in document order, down to the first forbidden level. */
  function Nodes(heap: Heap, v: Value, depth: nat): (nodes: seq<Node>)
    ensures |nodes| >= 1
    decreases Levels(depth), 0, 0
  {
    [Node(v, depth)] + ListNodes(heap, Children(heap, v), depth, 0)
  }

  function ListNodes(heap: Heap, values: seq<Value>, depth: nat, from: nat): (nodes: seq<Node>)
    ensures depth <= MAX_DEPTH ==> |nodes| >= |values| - from
    decreases Levels(depth) - 1, 1, if from <= |values| then |values| - from else 0
  {
    if from >= |values| || depth > MAX_DEPTH then []
    else Nodes(heap, values[from], depth + 1) + ListNodes(heap, values, depth, from + 1)
  }

  ghost predicate AllLegal(heap: Heap, nodes: seq<Node>) {
    forall i | 0 <= i < |nodes| :: Legal(heap, nodes[i].value) && nodes[i].depth <= MAX_DEPTH
  }

  ghost predicate NoSharing(nodes: seq<Node>) {
    forall i, j | 0 <= i < j < |nodes| && nodes[i].value.Object? ::
      nodes[i].value != nodes[j].value
  }

  ghost predicate Safe(heap: Heap, root: Value) {
    var nodes := Nodes(heap, root, 0);
    |nodes| <= MAX_NODES && AllLegal(heap, nodes) && NoSharing(nodes)
  }

  // ---------- The worklist ----------

  /** What a stack still owes to the listing; the top of the stack is the end of the sequence. */
  ghost function Owed(heap: Heap, pending: seq<Node>): (nodes: seq<Node>)
    ensures |nodes| >= |pending|
  {
    if pending == [] then []
    else
      var top := pending[|pending| - 1];
      Nodes(heap, top.value, top.depth) + Owed(heap, pending[..|pending| - 1])
  }

  ghost function RefsOf(nodes: seq<Node>): set<Ref> {
    set i | 0 <= i < |nodes| && nodes[i].value.Object? :: nodes[i].value.ref
  }

  /** `done` was popped and accepted, `rest` is still to come. */
  ghost predicate Listed(heap: Heap, root: Value, done: seq<Node>, rest: seq<Node>) {
    done + rest == Nodes(heap, root, 0) && AllLegal(heap, done) && NoSharing(done)
  }

  lemma Regroup(a: seq<Node>, b: seq<Node>, c: seq<Node>)
    ensures a + b + c == a + (b + c)
  {
  }

  /** The nodes still to be listed once the top of the stack has been popped. */
  ghost function RestAfterPop(heap: Heap, pending: seq<Node>): seq<Node>
    requires pending != []
  {
    var top := pending[|pending| - 1];
    ListNodes(heap, Children(heap, top.value), top.depth, 0) + Owed(heap, pending[..|pending| - 1])
  }

  lemma StartListing(heap: Heap, root: Value)
    ensures Listed(heap, root, [], Owed(heap, [Node(root, 0)])) && RefsOf([]) == {}
  {
    assert [Node(root, 0)][..0] == [];
  }

  lemma FinishListing(heap: Heap, root: Value, done: seq<Node>, pending: seq<Node>)
    requires Listed(heap, root, done, Owed(heap, pending)) && pending == [] && |done| <= MAX_NODES
    ensures Safe(heap, root)
  {
  }

  lemma LeafOwesNothing(heap: Heap, node: Node, rest: seq<Node>)
    requires !node.value.Object?
    ensures ListNodes(heap, Children(heap, node.value), node.depth, 0) + rest == rest
  {
  }

  lemma PopNode(heap: Heap, root: Value, done: seq<Node>, pending: seq<Node>)
    requires pending != []
    requires Listed(heap, root, done, Owed(heap, pending))
    ensures Listed(heap, root, done, [pending[|pending| - 1]] + RestAfterPop(heap, pending))
  {
    var top := pending[|pending| - 1];
    Regroup([top], ListNodes(heap, Children(heap, top.value), top.depth, 0), Owed(heap, pending[..|pending| - 1]));
  }

  lemma RejectNode(heap: Heap, root: Value, done: seq<Node>, node: Node, rest: seq<Node>)
    requires Listed(heap, root, done, [node] + rest)
    requires !Legal(heap, node.value) || node.depth > MAX_DEPTH
          || (node.value.Object? && node.value.ref in RefsOf(done))
    ensures !Safe(heap, root)
  {
    var nodes := Nodes(heap, root, 0);
    assert nodes[|done|] == node;
    if node.value.Object? && node.value.ref in RefsOf(done) {
      var i :| 0 <= i < |done| && done[i].value.Object? && done[i].value.ref == node.value.ref;
      assert nodes[i] == done[i];
    }
  }

  lemma AcceptNode(heap: Heap, root: Value, done: seq<Node>, node: Node, rest: seq<Node>)
    requires Listed(heap, root, done, [node] + rest)
    requires Legal(heap, node.value) && node.depth <= MAX_DEPTH
    requires node.value.Object? ==> node.value.ref !in RefsOf(done)
    ensures Listed(heap, root, done + [node], rest)
    ensures RefsOf(done + [node])
         == RefsOf(done) + if node.value.Object? then {node.value.ref} else {}
  {
    var next := done + [node];
    Regroup(done, [node], rest);
    forall i | 0 <= i < |done| && done[i].value.Object? ensures done[i].value.ref in RefsOf(done) {}
    forall r | r in RefsOf(done) ensures r in RefsOf(next) {
      var i :| 0 <= i < |done| && done[i].value.Object? && done[i].value.ref == r;
      assert next[i] == done[i];
    }
    if node.value.Object? { assert next[|done|] == node; }
  }

  lemma RejectCount(heap: Heap, root: Value, done: seq<Node>, below: seq<Node>, rest: seq<Node>)
    requires Listed(heap, root, done, below + rest)
    requires |done| + |below| + |rest| > MAX_NODES
    ensures !Safe(heap, root)
  {
  }

  lemma OwedAfterPush(heap: Heap, pending: seq<Node>, top: Node)
    ensures Owed(heap, pending + [top]) == Nodes(heap, top.value, top.depth) + Owed(heap, pending)
  {
    assert (pending + [top])[..|pending|] == pending;
  }

  lemma ListNodesStep(heap: Heap, values: seq<Value>, depth: nat, from: nat)
    requires depth <= MAX_DEPTH && from <= |values|
    ensures ListNodes(heap, values, depth, from)
         == if from == |values| then [] else
              Nodes(heap, values[from], depth + 1) + ListNodes(heap, values, depth, from + 1)
  {
  }

  method PushEntries(heap: Heap, pending: seq<Node>, entries: seq<Value>, depth: nat)
    returns (stack: seq<Node>)
    requires depth <= MAX_DEPTH
    ensures |stack| == |pending| + |entries|
    ensures Owed(heap, stack) == ListNodes(heap, entries, depth, 0) + Owed(heap, pending)
  {
    hide Nodes, ListNodes, Owed;
    stack := pending;
    var index := |entries|;
    ListNodesStep(heap, entries, depth, index);
    while index > 0
      invariant 0 <= index <= |entries|
      invariant |stack| == |pending| + |entries| - index
      invariant Owed(heap, stack) == ListNodes(heap, entries, depth, index) + Owed(heap, pending)
    {
      index := index - 1;
      var top := Node(entries[index], depth + 1);
      OwedAfterPush(heap, stack, top);
      ListNodesStep(heap, entries, depth, index);
      Regroup(Nodes(heap, top.value, top.depth), ListNodes(heap, entries, depth, index + 1), Owed(heap, pending));
      stack := stack + [top];
    }
  }

  /** `peak` is the largest stack height reached. */
  method IsSafeJsonValue(heap: Heap, root: Value) returns (ok: bool, ghost peak: nat)
    ensures ok <==> Safe(heap, root)
    ensures peak <= MAX_NODES
  {
    hide Nodes, ListNodes, Owed, Safe, Listed, RefsOf;
    var pending := [Node(root, 0)];
    var visited: set<Ref> := {};
    var nodeCount := 0;
    ghost var done: seq<Node> := [];
    StartListing(heap, root);
    peak := 1;
    while |pending| > 0
      invariant Listed(heap, root, done, Owed(heap, pending))
      invariant nodeCount == |done| && nodeCount + |pending| <= MAX_NODES
      invariant visited == RefsOf(done)
      invariant |pending| <= peak <= MAX_NODES
      decreases MAX_NODES - nodeCount
    {
      PopNode(heap, root, done, pending);
      ghost var rest := RestAfterPop(heap, pending);
      var current := pending[|pending| - 1];
      pending := pending[..|pending| - 1];
      nodeCount := nodeCount + 1;
      if current.depth > MAX_DEPTH || nodeCount > MAX_NODES
        || !Legal(heap, current.value) || (current.value.Object? && current.value.ref in visited)
      {
        RejectNode(heap, root, done, current, rest);
        return false, peak;
      }
      AcceptNode(heap, root, done, current, rest);
      done := done + [current];
      if !current.value.Object? {
        LeafOwesNothing(heap, current, Owed(heap, pending));
        continue;
      }
      visited := visited + {current.value.ref};
      var entries := EntryValues(heap(current.value.ref));
      if nodeCount + |pending| + |entries| > MAX_NODES {
        RejectCount(heap, root, done, ListNodes(heap, entries, current.depth, 0), Owed(heap, pending));
        return false, peak;
      }
      pending := PushEntries(heap, pending, entries, current.depth);
      peak := if |pending| > peak then |pending| else peak;
    }
    FinishListing(heap, root, done, pending);
    return true, peak;
  }

  // ---------- Paths ----------

  /** The value reached by taking the given child at each level. */
  function At(heap: Heap, root: Value, path: seq<nat>): (v: Option<Value>) {
    if path == [] then Some(root)
    else
      var parent := At(heap, root, path[..|path| - 1]);
      var last := path[|path| - 1];
      if parent.Some? && last < |Children(heap, parent.value)|
      then Some(Children(heap, parent.value)[last]) else None
  }

  ghost predicate ReachesAt(heap: Heap, root: Value, path: seq<nat>, v: Value) {
    At(heap, root, path) == Some(v)
  }

  /** Every path ends at a legal value within the depth limit, and no object has two paths. */
  ghost predicate SafeByPaths(heap: Heap, root: Value) {
    && (forall p, v | ReachesAt(heap, root, p, v) :: Legal(heap, v) && |p| <= MAX_DEPTH)
    && (forall p, q, v | ReachesAt(heap, root, p, v) && ReachesAt(heap, root, q, v) && v.Object? :: p == q)
  }

  /** The paths to the nodes of the listing, in the order of the listing. */
  ghost function Paths(heap: Heap, v: Value, path: seq<nat>): (paths: seq<seq<nat>>)
    decreases Levels(|path|), 0, 0
  {
    [path] + ListPaths(heap, Children(heap, v), path, 0)
  }

  ghost function ListPaths(heap: Heap, values: seq<Value>, path: seq<nat>, from: nat): (paths: seq<seq<nat>>)
    decreases Levels(|path|) - 1, 1, if from <= |values| then |values| - from else 0
  {
    if from >= |values| || |path| > MAX_DEPTH then []
    else Paths(heap, values[from], path + [from]) + ListPaths(heap, values, path, from + 1)
  }

  ghost predicate Locates(heap: Heap, root: Value, path: seq<nat>, node: Node, start: seq<nat>) {
    ReachesAt(heap, root, path, node.value) && |path| == node.depth && start <= path
  }

  /** Entry `i` of the listing is what path `i` leads to. */
  lemma {:induction false} PathsLocateNodes(heap: Heap, root: Value, v: Value, path: seq<nat>)
    requires ReachesAt(heap, root, path, v)
    ensures |Paths(heap, v, path)| == |Nodes(heap, v, |path|)|
    ensures forall i | 0 <= i < |Paths(heap, v, path)| ::
      Locates(heap, root, Paths(heap, v, path)[i], Nodes(heap, v, |path|)[i], path)
    decreases Levels(|path|), 0, 0
  {
    ListPathsLocateNodes(heap, root, v, path, 0);
  }

  /** Each path leads to the node of the same index, through a child of `path` from the given one on. */
  ghost predicate LocateAll(heap: Heap, root: Value, path: seq<nat>, from: nat, paths: seq<seq<nat>>, nodes: seq<Node>) {
    && |paths| == |nodes|
    && forall i | 0 <= i < |paths| ::
         Locates(heap, root, paths[i], nodes[i], path) && |paths[i]| > |path| && paths[i][|path|] >= from
  }

  lemma LocateAllJoin(heap: Heap, root: Value, path: seq<nat>, from: nat, first: seq<seq<nat>>, firstNodes: seq<Node>,
                      others: seq<seq<nat>>, otherNodes: seq<Node>)
    requires |first| == |firstNodes|
    requires forall i | 0 <= i < |first| :: Locates(heap, root, first[i], firstNodes[i], path + [from])
    requires LocateAll(heap, root, path, from + 1, others, otherNodes)
    ensures LocateAll(heap, root, path, from, first + others, firstNodes + otherNodes)
  {
    hide ReachesAt;
    forall i | 0 <= i < |first|
      ensures Locates(heap, root, first[i], firstNodes[i], path) && |first[i]| > |path| && first[i][|path|] == from
    {
      assert path + [from] <= first[i];
    }
  }

  lemma {:induction false} ListPathsLocateNodes(heap: Heap, root: Value, v: Value, path: seq<nat>, from: nat)
    requires ReachesAt(heap, root, path, v)
    ensures var values := Children(heap, v);
      LocateAll(heap, root, path, from, ListPaths(heap, values, path, from), ListNodes(heap, values, |path|, from))
    decreases Levels(|path|) - 1, 1, if from <= |Children(heap, v)| then |Children(heap, v)| - from else 0
  {
    hide Paths, Nodes, Locates, LocateAll;
    var values := Children(heap, v);
    if from >= |values| || |path| > MAX_DEPTH {
      NothingToLocate(heap, root, path, from);
    } else {
      var here := path + [from];
      assert here[..|here| - 1] == path;
      PathsLocateNodes(heap, root, values[from], here);
      ListPathsLocateNodes(heap, root, v, path, from + 1);
      LocateAllJoin(heap, root, path, from, Paths(heap, values[from], here), Nodes(heap, values[from], |here|),
                    ListPaths(heap, values, path, from + 1), ListNodes(heap, values, |path|, from + 1));
    }
  }

  lemma NothingToLocate(heap: Heap, root: Value, path: seq<nat>, from: nat)
    ensures LocateAll(heap, root, path, from, [], [])
  {
  }

  lemma {:induction false} ReachedIsListed(heap: Heap, root: Value, path: seq<nat>, v: Value)
    requires ReachesAt(heap, root, path, v) && |path| <= MAX_DEPTH + 1
    ensures forall p | p in Paths(heap, v, path) :: p in Paths(heap, root, [])
  {
    if path == [] {
    } else {
      var parentPath, last := path[..|path| - 1], path[|path| - 1];
      var parent := At(heap, root, parentPath).value;
      ReachedIsListed(heap, root, parentPath, parent);
      assert parentPath + [last] == path;
      ChildIsListed(heap, Children(heap, parent), parentPath, 0, last);
    }
  }

  lemma {:induction false} ChildIsListed(heap: Heap, values: seq<Value>, path: seq<nat>, from: nat, k: nat)
    requires |path| <= MAX_DEPTH && from <= k < |values|
    ensures forall p | p in Paths(heap, values[k], path + [k]) :: p in ListPaths(heap, values, path, from)
    decreases k - from
  {
    if from >= k {
    } else {
      ChildIsListed(heap, values, path, from + 1, k);
    }
  }

  lemma {:induction false} PathsAreDistinct(heap: Heap, root: Value, v: Value, path: seq<nat>, i: nat, j: nat)
    requires ReachesAt(heap, root, path, v)
    requires i < j < |Paths(heap, v, path)|
    ensures Paths(heap, v, path)[i] != Paths(heap, v, path)[j]
    decreases Levels(|path|), 0, 0
  {
    hide Nodes, ListNodes, Legal;
    ListPathsLocateNodes(heap, root, v, path, 0);
    if i == 0 {
    } else {
      ListPathsAreDistinct(heap, root, v, path, 0, i - 1, j - 1);
    }
  }

  lemma {:induction false} ListPathsAreDistinct(
    heap: Heap, root: Value, v: Value, path: seq<nat>, from: nat, i: nat, j: nat)
    requires ReachesAt(heap, root, path, v)
    requires i < j < |ListPaths(heap, Children(heap, v), path, from)|
    ensures ListPaths(heap, Children(heap, v), path, from)[i]
         != ListPaths(heap, Children(heap, v), path, from)[j]
    decreases Levels(|path|) - 1, 1, if from <= |Children(heap, v)| then |Children(heap, v)| - from else 0
  {
    hide Nodes, ListNodes, Legal, Paths;
    var values := Children(heap, v);
    var here := path + [from];
    assert here[..|here| - 1] == path;
    assert ReachesAt(heap, root, here, values[from]);
    var first := Paths(heap, values[from], here);
    var others := ListPaths(heap, values, path, from + 1);
    assert ListPaths(heap, values, path, from) == first + others;
    hide ListPaths, ReachesAt, Children;
    if j < |first| {
      PathsAreDistinct(heap, root, values[from], here, i, j);
    } else if i >= |first| {
      ListPathsAreDistinct(heap, root, v, path, from + 1, i - |first|, j - |first|);
    } else {
      PathsLocateNodes(heap, root, values[from], here);
      ListPathsLocateNodes(heap, root, v, path, from + 1);
      hide Locates, LocateAll;
      BranchesDiffer(heap, root, path, from, first[i], Nodes(heap, values[from], |here|)[i],
                     others, ListNodes(heap, values, |path|, from + 1), j - |first|);
    }
  }

  /** A path through one child is no path through a later one. */
  lemma BranchesDiffer(heap: Heap, root: Value, path: seq<nat>, from: nat, p: seq<nat>, node: Node,
                       others: seq<seq<nat>>, nodes: seq<Node>, j: nat)
    requires Locates(heap, root, p, node, path + [from])
    requires LocateAll(heap, root, path, from + 1, others, nodes) && j < |others|
    ensures p != others[j]
  {
    hide ReachesAt;
    assert p[|path|] == from;
    assert others[j][|path|] >= from + 1;
  }

  lemma {:induction false} PrefixIsReached(heap: Heap, root: Value, path: seq<nat>, n: nat)
    requires At(heap, root, path).Some? && n <= |path|
    ensures At(heap, root, path[..n]).Some?
  {
    if n == |path| {
      assert path[..n] == path;
    } else {
      PrefixIsReached(heap, root, path[..|path| - 1], n);
      assert path[..|path| - 1][..n] == path[..n];
    }
  }

  lemma SafeReachesLegal(heap: Heap, root: Value, path: seq<nat>, v: Value)
    requires Safe(heap, root) && ReachesAt(heap, root, path, v)
    ensures Legal(heap, v) && |path| <= MAX_DEPTH
    ensures exists i :: 0 <= i < |Nodes(heap, root, 0)| && i < |Paths(heap, root, [])|
                     && Paths(heap, root, [])[i] == path && Nodes(heap, root, 0)[i].value == v
  {
    PathsLocateNodes(heap, root, root, []);
    var short := if |path| <= MAX_DEPTH then path else path[..MAX_DEPTH + 1];
    PrefixIsReached(heap, root, path, |short|);
    assert path[..|short|] == short;
    ReachedIsListed(heap, root, short, At(heap, root, short).value);
    assert short in Paths(heap, At(heap, root, short).value, short);
    var i :| 0 <= i < |Paths(heap, root, [])| && Paths(heap, root, [])[i] == short;
    assert Locates(heap, root, short, Nodes(heap, root, 0)[i], []);
  }

  /** Acceptance in terms of paths alone: nothing in it mentions a traversal. */
  lemma SafeIffSafeByPaths(heap: Heap, root: Value)
    ensures Safe(heap, root) <==> SafeByPaths(heap, root) && |Paths(heap, root, [])| <= MAX_NODES
  {
    PathsLocateNodes(heap, root, root, []);
    var nodes, paths := Nodes(heap, root, 0), Paths(heap, root, []);
    if Safe(heap, root) {
      forall p, v | ReachesAt(heap, root, p, v) ensures Legal(heap, v) && |p| <= MAX_DEPTH {
        SafeReachesLegal(heap, root, p, v);
      }
      forall p, q, v | ReachesAt(heap, root, p, v) && ReachesAt(heap, root, q, v) && v.Object?
        ensures p == q
      {
        SafeReachesLegal(heap, root, p, v);
        SafeReachesLegal(heap, root, q, v);
      }
    }
    if SafeByPaths(heap, root) {
      forall i | 0 <= i < |nodes| ensures Legal(heap, nodes[i].value) && nodes[i].depth <= MAX_DEPTH {
        assert Locates(heap, root, paths[i], nodes[i], []);
      }
      forall i, j | 0 <= i < j < |nodes| && nodes[i].value.Object? ensures nodes[i].value != nodes[j].value {
        assert Locates(heap, root, paths[i], nodes[i], []) && Locates(heap, root, paths[j], nodes[j], []);
        PathsAreDistinct(heap, root, root, [], i, j);
      }
    }
  }

  /** An object that contains itself, at any distance, is never accepted. */
  lemma CyclesAreRejected(heap: Heap, root: Value, outer: seq<nat>, inner: seq<nat>, v: Value)
    requires v.Object? && outer < inner
    requires ReachesAt(heap, root, outer, v) && ReachesAt(heap, root, inner, v)
    ensures !Safe(heap, root)
  {
    SafeIffSafeByPaths(heap, root);
  }
}
