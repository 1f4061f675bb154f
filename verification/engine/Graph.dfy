/** `validate_graph`: Kahn's algorithm accepts exactly the well-formed acyclic definitions and
    returns their nodes in topological order. An edge end that is missing from the JSON is a
    string that names no node. */
module Graph {
  import opened Options

  datatype Node = Node(id: string, kind: string, maxAttempts: Option<int>)

  datatype Edge = Edge(source: string, target: string, handle: string)

  datatype GraphError = NoNodes | UnknownType | HasCycle

  datatype Checked = Ordered(nodes: seq<Node>) | Rejected(error: GraphError)

  // ── what is to be decided ────────────────────────────────────────────────

  function IdsOf(nodes: seq<Node>): set<string> {
    set n | n in nodes :: n.id
  }

  predicate DistinctIds(nodes: seq<Node>) {
    forall i, j :: 0 <= i < j < |nodes| ==> nodes[i].id != nodes[j].id
  }

  /** Edge e joins two nodes; other edges dangle and are skipped. */
  predicate Links(ids: set<string>, e: Edge) {
    e.source in ids && e.target in ids
  }

  predicate Linked(ids: set<string>, edges: seq<Edge>, a: string, b: string) {
    exists e | e in edges :: Links(ids, e) && e.source == a && e.target == b
  }

  ghost predicate IsWalk(ids: set<string>, edges: seq<Edge>, walk: seq<string>) {
    && (forall t :: 0 <= t < |walk| ==> walk[t] in ids)
    && (forall t :: 0 <= t < |walk| - 1 ==> Linked(ids, edges, walk[t], walk[t + 1]))
  }

  ghost predicate IsCycle(ids: set<string>, edges: seq<Edge>, walk: seq<string>) {
    |walk| >= 2 && IsWalk(ids, edges, walk) && walk[0] == walk[|walk| - 1]
  }

  ghost predicate Acyclic(ids: set<string>, edges: seq<Edge>) {
    forall walk :: !IsCycle(ids, edges, walk)
  }

  predicate KnownKinds(nodes: seq<Node>, known: set<string>) {
    forall n :: n in nodes ==> n.kind in known
  }

  ghost predicate DistinctStrings(s: seq<string>) {
    forall i, j :: 0 <= i < j < |s| ==> s[i] != s[j]
  }

  /** In `order` the source of every edge into a listed node stands before it. */
  ghost predicate Forward(ids: set<string>, edges: seq<Edge>, order: seq<string>) {
    forall e, t :: e in edges && Links(ids, e) && 0 <= t < |order| && order[t] == e.target ==>
      e.source in order[..t]
  }

  // ── counting incoming edges ──────────────────────────────────────────────

  ghost function Into(edges: seq<Edge>, rem: set<nat>, n: string): set<nat> {
    set e | e in rem && e < |edges| && edges[e].target == n
  }

  ghost function Outgoing(ids: set<string>, edges: seq<Edge>, done: seq<string>): set<nat> {
    set e: nat | e < |edges| && Links(ids, edges[e]) && edges[e].source !in done
  }

  lemma IntoWithout(edges: seq<Edge>, rem: set<nat>, e: nat, n: string)
    requires e in rem && e < |edges|
    ensures Into(edges, rem - {e}, n) == Into(edges, rem, n) - (if edges[e].target == n then {e} else {})
    ensures |Into(edges, rem - {e}, n)| == |Into(edges, rem, n)| - (if edges[e].target == n then 1 else 0)
  {
  }

  lemma IntoWith(edges: seq<Edge>, rem: set<nat>, e: nat, n: string)
    requires e !in rem && e < |edges|
    ensures |Into(edges, rem + {e}, n)| == |Into(edges, rem, n)| + (if edges[e].target == n then 1 else 0)
  {
    assert rem + {e} - {e} == rem;
    IntoWithout(edges, rem + {e}, e, n);
  }

  /** The lists that Kahn's algorithm works on: `lists[s]` names the edges of `adj[s]`. */
  ghost predicate Adjacency(ids: set<string>, edges: seq<Edge>, adj: map<string, seq<string>>,
                            lists: map<string, seq<nat>>,
                            upTo: nat)
  {
    && adj.Keys == ids && lists.Keys == ids && upTo <= |edges|
    && (forall s :: s in ids ==> ListsOf(ids, edges, adj[s], lists[s], s, upTo))
    && (forall e :: 0 <= e < upTo && Links(ids, edges[e]) ==> e in lists[edges[e].source])
  }

  function Append<T>(lists: map<string, seq<T>>, s: string, x: T): map<string, seq<T>>
    requires s in lists
  {
    lists[s := lists[s] + [x]]
  }

  function Bump(inDeg: map<string, nat>, n: string): map<string, nat>
    requires n in inDeg
  {
    inDeg[n := inDeg[n] + 1]
  }

  /** The part of `Adjacency` about one node. */
  ghost predicate ListsOf(ids: set<string>, edges: seq<Edge>, targets: seq<string>, list: seq<nat>, s: string,
                          upTo: nat)
    requires upTo <= |edges|
  {
    && |list| == |targets|
    && (forall t :: 0 <= t < |list| ==>
          && list[t] < upTo && Links(ids, edges[list[t]])
          && edges[list[t]].source == s && edges[list[t]].target == targets[t])
    && (forall t, u :: 0 <= t < u < |list| ==> list[t] != list[u])
  }

  lemma AppendToLists(ids: set<string>, edges: seq<Edge>, targets: seq<string>, list: seq<nat>, s: string, p: nat)
    requires p < |edges| && ListsOf(ids, edges, targets, list, s, p)
    ensures ListsOf(ids, edges, targets, list, s, p + 1)
    ensures Links(ids, edges[p]) && edges[p].source == s ==>
              ListsOf(ids, edges, targets + [edges[p].target], list + [p], s, p + 1)
  {
  }

  lemma AppendEdge(ids: set<string>, edges: seq<Edge>, adj: map<string, seq<string>>, lists: map<string, seq<nat>>,
                   p: nat)
    requires p < |edges| && Adjacency(ids, edges, adj, lists, p) && Links(ids, edges[p])
    ensures var s := edges[p].source;
            Adjacency(ids, edges, Append(adj, s, edges[p].target), Append(lists, s, p), p + 1)
  {
    var s := edges[p].source;
    var adj', lists' := Append(adj, s, edges[p].target), Append(lists, s, p);
    forall r | r in ids ensures ListsOf(ids, edges, adj'[r], lists'[r], r, p + 1) {
      AppendToLists(ids, edges, adj[r], lists[r], r, p);
    }
    forall e | 0 <= e < p + 1 && Links(ids, edges[e]) ensures e in lists'[edges[e].source] {
      if e == p {
        assert lists'[s][|lists[s]|] == p;
      } else {
        assert e in lists[edges[e].source];
      }
    }
  }

  ghost predicate Counts(ids: set<string>, edges: seq<Edge>, inDeg: map<string, nat>, rem: set<nat>) {
    inDeg.Keys == ids && forall n :: n in ids ==> inDeg[n] == |Into(edges, rem, n)|
  }

  lemma CountEdge(ids: set<string>, edges: seq<Edge>, inDeg: map<string, nat>, rem: set<nat>, p: nat)
    requires p < |edges| && p !in rem && edges[p].target in ids && Counts(ids, edges, inDeg, rem)
    ensures Counts(ids, edges, Bump(inDeg, edges[p].target), rem + {p})
  {
    forall n ensures |Into(edges, rem + {p}, n)| == |Into(edges, rem, n)| + (if edges[p].target == n then 1 else 0) {
      IntoWith(edges, rem, p, n);
    }
  }

  ghost function LinkingBelow(ids: set<string>, edges: seq<Edge>, p: nat): set<nat> {
    set e: nat | e < p && e < |edges| && Links(ids, edges[e])
  }

  /** The lists and counters once the first p edges have been entered. */
  ghost predicate Built(ids: set<string>, edges: seq<Edge>, inDeg: map<string, nat>, adj: map<string, seq<string>>,
                        lists: map<string, seq<nat>>, p: nat)
  {
    Adjacency(ids, edges, adj, lists, p) && Counts(ids, edges, inDeg, LinkingBelow(ids, edges, p))
  }

  lemma BuiltNext(ids: set<string>, edges: seq<Edge>, inDeg: map<string, nat>, adj: map<string, seq<string>>,
                  lists: map<string, seq<nat>>, p: nat)
    requires p < |edges| && Built(ids, edges, inDeg, adj, lists, p)
    ensures var e := edges[p];
            if Links(ids, e) then
              && e.source in adj && e.source in lists && e.target in inDeg
              && Built(ids, edges, Bump(inDeg, e.target), Append(adj, e.source, e.target), Append(lists, e.source, p),
                       p + 1)
            else
              Built(ids, edges, inDeg, adj, lists, p + 1)
  {
    LinkingBelowNext(ids, edges, p);
    if Links(ids, edges[p]) {
      AppendEdge(ids, edges, adj, lists, p);
      CountEdge(ids, edges, inDeg, LinkingBelow(ids, edges, p), p);
    } else {
      SkipEdge(ids, edges, adj, lists, p);
    }
  }

  lemma SkipEdge(ids: set<string>, edges: seq<Edge>, adj: map<string, seq<string>>, lists: map<string, seq<nat>>,
                 p: nat)
    requires p < |edges| && Adjacency(ids, edges, adj, lists, p) && !Links(ids, edges[p])
    ensures Adjacency(ids, edges, adj, lists, p + 1)
  {
  }

  lemma LinkingBelowNext(ids: set<string>, edges: seq<Edge>, p: nat)
    requires p < |edges|
    ensures p !in LinkingBelow(ids, edges, p)
    ensures Links(ids, edges[p]) ==> LinkingBelow(ids, edges, p + 1) == LinkingBelow(ids, edges, p) + {p}
    ensures !Links(ids, edges[p]) ==> LinkingBelow(ids, edges, p + 1) == LinkingBelow(ids, edges, p)
  {
  }

  lemma NothingBuilt(ids: set<string>, edges: seq<Edge>)
    ensures Built(ids, edges, map n | n in ids :: 0, map n | n in ids :: [], map n | n in ids :: [], 0)
  {
  }

  /** `scheduler.py`, lines 65-72. */
  method BuildLists(ids: set<string>, edges: seq<Edge>)
    returns (inDeg: map<string, nat>, adj: map<string, seq<string>>, ghost lists: map<string, seq<nat>>)
    ensures Adjacency(ids, edges, adj, lists, |edges|)
    ensures Counts(ids, edges, inDeg, Outgoing(ids, edges, []))
  {
    inDeg, adj, lists := map n | n in ids :: 0, map n | n in ids :: [], map n | n in ids :: [];
    NothingBuilt(ids, edges);
    for p := 0 to |edges|
      invariant Built(ids, edges, inDeg, adj, lists, p)
    {
      BuiltNext(ids, edges, inDeg, adj, lists, p);
      var e := edges[p];
      if Links(ids, e) {
        adj := Append(adj, e.source, e.target);
        lists := Append(lists, e.source, p);
        inDeg := Bump(inDeg, e.target);
      }
    }
    assert LinkingBelow(ids, edges, |edges|) == Outgoing(ids, edges, []);
  }

  ghost function Keyset(s: seq<string>): set<string> {
    set x | x in s
  }

  /** What holds between two turns of the queue loop. */
  ghost predicate Turn(ids: set<string>, edges: seq<Edge>, inDeg: map<string, nat>, rem: set<nat>,
                       ordered: seq<string>, queue: seq<string>)
  {
    && Counts(ids, edges, inDeg, rem)
    && DistinctStrings(ordered + queue)
    && (forall x :: x in ordered + queue ==> x in ids)
    && (forall n :: n in ids ==> (n in ordered + queue <==> inDeg[n] == 0))
    && Forward(ids, edges, ordered)
  }

  /** `scheduler.py`, line 74: the ids with no incoming edge, in node order. */
  method Roots(nodes: seq<Node>, inDeg: map<string, nat>) returns (queue: seq<string>)
    requires inDeg.Keys == IdsOf(nodes)
    ensures DistinctStrings(queue)
    ensures forall x :: x in queue <==> x in IdsOf(nodes) && inDeg[x] == 0
  {
    queue := [];
    for p := 0 to |nodes|
      invariant DistinctStrings(queue)
      invariant forall x :: x in queue <==> x in IdsOf(nodes) && x in IdsOf(nodes[..p]) && inDeg[x] == 0
    {
      assert IdsOf(nodes[..p + 1]) == IdsOf(nodes[..p]) + {nodes[p].id} by {
        assert nodes[..p + 1] == nodes[..p] + [nodes[p]];
      }
      assert nodes[p].id in IdsOf(nodes);
      if inDeg[nodes[p].id] == 0 && nodes[p].id !in queue {
        queue := queue + [nodes[p].id];
      }
    }
    assert nodes[..|nodes|] == nodes;
  }

  /** `scheduler.py`, lines 74-82: the ids in the order Kahn's algorithm emits them. */
  method KahnOrder(nodes: seq<Node>, edges: seq<Edge>, inDeg0: map<string, nat>, adj: map<string, seq<string>>,
                   ghost lists: map<string, seq<nat>>)
    returns (ordered: seq<string>)
    requires Adjacency(IdsOf(nodes), edges, adj, lists, |edges|)
    requires Counts(IdsOf(nodes), edges, inDeg0, Outgoing(IdsOf(nodes), edges, []))
    ensures DistinctStrings(ordered) && Keyset(ordered) <= IdsOf(nodes)
    ensures Forward(IdsOf(nodes), edges, ordered)
    ensures forall n :: n in IdsOf(nodes) && n !in ordered ==> Blocked(IdsOf(nodes), edges, ordered, n)
  {
    ghost var ids := IdsOf(nodes);
    var inDeg := inDeg0;
    var queue := Roots(nodes, inDeg);
    ordered := [];
    ghost var rem := Outgoing(ids, edges, ordered);
    assert ordered + queue == queue;
    while queue != []
      invariant Turn(ids, edges, inDeg, rem, ordered, queue)
      invariant rem == Outgoing(ids, edges, ordered)
      decreases ids - Keyset(ordered)
    {
      KeysetGrows(ordered, queue[0]);
      inDeg, rem, ordered, queue := VisitHead(ids, edges, inDeg, adj, lists, rem, ordered, queue);
    }
    DrainedQueueBlocks(ids, edges, inDeg, rem, ordered);
  }

  lemma KeysetGrows(ordered: seq<string>, x: string)
    ensures Keyset(ordered + [x]) == Keyset(ordered) + {x}
  {
  }

  lemma DrainedQueueBlocks(ids: set<string>, edges: seq<Edge>, inDeg: map<string, nat>, rem: set<nat>,
                           ordered: seq<string>)
    requires Turn(ids, edges, inDeg, rem, ordered, [])
    requires rem == Outgoing(ids, edges, ordered)
    ensures DistinctStrings(ordered) && Keyset(ordered) <= ids
    ensures forall n :: n in ids && n !in ordered ==> Blocked(ids, edges, ordered, n)
  {
    assert ordered + [] == ordered;
    forall n | n in ids && n !in ordered ensures Blocked(ids, edges, ordered, n) {
      assert Into(edges, rem, n) != {};
      var k :| k in Into(edges, rem, n);
      assert edges[k] in edges;
    }
  }

  /** Some edge into n comes from a node that was never emitted. */
  ghost predicate Blocked(ids: set<string>, edges: seq<Edge>, ordered: seq<string>, n: string) {
    exists e :: e in edges && Links(ids, e) && e.target == n && e.source !in ordered
  }

  function Drop(inDeg: map<string, nat>, n: string): map<string, nat>
    requires n in inDeg && inDeg[n] > 0
  {
    inDeg[n := inDeg[n] - 1]
  }

  /** Removing edge e from what remains keeps the turn, enqueueing its target if that was its last. */
  lemma RemoveEdge(ids: set<string>, edges: seq<Edge>, inDeg: map<string, nat>, rem: set<nat>,
                   ordered: seq<string>, queue: seq<string>, e: nat)
    requires Turn(ids, edges, inDeg, rem, ordered, queue)
    requires e in rem && e < |edges| && Links(ids, edges[e])
    ensures var nb := edges[e].target;
            && nb in inDeg && inDeg[nb] > 0
            && var inDeg' := Drop(inDeg, nb);
               Turn(ids, edges, inDeg', rem - {e}, ordered, if inDeg'[nb] == 0 then queue + [nb] else queue)
  {
    var nb := edges[e].target;
    assert e in Into(edges, rem, nb);
    assert inDeg[nb] > 0;
    var inDeg' := Drop(inDeg, nb);
    var queue' := if inDeg'[nb] == 0 then queue + [nb] else queue;
    forall n ensures |Into(edges, rem - {e}, n)| == |Into(edges, rem, n)| - (if edges[e].target == n then 1 else 0) {
      IntoWithout(edges, rem, e, n);
    }
    assert nb !in ordered + queue;
    if inDeg'[nb] == 0 {
      assert ordered + queue' == (ordered + queue) + [nb];
    }
  }

  /** One turn: pop the head, emit it, and enqueue the neighbours it was the last to block. */
  method VisitHead(ghost ids: set<string>, ghost edges: seq<Edge>, inDeg0: map<string, nat>,
                   adj: map<string, seq<string>>,
                   ghost lists: map<string, seq<nat>>, ghost rem0: set<nat>, ordered0: seq<string>, queue0: seq<string>)
    returns (inDeg: map<string, nat>, ghost rem: set<nat>, ordered: seq<string>, queue: seq<string>)
    requires Adjacency(ids, edges, adj, lists, |edges|)
    requires queue0 != [] && Turn(ids, edges, inDeg0, rem0, ordered0, queue0)
    requires rem0 == Outgoing(ids, edges, ordered0)
    ensures Turn(ids, edges, inDeg, rem, ordered, queue)
    ensures rem == Outgoing(ids, edges, ordered)
    ensures ordered == ordered0 + [queue0[0]]
    ensures queue0[0] in ids && queue0[0] !in ordered0
  {
    var nid := queue0[0];
    inDeg, rem, queue := inDeg0, rem0, queue0[1..];
    ordered := ordered0 + [nid];
    HeadIsUnblocked(ids, edges, inDeg0, rem0, ordered0, queue0);
    AdjacencyOf(ids, edges, adj, lists, nid);
    for t := 0 to |adj[nid]|
      invariant Turn(ids, edges, inDeg, rem, ordered, queue)
      invariant rem == Unremoved(rem0, lists[nid], t)
    {
      var nb := adj[nid][t];
      ghost var e := lists[nid][t];
      RemovingNext(rem0, lists[nid], t);
      RemoveEdge(ids, edges, inDeg, rem, ordered, queue, e);
      inDeg := Drop(inDeg, nb);
      rem := rem - {e};
      if inDeg[nb] == 0 {
        queue := queue + [nb];
      }
    }
    RemovedAll(ids, edges, adj, lists, ordered0, nid);
  }

  /** What is left of `rem` once the first t edges of `list` are removed. */
  ghost function Unremoved(rem: set<nat>, list: seq<nat>, t: nat): set<nat> {
    set e | e in rem && e !in list[..if t <= |list| then t else |list|]
  }

  lemma RemovingNext(rem: set<nat>, list: seq<nat>, t: nat)
    requires t < |list| && (forall u, v :: 0 <= u < v < |list| ==> list[u] != list[v])
    ensures Unremoved(rem, list, t + 1) == Unremoved(rem, list, t) - {list[t]}
    ensures list[t] in rem ==> list[t] in Unremoved(rem, list, t)
  {
  }

  lemma AdjacencyOf(ids: set<string>, edges: seq<Edge>, adj: map<string, seq<string>>, lists: map<string, seq<nat>>,
                    s: string)
    requires Adjacency(ids, edges, adj, lists, |edges|) && s in ids
    ensures s in adj && s in lists && |lists[s]| == |adj[s]|
    ensures forall t :: 0 <= t < |adj[s]| ==>
              && lists[s][t] < |edges| && Links(ids, edges[lists[s][t]])
              && edges[lists[s][t]].source == s && edges[lists[s][t]].target == adj[s][t]
    ensures forall t, u :: 0 <= t < u < |lists[s]| ==> lists[s][t] != lists[s][u]
  {
  }

  lemma RemovedAll(ids: set<string>, edges: seq<Edge>, adj: map<string, seq<string>>, lists: map<string, seq<nat>>,
                   ordered: seq<string>, nid: string)
    requires Adjacency(ids, edges, adj, lists, |edges|) && nid in ids
    ensures Unremoved(Outgoing(ids, edges, ordered), lists[nid], |adj[nid]|) == Outgoing(ids, edges, ordered + [nid])
  {
  }

  lemma HeadIsUnblocked(ids: set<string>, edges: seq<Edge>, inDeg: map<string, nat>, rem: set<nat>,
                        ordered: seq<string>, queue: seq<string>)
    requires queue != [] && Turn(ids, edges, inDeg, rem, ordered, queue)
    requires rem == Outgoing(ids, edges, ordered)
    ensures Turn(ids, edges, inDeg, rem, ordered + [queue[0]], queue[1..])
    ensures queue[0] in ids && queue[0] !in ordered
  {
    var nid := queue[0];
    var ordered' := ordered + [nid];
    assert ordered' + queue[1..] == ordered + queue;
    assert (ordered + queue)[|ordered|] == nid;
    forall t | 0 <= t < |ordered| ensures ordered[t] != nid {
      assert (ordered + queue)[t] == ordered[t];
    }
    assert Into(edges, rem, nid) == {};
    forall e, t | e in edges && Links(ids, e) && 0 <= t < |ordered'| && ordered'[t] == e.target
      ensures e.source in ordered'[..t]
    {
      if t == |ordered| {
        var k :| 0 <= k < |edges| && edges[k] == e;
        assert k !in Into(edges, rem, nid);
        assert ordered'[..t] == ordered;
      } else {
        assert ordered'[..t] == ordered[..t];
      }
    }
  }

  // ── acyclicity ───────────────────────────────────────────────────────────

  ghost predicate Complete(ids: set<string>, edges: seq<Edge>, order: seq<string>) {
    DistinctStrings(order) && Keyset(order) == ids && Forward(ids, edges, order)
  }

  /** Along a walk, positions in a topological order increase. */
  lemma {:induction false} WalksGoForward(ids: set<string>, edges: seq<Edge>, order: seq<string>, walk: seq<string>,
                                          a: nat, b: nat)
    requires Complete(ids, edges, order) && IsWalk(ids, edges, walk) && |walk| >= 2
    requires a < |order| && b < |order| && order[a] == walk[0] && order[b] == walk[|walk| - 1]
    ensures a < b
    decreases |walk|
  {
    var prev := walk[|walk| - 2];
    assert prev in Keyset(order);
    var c :| 0 <= c < |order| && order[c] == prev;
    assert Linked(ids, edges, walk[|walk| - 2], walk[|walk| - 2 + 1]);
    var e :| e in edges && Links(ids, e) && e.source == prev && e.target == order[b];
    assert e.source in order[..b];
    var d :| 0 <= d < b && order[..b][d] == prev;
    assert order[d] == order[c];
    if |walk| > 2 {
      var shorter := walk[..|walk| - 1];
      forall t | 0 <= t < |shorter| - 1 ensures Linked(ids, edges, shorter[t], shorter[t + 1]) {
        assert Linked(ids, edges, walk[t], walk[t + 1]);
      }
      WalksGoForward(ids, edges, order, shorter, a, c);
    } else {
      assert order[a] == order[c];
    }
  }

  lemma OrderedMeansAcyclic(ids: set<string>, edges: seq<Edge>, order: seq<string>)
    requires Complete(ids, edges, order)
    ensures Acyclic(ids, edges)
  {
    forall walk | IsCycle(ids, edges, walk) ensures false {
      assert walk[0] in Keyset(order);
      var a :| 0 <= a < |order| && order[a] == walk[0];
      WalksGoForward(ids, edges, order, walk, a, a);
    }
  }

  /** Among nodes that are all blocked one can walk backwards for ever. */
  lemma {:induction false} BackWalk(ids: set<string>, edges: seq<Edge>, ordered: seq<string>, start: string, n: nat)
    returns (walk: seq<string>)
    requires start in ids && start !in ordered
    requires forall x :: x in ids && x !in ordered ==> Blocked(ids, edges, ordered, x)
    ensures |walk| == n + 1 && IsWalk(ids, edges, walk) && walk[0] !in ordered
  {
    if n == 0 {
      walk := [start];
    } else {
      var rest := BackWalk(ids, edges, ordered, start, n - 1);
      assert Blocked(ids, edges, ordered, rest[0]);
      var e :| e in edges && Links(ids, e) && e.target == rest[0] && e.source !in ordered;
      walk := [e.source] + rest;
      LongerWalk(ids, edges, e.source, rest);
    }
  }

  lemma LongerWalk(ids: set<string>, edges: seq<Edge>, x: string, rest: seq<string>)
    requires IsWalk(ids, edges, rest) && rest != [] && Linked(ids, edges, x, rest[0])
    ensures IsWalk(ids, edges, [x] + rest)
  {
    var walk := [x] + rest;
    forall t | 0 <= t < |walk| - 1 ensures Linked(ids, edges, walk[t], walk[t + 1]) {
      if t > 0 { assert walk[t] == rest[t - 1] && walk[t + 1] == rest[t]; }
    }
  }

  /** A sequence longer than the set it draws from repeats an element. */
  lemma {:induction false} Pigeonhole(s: seq<string>, from: set<string>) returns (a: nat, b: nat)
    requires |s| > |from| && forall t :: 0 <= t < |s| ==> s[t] in from
    ensures a < b < |s| && s[a] == s[b]
    decreases |s|
  {
    var last := |s| - 1;
    if s[last] in s[..last] {
      a :| 0 <= a < last && s[..last][a] == s[last];
      b := last;
    } else {
      forall t | 0 <= t < last ensures s[..last][t] in from - {s[last]} {
        assert s[t] == s[..last][t];
      }
      a, b := Pigeonhole(s[..last], from - {s[last]});
    }
  }

  lemma StuckMeansCyclic(ids: set<string>, edges: seq<Edge>, ordered: seq<string>, start: string)
    requires start in ids && start !in ordered
    requires forall x :: x in ids && x !in ordered ==> Blocked(ids, edges, ordered, x)
    ensures !Acyclic(ids, edges)
  {
    var walk := BackWalk(ids, edges, ordered, start, |ids|);
    var a, b := Pigeonhole(walk, ids);
    var cycle := walk[a..b + 1];
    forall t | 0 <= t < |cycle| - 1 ensures Linked(ids, edges, cycle[t], cycle[t + 1]) {
      assert cycle[t] == walk[a + t] && cycle[t + 1] == walk[a + t + 1];
      assert Linked(ids, edges, walk[a + t], walk[a + t + 1]);
    }
    assert forall t :: 0 <= t < |cycle| ==> cycle[t] == walk[a + t];
    assert IsCycle(ids, edges, cycle);
  }

  // ── sizes ────────────────────────────────────────────────────────────────

  lemma {:induction false} KeysetSize(s: seq<string>)
    ensures |Keyset(s)| <= |s|
    ensures |Keyset(s)| == |s| <==> DistinctStrings(s)
  {
    if s != [] {
      var rest, last := s[..|s| - 1], s[|s| - 1];
      KeysetSize(rest);
      assert s == rest + [last];
      KeysetGrows(rest, last);
      if last in rest {
        var i :| 0 <= i < |rest| && rest[i] == last;
        assert s[i] == s[|s| - 1];
        assert Keyset(s) == Keyset(rest);
      } else {
        assert last !in Keyset(rest);
        assert DistinctStrings(s) <==> DistinctStrings(rest);
      }
    }
  }

  lemma IdsSize(nodes: seq<Node>)
    ensures |IdsOf(nodes)| <= |nodes|
    ensures |IdsOf(nodes)| == |nodes| <==> DistinctIds(nodes)
  {
    var names := seq(|nodes|, i requires 0 <= i < |nodes| => nodes[i].id);
    forall x ensures x in IdsOf(nodes) <==> x in Keyset(names) {
      if x in IdsOf(nodes) {
        var i :| 0 <= i < |nodes| && nodes[i].id == x;
        assert names[i] == x;
      }
    }
    assert IdsOf(nodes) == Keyset(names);
    KeysetSize(names);
    if DistinctStrings(names) {
      forall i, j | 0 <= i < j < |nodes| ensures nodes[i].id != nodes[j].id {
        assert names[i] != names[j];
      }
    }
  }

  lemma SubsetSize(a: set<string>, b: set<string>)
    requires a <= b
    ensures |a| <= |b| && (|a| == |b| ==> a == b)
  {
    assert b == a + (b - a);
    if |a| == |b| { assert b - a == {}; }
  }

  // ── validate_graph ───────────────────────────────────────────────────────

  ghost predicate Valid(nodes: seq<Node>, edges: seq<Edge>, known: set<string>) {
    nodes != [] && KnownKinds(nodes, known) && DistinctIds(nodes) && Acyclic(IdsOf(nodes), edges)
  }

  /** `r` lists the same nodes, each once, in an order in which every linking edge goes forward. */
  ghost predicate Sorted(nodes: seq<Node>, edges: seq<Edge>, r: seq<Node>) {
    && |r| == |nodes| && multiset(r) == multiset(nodes) && DistinctIds(r)
    && (forall i, j, e ::
          0 <= i < |r| && 0 <= j < |r| && e in edges && e.source == r[i].id && e.target == r[j].id ==> i < j)
  }

  lemma {:induction false} DistinctCounts(nodes: seq<Node>, n: Node)
    requires DistinctIds(nodes)
    ensures multiset(nodes)[n] == if n in nodes then 1 else 0
  {
    if nodes != [] {
      var rest, last := nodes[..|nodes| - 1], nodes[|nodes| - 1];
      assert nodes == rest + [last];
      DistinctCounts(rest, n);
    }
  }

  lemma ArrangedIsSorted(nodes: seq<Node>, edges: seq<Edge>, order: seq<string>, r: seq<Node>)
    requires DistinctIds(nodes) && Complete(IdsOf(nodes), edges, order)
    requires |r| == |order| == |nodes|
    requires forall t :: 0 <= t < |r| ==> r[t] in nodes && r[t].id == order[t]
    ensures Sorted(nodes, edges, r)
  {
    assert DistinctIds(r);
    forall n ensures multiset(r)[n] == multiset(nodes)[n] {
      DistinctCounts(r, n);
      DistinctCounts(nodes, n);
      if n in nodes {
        assert n.id in Keyset(order);
        var t :| 0 <= t < |order| && order[t] == n.id;
        SameIdSameNode(nodes, r[t], n);
      }
    }
    forall i, j, e | 0 <= i < |r| && 0 <= j < |r| && e in edges && e.source == r[i].id && e.target == r[j].id
      ensures i < j
    {
      assert order[j] == e.target && Links(IdsOf(nodes), e);
      assert e.source in order[..j];
      var d :| 0 <= d < j && order[..j][d] == e.source;
      assert order[d] == order[i];
    }
  }

  lemma SameIdSameNode(nodes: seq<Node>, a: Node, b: Node)
    requires DistinctIds(nodes) && a in nodes && b in nodes && a.id == b.id
    ensures a == b
  {
  }

  /** `id_to_node`: the last node of each id. */
  method IndexById(nodes: seq<Node>) returns (byId: map<string, Node>)
    ensures byId.Keys == IdsOf(nodes)
    ensures forall x :: x in byId ==> byId[x] in nodes && byId[x].id == x
  {
    byId := map[];
    for p := 0 to |nodes|
      invariant byId.Keys == IdsOf(nodes[..p])
      invariant forall x :: x in byId ==> byId[x] in nodes && byId[x].id == x
    {
      assert nodes[..p + 1] == nodes[..p] + [nodes[p]];
      assert IdsOf(nodes[..p + 1]) == IdsOf(nodes[..p]) + {nodes[p].id};
      byId := byId[nodes[p].id := nodes[p]];
    }
    assert nodes[..|nodes|] == nodes;
  }

  /** Whether Kahn's order is complete decides whether ids are distinct and the graph acyclic. */
  lemma ShortOrder(nodes: seq<Node>, edges: seq<Edge>, order: seq<string>)
    requires DistinctStrings(order) && Keyset(order) <= IdsOf(nodes) && Forward(IdsOf(nodes), edges, order)
    requires forall n :: n in IdsOf(nodes) && n !in order ==> Blocked(IdsOf(nodes), edges, order, n)
    ensures |order| <= |nodes|
    ensures |order| == |nodes| <==> DistinctIds(nodes) && Acyclic(IdsOf(nodes), edges)
    ensures |order| == |nodes| ==> Complete(IdsOf(nodes), edges, order)
  {
    KeysetSize(order);
    IdsSize(nodes);
    SubsetSize(Keyset(order), IdsOf(nodes));
    if Keyset(order) == IdsOf(nodes) {
      OrderedMeansAcyclic(IdsOf(nodes), edges, order);
    } else {
      var start :| start in IdsOf(nodes) && start !in Keyset(order);
      StuckMeansCyclic(IdsOf(nodes), edges, order, start);
    }
  }

  /** `validate_graph` accepts exactly the valid definitions and returns them sorted; the errors
      are tried in the order empty, unknown type, cycle (or duplicate id). */
  method ValidateGraph(nodes: seq<Node>, edges: seq<Edge>, known: set<string>) returns (result: Checked)
    ensures result.Ordered? <==> Valid(nodes, edges, known)
    ensures result.Ordered? ==> Sorted(nodes, edges, result.nodes)
    ensures result == Rejected(NoNodes) <==> nodes == []
    ensures result == Rejected(UnknownType) <==> nodes != [] && exists n :: n in nodes && n.kind !in known
  {
    if nodes == [] {
      return Rejected(NoNodes);
    }
    var byId := IndexById(nodes);
    var unknown := set n | n in nodes && n.kind !in known :: n.kind;
    if unknown != {} {
      var kind :| kind in unknown;
      return Rejected(UnknownType);
    }
    assert KnownKinds(nodes, known) by {
      forall n | n in nodes ensures n.kind in known {
        assert n.kind in unknown || n.kind in known;
      }
    }
    var inDeg, adj, lists := BuildLists(byId.Keys, edges);
    var order := KahnOrder(nodes, edges, inDeg, adj, lists);
    ShortOrder(nodes, edges, order);
    if |order| < |nodes| {
      return Rejected(HasCycle);
    }
    var sorted := seq(|order|, t requires 0 <= t < |order| && order[t] in byId => byId[order[t]]);
    ArrangedIsSorted(nodes, edges, order, sorted);
    result := Ordered(sorted);
  }
}
