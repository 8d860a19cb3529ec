// Constrained path computation: the fewest-hop, widest path with room for a demand.

module Pce {
  import opened Wrappers
  import opened Graph

  // ------------------------------------------------------------------
  // The links with room
  // ------------------------------------------------------------------
  function Held(used: Rates, l: Link): real {
    if l in used then used[l] else 0.0
  }

  // The residual of every link that can still carry bw.
  ghost function Residuals(cap: Rates, used: Rates, bw: real): (g: Rates) {
    map l | l in cap && cap[l] - Held(used, l) >= bw :: cap[l] - Held(used, l)
  }

  type Edge = (Node, real)
  type Adjacency = map<Node, seq<Edge>>

  function EdgesFrom(adj: Adjacency, n: Node): seq<Edge> {
    if n in adj then adj[n] else []
  }

  // The edges listed for n are exactly the links out of n.
  ghost predicate EdgesOf(g: Rates, n: Node, edges: seq<Edge>) {
    && (forall e | e in edges :: (n, e.0) in g && g[(n, e.0)] == e.1)
    && (forall l | l in g && l.0 == n :: (l.1, g[l]) in edges)
  }

  ghost predicate Represents(adj: Adjacency, g: Rates) {
    forall n :: EdgesOf(g, n, EdgesFrom(adj, n))
  }

  ghost predicate FanWithin(adj: Adjacency, fan: nat) {
    forall n :: |EdgesFrom(adj, n)| <= fan
  }

  function AddEdge(adj: Adjacency, l: Link, rate: real): Adjacency {
    adj[l.0 := EdgesFrom(adj, l.0) + [(l.1, rate)]]
  }

  lemma AddEdgeRepresents(adj: Adjacency, g: Rates, l: Link, rate: real, fan: nat)
    requires Represents(adj, g) && FanWithin(adj, fan) && l !in g
    ensures Represents(AddEdge(adj, l, rate), g[l := rate])
    ensures FanWithin(AddEdge(adj, l, rate), fan + 1)
  {
    var adj', g' := AddEdge(adj, l, rate), g[l := rate];
    forall n
      ensures EdgesOf(g', n, EdgesFrom(adj', n)) && |EdgesFrom(adj', n)| <= fan + 1
    {
      var before, after := EdgesFrom(adj, n), EdgesFrom(adj', n);
      assert EdgesOf(g, n, before) && |before| <= fan;
      if n == l.0 {
        assert after == before + [(l.1, rate)];
      } else {
        assert after == before;
      }
    }
  }

  method BuildAdjacency(cap: Rates, used: Rates, bw: real) returns (adj: Adjacency)
    ensures Represents(adj, Residuals(cap, used, bw)) && FanWithin(adj, |cap|)
  {
    ghost var g := Residuals(cap, used, bw);
    adj := map[];
    var todo := cap.Keys;
    ghost var seen := 0;
    while todo != {}
      invariant todo <= cap.Keys
      invariant Represents(adj, g - todo)
      invariant FanWithin(adj, seen) && seen + |todo| <= |cap.Keys|
    {
      var l :| l in todo;
      var residual := cap[l] - Held(used, l);
      if residual >= bw {
        AddEdgeRepresents(adj, g - todo, l, residual, seen);
        adj, seen := AddEdge(adj, l, residual), seen + 1;
        assert (g - todo)[l := residual] == g - (todo - {l});
      } else {
        assert g - todo == g - (todo - {l});
      }
      todo := todo - {l};
    }
    assert g - todo == g;
    assert |cap.Keys| == |cap|;
  }

  // ------------------------------------------------------------------
  // The heap: entries (hops, bottleneck, path), least first
  // ------------------------------------------------------------------
  datatype Entry = Entry(cost: Label, path: seq<Node>)

  predicate EntryLeq(a: Entry, b: Entry) {
    LabelLeq(a.cost, b.cost) && (a.cost == b.cost ==> LexLeq(a.path, b.path))
  }

  lemma EntryOrder(a: Entry, b: Entry, c: Entry)
    ensures EntryLeq(a, b) || EntryLeq(b, a)
    ensures EntryLeq(a, b) && EntryLeq(b, c) ==> EntryLeq(a, c)
  {
    LexTotal(a.path, b.path);
    if EntryLeq(a, b) && EntryLeq(b, c) && a.cost == c.cost {
      LexTransitive(a.path, b.path, c.path);
    }
  }

  ghost predicate Removed(heap: seq<Entry>, e: Entry, rest: seq<Entry>) {
    exists k | 0 <= k < |heap| :: e == heap[k] && rest == heap[..k] + heap[k + 1..]
  }

  ghost predicate IsLeast(heap: seq<Entry>, e: Entry) {
    e in heap && forall x | x in heap :: EntryLeq(e, x)
  }

  method HeapPop(heap: seq<Entry>) returns (e: Entry, rest: seq<Entry>)
    requires heap != []
    ensures IsLeast(heap, e) && Removed(heap, e, rest)
  {
    var k := 0;
    EntryOrder(heap[0], heap[0], heap[0]);
    for i := 1 to |heap|
      invariant 0 <= k < i
      invariant forall j | 0 <= j < i :: EntryLeq(heap[k], heap[j])
    {
      EntryOrder(heap[k], heap[i], heap[i]);
      if !EntryLeq(heap[k], heap[i]) {
        forall j | 0 <= j < i
          ensures EntryLeq(heap[i], heap[j])
        {
          EntryOrder(heap[i], heap[k], heap[j]);
        }
        EntryOrder(heap[i], heap[i], heap[i]);
        k := i;
      }
    }
    e, rest := heap[k], heap[..k] + heap[k + 1..];
  }

  // ------------------------------------------------------------------
  // Termination: what a heap of simple paths can still grow into
  // ------------------------------------------------------------------
  // An upper bound on the entries one path can still cause: `room` more
  // nodes, at most `fan` links out of each.
  ghost function Weight(room: int, fan: nat): nat
    decreases room
  {
    if room <= 0 then 1 else 1 + fan * Weight(room - 1, fan)
  }

  lemma WeightPositive(room: int, fan: nat)
    ensures Weight(room, fan) >= 1
  {
  }

  lemma WeightUnfolds(room: int, fan: nat)
    ensures Weight(room, fan) >= 1
    ensures room > 0 ==> Weight(room, fan) == 1 + fan * Weight(room - 1, fan)
  {
  }

  ghost function Potential(heap: seq<Entry>, size: nat, fan: nat): nat {
    if heap == [] then 0
    else Weight(size - |heap[0].path|, fan) + Potential(heap[1..], size, fan)
  }

  lemma {:induction false} PotentialConcat(a: seq<Entry>, b: seq<Entry>, size: nat, fan: nat)
    ensures Potential(a + b, size, fan) == Potential(a, size, fan) + Potential(b, size, fan)
  {
    if a == [] {
      assert a + b == b;
    } else {
      assert (a + b)[1..] == a[1..] + b;
      PotentialConcat(a[1..], b, size, fan);
    }
  }

  lemma PotentialPush(heap: seq<Entry>, e: Entry, size: nat, fan: nat)
    ensures Potential(heap + [e], size, fan) == Potential(heap, size, fan) + Weight(size - |e.path|, fan)
  {
    PotentialConcat(heap, [e], size, fan);
  }

  lemma {:induction false} PotentialPop(heap: seq<Entry>, k: nat, size: nat, fan: nat)
    requires k < |heap|
    ensures Potential(heap, size, fan)
         == Potential(heap[..k] + heap[k + 1..], size, fan) + Weight(size - |heap[k].path|, fan)
  {
    hide Weight;
    var a, b := heap[..k], heap[k + 1..];
    assert heap == a + ([heap[k]] + b);
    assert ([heap[k]] + b)[1..] == b;
    PotentialConcat(a, [heap[k]] + b, size, fan);
    PotentialConcat(a, b, size, fan);
  }

  lemma RemovedMembers(heap: seq<Entry>, e: Entry, rest: seq<Entry>)
    requires Removed(heap, e, rest)
    ensures forall x :: x in heap <==> x == e || x in rest
  {
    var k :| 0 <= k < |heap| && e == heap[k] && rest == heap[..k] + heap[k + 1..];
    assert heap == heap[..k] + [e] + heap[k + 1..];
  }

  lemma {:induction false} RemovedPotential(heap: seq<Entry>, e: Entry, rest: seq<Entry>, size: nat, fan: nat)
    requires Removed(heap, e, rest)
    ensures Potential(heap, size, fan) == Potential(rest, size, fan) + Weight(size - |e.path|, fan)
  {
    hide Potential, Weight;
    var k :| 0 <= k < |heap| && e == heap[k] && rest == heap[..k] + heap[k + 1..];
    PotentialPop(heap, k, size, fan);
  }

  // A simple path is no longer than the graph has nodes.
  lemma {:induction false} SimpleFits(p: seq<Node>, nodes: set<Node>)
    requires Simple(p) && forall n | n in p :: n in nodes
    ensures |p| <= |nodes|
  {
    if p != [] {
      var f := Front(p);
      assert forall n | n in f :: n in nodes - {Last(p)};
      SimpleFits(f, nodes - {Last(p)});
    }
  }

  ghost function NodesOf(g: Rates, src: Node): set<Node> {
    {src} + (set l | l in g :: l.1)
  }

  lemma SimpleWalkFits(g: Rates, src: Node, p: seq<Node>)
    requires Walk(g, p) && p[0] == src && Simple(p)
    ensures |p| <= |NodesOf(g, src)|
  {
    forall n | n in p
      ensures n in NodesOf(g, src)
    {
      var i :| 0 <= i < |p| && p[i] == n;
      if i > 0 {
        assert (p[i - 1], p[i - 1 + 1]) in g;
      }
    }
    SimpleFits(p, NodesOf(g, src));
  }

  // ------------------------------------------------------------------
  // The search invariant
  // ------------------------------------------------------------------
  type Best = map<Node, Label>

  ghost predicate EntryOk(g: Rates, src: Node, best: Best, e: Entry) {
    && Walk(g, e.path) && e.path[0] == src && Simple(e.path)
    && e.cost == LabelOf(g, e.path)
    && Last(e.path) in best && LabelLeq(best[Last(e.path)], e.cost)
    && forall k | 1 <= k < |e.path| :: Optimal(g, src, e.path[..k])
  }

  // No label in `best` is better than the optimum.
  ghost predicate BestIsReal(g: Rates, src: Node, best: Best) {
    forall v | v in best :: exists w :: Reaches(g, w, src, v) && LabelOf(g, w) == best[v]
  }

  ghost predicate DoneOk(g: Rates, dst: Node, best: Best, done: set<seq<Node>>) {
    forall p | p in done ::
      && Walk(g, p) && Last(p) != dst
      && Last(p) in best && LabelLeq(best[Last(p)], LabelOf(g, p))
  }

  ghost predicate PrefixIn(heap: seq<Entry>, q: seq<Node>) {
    exists e :: e in heap && e.path <= q
  }

  // q continues p over one of the edges not relaxed yet.
  ghost predicate Unrelaxed(p: seq<Node>, edges: seq<Edge>, i: nat, q: seq<Node>) {
    p < q && exists j | i <= j < |edges| :: edges[j].0 == q[|p|]
  }

  ghost predicate Covered(g: Rates, src: Node, heap: seq<Entry>, done: set<seq<Node>>,
                          p: seq<Node>, edges: seq<Edge>, i: nat) {
    forall q | PrefixOptimal(g, src, q) ::
      q in done || PrefixIn(heap, q) || Unrelaxed(p, edges, i, q)
  }

  // The invariant of the search while the edges from index i on of the
  // popped path p still wait; with no edges, of the outer loop.
  ghost predicate SearchInv(g: Rates, src: Node, dst: Node, heap: seq<Entry>, best: Best,
                            done: set<seq<Node>>, p: seq<Node>, edges: seq<Edge>, i: nat) {
    && (forall e | e in heap :: EntryOk(g, src, best, e))
    && BestIsReal(g, src, best)
    && DoneOk(g, dst, best, done)
    && Covered(g, src, heap, done, p, edges, i)
  }

  // The answer of the path computation, said of the graph alone: among the
  // paths to dst all of whose prefixes carry the best label of the node
  // they end at, the one that comes first in list order.
  ghost predicate Canonical(g: Rates, src: Node, dst: Node, p: seq<Node>) {
    && PrefixOptimal(g, src, p) && Last(p) == dst
    && forall q | PrefixOptimal(g, src, q) && Last(q) == dst :: LexLeq(p, q)
  }

  lemma SearchStarts(g: Rates, src: Node, dst: Node)
    ensures SearchInv(g, src, dst, [Entry(Label(0, Unbounded), [src])],
                      map[src := Label(0, Unbounded)], {}, [], [], 0)
  {
    var e := Entry(Label(0, Unbounded), [src]);
    assert Reaches(g, [src], src, src) && LabelOf(g, [src]) == Label(0, Unbounded);
    forall q | PrefixOptimal(g, src, q)
      ensures PrefixIn([e], q)
    {
      assert q[..1][0] == src;
      assert e in [e] && e.path <= q;
    }
  }

  // A prefix's label is never worse than the whole walk's.
  lemma PrefixLabelLeq(g: Rates, p: seq<Node>, q: seq<Node>)
    requires Walk(g, p) && Walk(g, q) && p <= q
    ensures LabelLeq(LabelOf(g, p), LabelOf(g, q))
  {
    if |p| == |q| {
      assert p == q;
    }
  }

  lemma PoppedIsCanonical(g: Rates, src: Node, dst: Node, heap: seq<Entry>, best: Best,
                          done: set<seq<Node>>, e: Entry)
    requires SearchInv(g, src, dst, heap, best, done, [], [], 0)
    requires IsLeast(heap, e)
    requires Last(e.path) == dst
    ensures Canonical(g, src, dst, e.path)
  {
    PoppedIsOptimal(g, src, dst, heap, best, done, e);
    forall q | PrefixOptimal(g, src, q) && Last(q) == dst
      ensures LexLeq(e.path, q)
    {
      PoppedIsLeast(g, src, dst, heap, best, done, e, q);
    }
  }

  // The heap's least entry, unless its label is stale, is an optimal path.
  lemma PoppedIsOptimal(g: Rates, src: Node, dst: Node, heap: seq<Entry>, best: Best,
                        done: set<seq<Node>>, e: Entry)
    requires SearchInv(g, src, dst, heap, best, done, [], [], 0)
    requires IsLeast(heap, e)
    requires Last(e.path) == dst || LabelLeq(e.cost, best[Last(e.path)])
    ensures PrefixOptimal(g, src, e.path)
  {
    assert EntryOk(g, src, best, e);
    hide SearchInv, LexLeq;
    var p := e.path;
    var q := PrefixOptimalExists(g, src, Last(p), p);
    PoppedBeats(g, src, dst, heap, best, done, e, q);
    PrefixOptimalIsOptimal(g, src, q);
    OptimalIfBeats(g, src, p, q);
    forall k | 1 <= k <= |p|
      ensures Optimal(g, src, p[..k])
    {
      if k == |p| {
        assert p[..k] == p;
      }
    }
  }

  lemma OptimalIfBeats(g: Rates, src: Node, p: seq<Node>, q: seq<Node>)
    requires Walk(g, p) && p[0] == src && Optimal(g, src, q) && Last(p) == Last(q)
    requires LabelLeq(LabelOf(g, p), LabelOf(g, q))
    ensures Optimal(g, src, p)
  {
  }

  lemma PoppedBeats(g: Rates, src: Node, dst: Node, heap: seq<Entry>, best: Best,
                    done: set<seq<Node>>, e: Entry, q: seq<Node>)
    requires SearchInv(g, src, dst, heap, best, done, [], [], 0)
    requires IsLeast(heap, e)
    requires PrefixOptimal(g, src, q) && Last(q) == Last(e.path)
    requires Last(e.path) == dst || LabelLeq(e.cost, best[Last(e.path)])
    ensures Walk(g, q) && LabelLeq(e.cost, LabelOf(g, q))
  {
    PrefixOptimalIsOptimal(g, src, q);
    hide PrefixOptimal, Optimal, LexLeq;
    if q !in done {
      assert PrefixIn(heap, q);
      var x :| x in heap && x.path <= q;
      assert EntryOk(g, src, best, x);
      PrefixLabelLeq(g, x.path, q);
    }
  }

  // When a path to dst is popped, no canonical candidate comes before it.
  lemma PoppedIsLeast(g: Rates, src: Node, dst: Node, heap: seq<Entry>, best: Best,
                      done: set<seq<Node>>, e: Entry, q: seq<Node>)
    requires SearchInv(g, src, dst, heap, best, done, [], [], 0)
    requires IsLeast(heap, e)
    requires PrefixOptimal(g, src, e.path) && Last(e.path) == dst
    requires PrefixOptimal(g, src, q) && Last(q) == dst
    ensures LexLeq(e.path, q)
  {
    PrefixOptimalIsOptimal(g, src, e.path);
    PrefixOptimalIsOptimal(g, src, q);
    assert q !in done;
    assert PrefixIn(heap, q);
    var x :| x in heap && x.path <= q;
    assert EntryOk(g, src, best, x) && EntryOk(g, src, best, e);
    PrefixLabelLeq(g, x.path, q);
    assert LabelOf(g, q) == e.cost;
    assert x.cost.hops == |x.path| - 1;
    assert x.path == q;
  }

  // Dropping the popped path: stale, or about to be extended over its edges.
  lemma AfterPop(g: Rates, src: Node, dst: Node, heap: seq<Entry>, best: Best,
                 done: set<seq<Node>>, e: Entry, rest: seq<Entry>, edges: seq<Edge>)
    requires SearchInv(g, src, dst, heap, best, done, [], [], 0)
    requires Removed(heap, e, rest) && EntryOk(g, src, best, e) && Last(e.path) != dst
    requires if LabelLeq(e.cost, best[Last(e.path)])
             then PrefixOptimal(g, src, e.path) && EdgesOf(g, Last(e.path), edges)
             else edges == []
    ensures SearchInv(g, src, dst, rest, best, done + {e.path}, e.path, edges, 0)
  {
    RemovedMembers(heap, e, rest);
    forall q | PrefixOptimal(g, src, q)
      ensures q in done + {e.path} || PrefixIn(rest, q) || Unrelaxed(e.path, edges, 0, q)
    {
      if q !in done && q != e.path && !PrefixIn(rest, q) {
        assert PrefixIn(heap, q);
        var x :| x in heap && x.path <= q;
        assert x == e;
        PoppedIsUnrelaxed(g, src, best, e, edges, q);
      }
    }
  }

  lemma PoppedIsUnrelaxed(g: Rates, src: Node, best: Best, e: Entry, edges: seq<Edge>, q: seq<Node>)
    requires EntryOk(g, src, best, e) && BestIsReal(g, src, best)
    requires LabelLeq(e.cost, best[Last(e.path)]) ==> EdgesOf(g, Last(e.path), edges)
    requires PrefixOptimal(g, src, q) && e.path < q
    ensures Unrelaxed(e.path, edges, 0, q)
  {
    var n := |e.path|;
    assert Optimal(g, src, q[..n]) && q[..n] == e.path;
    NotStale(g, src, best, e);
    PrefixOptimalIsOptimal(g, src, q);
    assert (q[n - 1], q[n - 1 + 1]) in g;
    var edge := (q[n], g[(q[n - 1], q[n])]);
    assert edge in edges;
    var j :| 0 <= j < |edges| && edges[j] == edge;
    assert edges[j].0 == q[n];
  }

  lemma NotStale(g: Rates, src: Node, best: Best, e: Entry)
    requires EntryOk(g, src, best, e) && BestIsReal(g, src, best) && Optimal(g, src, e.path)
    ensures LabelLeq(e.cost, best[Last(e.path)])
  {
  }

  lemma HeapEntryOk(g: Rates, src: Node, dst: Node, heap: seq<Entry>, best: Best,
                    done: set<seq<Node>>, e: Entry)
    requires SearchInv(g, src, dst, heap, best, done, [], [], 0) && IsLeast(heap, e)
    ensures EntryOk(g, src, best, e) && e.path != [] && Last(e.path) in best
  {
  }

  lemma EntryReaches(g: Rates, src: Node, best: Best, e: Entry)
    requires EntryOk(g, src, best, e)
    ensures Reaches(g, e.path, src, Last(e.path))
  {
  }

  lemma RepresentedEdges(adj: Adjacency, g: Rates, n: Node, fan: nat)
    requires Represents(adj, g) && FanWithin(adj, fan)
    ensures EdgesOf(g, n, EdgesFrom(adj, n)) && |EdgesFrom(adj, n)| <= fan
  {
  }

  // Once every edge is relaxed, the popped path no longer counts.
  lemma NothingUnrelaxed(g: Rates, src: Node, dst: Node, heap: seq<Entry>, best: Best,
                         done: set<seq<Node>>, p: seq<Node>, edges: seq<Edge>)
    requires SearchInv(g, src, dst, heap, best, done, p, edges, |edges|)
    ensures SearchInv(g, src, dst, heap, best, done, [], [], 0)
  {
    hide PrefixOptimal;
  }

  // An entry that a better label has overtaken is dropped.
  lemma StaleEntry(g: Rates, src: Node, dst: Node, heap: seq<Entry>, best: Best, done: set<seq<Node>>, e: Entry, rest: seq<Entry>)
    requires SearchInv(g, src, dst, heap, best, done, [], [], 0) && Removed(heap, e, rest) && EntryOk(g, src, best, e)
    requires Last(e.path) != dst && Last(e.path) in best && !LabelLeq(e.cost, best[Last(e.path)])
    ensures SearchInv(g, src, dst, rest, best, done + {e.path}, [], [], 0)
  {
    hide *;
    AfterPop(g, src, dst, heap, best, done, e, rest, []);
    NothingUnrelaxed(g, src, dst, rest, best, done + {e.path}, e.path, []);
  }

  // With the heap empty and dst never popped, dst cannot be reached.
  lemma SearchExhausted(g: Rates, src: Node, dst: Node, best: Best, done: set<seq<Node>>)
    requires SearchInv(g, src, dst, [], best, done, [], [], 0)
    ensures !exists p :: Reaches(g, p, src, dst)
  {
    forall p | Reaches(g, p, src, dst)
      ensures false
    {
      var q := PrefixOptimalExists(g, src, dst, p);
    }
  }

  // One edge of the popped path relaxed, as the loop body does it.
  function RelaxHeap(heap: seq<Entry>, best: Best, e: Entry, edge: Edge): seq<Entry> {
    if Improves(best, e, edge) then heap + [Entry(Extend(e.cost, edge.1), e.path + [edge.0])] else heap
  }

  function RelaxBest(best: Best, e: Entry, edge: Edge): Best {
    if Improves(best, e, edge) then best[edge.0 := Extend(e.cost, edge.1)] else best
  }

  predicate Improves(best: Best, e: Entry, edge: Edge) {
    edge.0 !in e.path && (edge.0 in best ==> LabelLeq(Extend(e.cost, edge.1), best[edge.0]))
  }

  lemma RelaxedEntryOk(g: Rates, src: Node, best: Best, e: Entry, edge: Edge)
    requires EntryOk(g, src, best, e) && PrefixOptimal(g, src, e.path)
    requires (Last(e.path), edge.0) in g && g[(Last(e.path), edge.0)] == edge.1
    requires Improves(best, e, edge)
    ensures EntryOk(g, src, RelaxBest(best, e, edge), Entry(Extend(e.cost, edge.1), e.path + [edge.0]))
    ensures Reaches(g, e.path + [edge.0], src, edge.0)
    ensures |e.path| + 1 <= |NodesOf(g, src)|
  {
    var p := e.path + [edge.0];
    LabelOfExtension(g, e.path, edge.0);
    forall k | 1 <= k < |p|
      ensures Optimal(g, src, p[..k])
    {
      assert p[..k] == e.path[..k];
    }
    SimpleWalkFits(g, src, p);
  }

  lemma RelaxKeepsEntries(g: Rates, src: Node, best: Best, e: Entry, edge: Edge, x: Entry)
    requires EntryOk(g, src, best, x) && Improves(best, e, edge)
    ensures EntryOk(g, src, RelaxBest(best, e, edge), x)
  {
  }

  // A candidate that continues over the edge just relaxed is on the heap now.
  lemma RelaxCovers(g: Rates, src: Node, heap: seq<Entry>, best: Best, e: Entry, edge: Edge, q: seq<Node>)
    requires EntryOk(g, src, best, e) && BestIsReal(g, src, best)
    requires PrefixOptimal(g, src, q) && e.path < q && q[|e.path|] == edge.0
    requires (Last(e.path), edge.0) in g && g[(Last(e.path), edge.0)] == edge.1
    ensures PrefixIn(RelaxHeap(heap, best, e, edge), q)
  {
    var n := |e.path|;
    var p := q[..n + 1];
    assert Optimal(g, src, p) && p == e.path + [edge.0];
    OptimalIsSimple(g, src, p);
    assert edge.0 !in e.path by {
      assert p[n] == edge.0;
      assert forall i | 0 <= i < n :: e.path[i] == p[i];
    }
    LabelOfExtension(g, e.path, edge.0);
    assert Improves(best, e, edge);
    var x := Entry(Extend(e.cost, edge.1), p);
    assert x == RelaxHeap(heap, best, e, edge)[|heap|];
    assert x.path <= q;
  }

  lemma RelaxKeepsInv(g: Rates, src: Node, dst: Node, heap: seq<Entry>, best: Best,
                      done: set<seq<Node>>, e: Entry, edges: seq<Edge>, i: nat)
    requires SearchInv(g, src, dst, heap, best, done, e.path, edges, i)
    requires i < |edges| && EntryOk(g, src, best, e) && PrefixOptimal(g, src, e.path)
    requires (Last(e.path), edges[i].0) in g && g[(Last(e.path), edges[i].0)] == edges[i].1
    ensures SearchInv(g, src, dst, RelaxHeap(heap, best, e, edges[i]), RelaxBest(best, e, edges[i]),
                      done, e.path, edges, i + 1)
    ensures EntryOk(g, src, RelaxBest(best, e, edges[i]), e)
  {
    var edge := edges[i];
    var heap' := RelaxHeap(heap, best, e, edge);
    RelaxKeepsBest(g, src, dst, heap, best, done, e, edge);
    forall q | PrefixOptimal(g, src, q)
      ensures q in done || PrefixIn(heap', q) || Unrelaxed(e.path, edges, i + 1, q)
    {
      hide PrefixOptimal, EntryOk, DoneOk, BestIsReal;
      if PrefixIn(heap, q) {
        var x :| x in heap && x.path <= q;
        assert x in heap';
      } else if Unrelaxed(e.path, edges, i, q) && !Unrelaxed(e.path, edges, i + 1, q) {
        RelaxCovers(g, src, heap, best, e, edge, q);
      }
    }
  }

  lemma RelaxKeepsBest(g: Rates, src: Node, dst: Node, heap: seq<Entry>, best: Best,
                       done: set<seq<Node>>, e: Entry, edge: Edge)
    requires forall x | x in heap :: EntryOk(g, src, best, x)
    requires BestIsReal(g, src, best) && DoneOk(g, dst, best, done)
    requires EntryOk(g, src, best, e) && PrefixOptimal(g, src, e.path)
    requires (Last(e.path), edge.0) in g && g[(Last(e.path), edge.0)] == edge.1
    ensures var best' := RelaxBest(best, e, edge);
            && (forall x | x in RelaxHeap(heap, best, e, edge) :: EntryOk(g, src, best', x))
            && BestIsReal(g, src, best') && DoneOk(g, dst, best', done)
            && EntryOk(g, src, best', e)
  {
    if Improves(best, e, edge) {
      RelaxedEntryOk(g, src, best, e, edge);
      RelaxKeepsEntries(g, src, best, e, edge, e);
      forall x | x in heap
        ensures EntryOk(g, src, RelaxBest(best, e, edge), x)
      {
        RelaxKeepsEntries(g, src, best, e, edge, x);
      }
      RelaxKeepsDone(g, dst, best, done, e, edge);
      RelaxIsReal(g, src, best, e, edge);
    }
    hide EntryOk, BestIsReal, DoneOk, PrefixOptimal, Reaches, NodesOf;
  }

  lemma RelaxKeepsDone(g: Rates, dst: Node, best: Best, done: set<seq<Node>>, e: Entry, edge: Edge)
    requires DoneOk(g, dst, best, done) && Improves(best, e, edge)
    ensures DoneOk(g, dst, RelaxBest(best, e, edge), done)
  {
    hide Walk, LabelOf, Last;
  }

  lemma RelaxIsReal(g: Rates, src: Node, best: Best, e: Entry, edge: Edge)
    requires BestIsReal(g, src, best) && EntryOk(g, src, best, e) && Improves(best, e, edge)
    requires (Last(e.path), edge.0) in g && g[(Last(e.path), edge.0)] == edge.1
    requires Reaches(g, e.path + [edge.0], src, edge.0)
    ensures BestIsReal(g, src, RelaxBest(best, e, edge))
  {
    LabelOfExtension(g, e.path, edge.0);
    hide Reaches, LabelOf, Optimal, Simple;
    var best' := RelaxBest(best, e, edge);
    forall v | v in best'
      ensures exists w :: Reaches(g, w, src, v) && LabelOf(g, w) == best'[v]
    {
      if v == edge.0 {
        assert LabelOf(g, e.path + [edge.0]) == best'[v];
      }
    }
  }

  // The loop over the popped path's edges.
  method Relax(ghost g: Rates, ghost src: Node, ghost dst: Node, heap0: seq<Entry>, best0: Best,
               ghost done: set<seq<Node>>, e: Entry, edges: seq<Edge>, ghost fan: nat)
    returns (heap: seq<Entry>, best: Best)
    requires SearchInv(g, src, dst, heap0, best0, done, e.path, edges, 0)
    requires EntryOk(g, src, best0, e) && PrefixOptimal(g, src, e.path)
    requires EdgesOf(g, Last(e.path), edges) && |edges| <= fan
    ensures SearchInv(g, src, dst, heap, best, done, [], [], 0)
    ensures var size := |NodesOf(g, src)|;
            Potential(heap, size, fan) < Potential(heap0, size, fan) + Weight(size - |e.path|, fan)
  {
    hide SearchInv, EntryOk, PrefixOptimal, Weight, Potential, Reaches, NodesOf, PushedBy;
    heap, best := heap0, best0;
    ghost var size := |NodesOf(g, src)|;
    ghost var i' := 0;
    NothingPushed(heap, size, fan, |e.path|);
    for i := 0 to |edges|
      invariant SearchInv(g, src, dst, heap, best, done, e.path, edges, i)
      invariant EntryOk(g, src, best, e)
      invariant i' <= i && PushedBy(heap0, heap, size, fan, |e.path|, i')
    {
      var nxt, residual := edges[i].0, edges[i].1;
      RelaxKeepsInv(g, src, dst, heap, best, done, e, edges, i);
      if nxt in e.path {
        continue;
      }
      var cost := Extend(e.cost, residual);
      if nxt !in best || LabelLeq(cost, best[nxt]) {
        RelaxedEntryOk(g, src, best, e, edges[i]);
        OneMorePushed(heap0, heap, Entry(cost, e.path + [nxt]), size, fan, |e.path|, i');
        best := best[nxt := cost];
        heap := heap + [Entry(cost, e.path + [nxt])];
        i' := i' + 1;
      }
    }
    NothingUnrelaxed(g, src, dst, heap, best, done, e.path, edges);
    PushedLess(heap0, heap, size, fan, |e.path|, i');
  }

  // n entries were pushed, each one hop longer than a path of `hops` nodes.
  ghost predicate PushedBy(heap0: seq<Entry>, heap: seq<Entry>, size: nat, fan: nat, hops: nat, n: nat) {
    && Potential(heap, size, fan) == Potential(heap0, size, fan) + n * Weight(size - hops - 1, fan)
    && (n > 0 ==> size > hops)
  }

  lemma NothingPushed(heap: seq<Entry>, size: nat, fan: nat, hops: nat)
    ensures PushedBy(heap, heap, size, fan, hops, 0)
  {
  }

  lemma OneMorePushed(heap0: seq<Entry>, heap: seq<Entry>, x: Entry, size: nat, fan: nat, hops: nat, n: nat)
    requires PushedBy(heap0, heap, size, fan, hops, n) && |x.path| == hops + 1 && size > hops
    ensures PushedBy(heap0, heap + [x], size, fan, hops, n + 1)
  {
    PotentialPush(heap, x, size, fan);
    hide Potential, Weight;
  }

  lemma PushedLess(heap0: seq<Entry>, heap: seq<Entry>, size: nat, fan: nat, hops: nat, n: nat)
    requires PushedBy(heap0, heap, size, fan, hops, n) && n <= fan
    ensures Potential(heap, size, fan) < Potential(heap0, size, fan) + Weight(size - hops, fan)
  {
    var w := Weight(size - hops - 1, fan);
    WeightUnfolds(size - hops, fan);
    hide Potential, Weight;
    assert n * w <= fan * w;
  }

  // ------------------------------------------------------------------
  // compute
  // ------------------------------------------------------------------
  method Compute(cap: Rates, used: Rates, src: Node, dst: Node, bw: real) returns (r: Option<seq<Node>>)
    ensures r.None? <==> !exists p :: Reaches(Residuals(cap, used, bw), p, src, dst)
    ensures r.Some? ==> Canonical(Residuals(cap, used, bw), src, dst, r.value)
  {
    hide *;
    ghost var g := Residuals(cap, used, bw);
    var adj := BuildAdjacency(cap, used, bw);
    var best: Best := map[src := Label(0, Unbounded)];
    var heap := [Entry(Label(0, Unbounded), [src])];
    ghost var done: set<seq<Node>> := {};
    ghost var size, fan := |NodesOf(g, src)|, |cap|;
    SearchStarts(g, src, dst);
    while heap != []
      invariant SearchInv(g, src, dst, heap, best, done, [], [], 0)
      decreases Potential(heap, size, fan)
    {
      var e, rest := HeapPop(heap);
      RemovedPotential(heap, e, rest, size, fan);
      HeapEntryOk(g, src, dst, heap, best, done, e);
      var node := Last(e.path);
      if node == dst {
        PoppedIsCanonical(g, src, dst, heap, best, done, e);
        EntryReaches(g, src, best, e);
        return Some(e.path);
      }
      if node in best && !LabelLeq(e.cost, best[node]) {
        StaleEntry(g, src, dst, heap, best, done, e, rest);
        WeightPositive(size - |e.path|, fan);
        heap, done := rest, done + {e.path};
        continue;
      }
      PoppedIsOptimal(g, src, dst, heap, best, done, e);
      var edges := EdgesFrom(adj, node);
      RepresentedEdges(adj, g, node, |cap|);
      AfterPop(g, src, dst, heap, best, done, e, rest, edges);
      heap, best := Relax(g, src, dst, rest, best, done + {e.path}, e, edges, fan);
      done := done + {e.path};
    }
    SearchExhausted(g, src, dst, best, done);
    return None;
  }

  // What the answer is worth: a simple path with room on every link, of
  // fewest hops and, among those, of the widest bottleneck.
  lemma CanonicalIsBest(cap: Rates, used: Rates, src: Node, dst: Node, bw: real, p: seq<Node>)
    requires Canonical(Residuals(cap, used, bw), src, dst, p)
    ensures Reaches(cap, p, src, dst) && Simple(p)
    ensures forall i | 0 <= i < |p| - 1 :: cap[(p[i], p[i + 1])] - Held(used, (p[i], p[i + 1])) >= bw
    ensures forall q | Reaches(Residuals(cap, used, bw), q, src, dst) ::
              |p| < |q| ||
              (|p| == |q| && AsWide(WidthOf(Residuals(cap, used, bw), p), WidthOf(Residuals(cap, used, bw), q)))
  {
    var g := Residuals(cap, used, bw);
    PrefixOptimalIsOptimal(g, src, p);
    OptimalIsSimple(g, src, p);
    forall q | Reaches(g, q, src, dst)
      ensures |p| < |q| || (|p| == |q| && AsWide(WidthOf(g, p), WidthOf(g, q)))
    {
      assert LabelLeq(LabelOf(g, p), LabelOf(g, q));
    }
    forall i | 0 <= i < |p| - 1
      ensures (p[i], p[i + 1]) in cap && cap[(p[i], p[i + 1])] - Held(used, (p[i], p[i + 1])) >= bw
    {
      assert (p[i], p[i + 1]) in g;
    }
  }

  // The answer depends on the graph alone, not on the order links are read in.
  lemma CanonicalIsUnique(g: Rates, src: Node, dst: Node, p: seq<Node>, q: seq<Node>)
    requires Canonical(g, src, dst, p) && Canonical(g, src, dst, q)
    ensures p == q
  {
    LexTotal(p, q);
  }

  // ------------------------------------------------------------------
  // "Ties go to the lexicographically smallest path": exactly when
  // ------------------------------------------------------------------
  ghost predicate LeastOptimal(g: Rates, src: Node, dst: Node, p: seq<Node>) {
    && Optimal(g, src, p) && Last(p) == dst
    && forall q | Optimal(g, src, q) && Last(q) == dst :: LexLeq(p, q)
  }

  // The smallest of the best paths is returned if and only if none of its
  // prefixes was refused a place on the heap for a worse label.
  lemma TiesGoToLeastIff(g: Rates, src: Node, dst: Node, least: seq<Node>, p: seq<Node>)
    requires LeastOptimal(g, src, dst, least) && Canonical(g, src, dst, p)
    ensures p == least <==> PrefixOptimal(g, src, least)
  {
    PrefixOptimalIsOptimal(g, src, p);
    LexTotal(p, least);
  }

  function TieGraph(): Rates {
    map[(0, 1) := 5.0, (0, 2) := 10.0, (1, 3) := 10.0, (2, 3) := 10.0, (3, 4) := 3.0]
  }

  lemma TieLinks(l: Link)
    requires l in TieGraph()
    ensures l in {(0, 1), (0, 2), (1, 3), (2, 3), (3, 4)}
    ensures l == (3, 4) ==> TieGraph()[l] == 3.0
  {
  }

  lemma TieWalks(p: seq<Node>)
    requires Reaches(TieGraph(), p, 0, 4)
    ensures |p| == 4 && (p == [0, 1, 3, 4] || p == [0, 2, 3, 4])
    ensures WidthOf(TieGraph(), p).Mbps? && WidthOf(TieGraph(), p).rate <= 3.0
  {
    hide TieGraph, WidthOf;
    assert |p| > 1;
    TieLinks((p[0], p[0 + 1]));
    assert |p| > 2;
    TieLinks((p[1], p[1 + 1]));
    assert |p| > 3;
    TieLinks((p[2], p[2 + 1]));
    if |p| > 4 {
      assert (p[3], p[3 + 1]) in TieGraph();
      TieLinks((4, p[4]));
    }
    WidthIsBottleneck(TieGraph(), p);
    TieLinks((p[2], p[2 + 1]));
  }

  lemma TieWidths()
    ensures Walk(TieGraph(), [0, 1, 3, 4]) && WidthOf(TieGraph(), [0, 1, 3, 4]) == Mbps(3.0)
    ensures Walk(TieGraph(), [0, 1, 3]) && WidthOf(TieGraph(), [0, 1, 3]) == Mbps(5.0)
    ensures Walk(TieGraph(), [0, 2, 3]) && WidthOf(TieGraph(), [0, 2, 3]) == Mbps(10.0)
  {
    assert Front([0, 1, 3, 4]) == [0, 1, 3] && Front([0, 1, 3]) == [0, 1] && Front([0, 1]) == [0];
    assert Front([0, 2, 3]) == [0, 2] && Front([0, 2]) == [0];
    assert WidthOf(TieGraph(), [0, 1]) == Mbps(5.0) && WidthOf(TieGraph(), [0, 2]) == Mbps(10.0);
  }

  // Two equally good paths, and the smaller one is not the answer: its
  // narrow first link makes it the worse way to reach node 3, although the
  // last link is narrower still.
  lemma TiesMayMissTheLeast(p: seq<Node>)
    requires Canonical(TieGraph(), 0, 4, p)
    ensures Optimal(TieGraph(), 0, [0, 1, 3, 4])
    ensures p == [0, 2, 3, 4] && LexLeq([0, 1, 3, 4], p)
  {
    hide TieGraph, WidthOf;
    var a := [0, 1, 3, 4];
    TieWidths();
    forall q | Reaches(TieGraph(), q, 0, 4)
      ensures LabelLeq(LabelOf(TieGraph(), a), LabelOf(TieGraph(), q))
    {
      TieWalks(q);
    }
    PrefixOptimalIsOptimal(TieGraph(), 0, p);
    TieWalks(p);
    assert Reaches(TieGraph(), [0, 2, 3], 0, 3);
    assert !Optimal(TieGraph(), 0, [0, 1, 3]);
    assert a[..3] == [0, 1, 3];
  }
}
