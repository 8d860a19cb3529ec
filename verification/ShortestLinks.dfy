// Every link the fewest-hop (ECMP) routing may use between two nodes.

module ShortestLinks {
  import opened Graph
  import Pce

  type Neighbours = map<Node, set<Node>>

  function Of(m: Neighbours, n: Node): set<Node> {
    if n in m then m[n] else {}
  }

  // adj and pred list the heads and the tails of exactly the links given.
  ghost predicate Lists(links: set<Link>, adj: Neighbours, pred: Neighbours) {
    && (forall a: Node, b: Node :: (a, b) in links <==> b in Of(adj, a))
    && (forall a: Node, b: Node :: (a, b) in links <==> a in Of(pred, b))
  }

  lemma ListsAdd(links: set<Link>, adj: Neighbours, pred: Neighbours, l: Link)
    requires Lists(links, adj, pred)
    ensures Lists(links + {l}, adj[l.0 := Of(adj, l.0) + {l.1}], pred[l.1 := Of(pred, l.1) + {l.0}])
  {
  }

  method Index(cap: Rates) returns (adj: Neighbours, pred: Neighbours)
    ensures Lists(cap.Keys, adj, pred)
  {
    adj, pred := map[], map[];
    var todo := cap.Keys;
    while todo != {}
      invariant todo <= cap.Keys
      invariant Lists(cap.Keys - todo, adj, pred)
    {
      var l :| l in todo;
      ListsAdd(cap.Keys - todo, adj, pred, l);
      assert cap.Keys - todo + {l} == cap.Keys - (todo - {l});
      todo := todo - {l};
      adj := adj[l.0 := Of(adj, l.0) + {l.1}];
      pred := pred[l.1 := Of(pred, l.1) + {l.0}];
    }
    assert cap.Keys - todo == cap.Keys;
  }

  // ------------------------------------------------------------------
  // The forward search
  // ------------------------------------------------------------------
  type Distances = map<Node, nat>

  ghost predicate Distinct(s: seq<Node>) {
    forall i, j | 0 <= i < j < |s| :: s[i] != s[j]
  }

  // Every distance is the length of some walk.
  ghost predicate Walked(cap: Rates, src: Node, dist: Distances) {
    forall v | v in dist :: exists p :: Reaches(cap, p, src, v) && |p| == dist[v] + 1
  }

  // Links out of every finished node lose at most one hop.
  ghost predicate Relaxed(cap: Rates, dist: Distances, waiting: set<Node>) {
    forall l | l in cap && l.0 in dist && l.0 !in waiting :: l.1 in dist && dist[l.1] <= dist[l.0] + 1
  }

  // The queue holds found nodes, nearest first; nothing found is more than
  // one hop beyond `d`, and nothing queued is nearer than `d`.
  ghost predicate QueueOk(dist: Distances, queue: seq<Node>, d: nat) {
    && Distinct(queue)
    && (forall i | 0 <= i < |queue| :: queue[i] in dist && dist[queue[i]] >= d)
    && (forall i, j | 0 <= i < j < |queue| :: dist[queue[i]] <= dist[queue[j]])
    && (forall v | v in dist :: dist[v] <= d + 1)
  }

  ghost function Elements(s: seq<Node>): set<Node> {
    set n | n in s
  }

  ghost predicate BfsInv(cap: Rates, src: Node, dist: Distances, queue: seq<Node>) {
    && src in dist && dist[src] == 0
    && dist.Keys <= Pce.NodesOf(cap, src)
    && Walked(cap, src, dist)
    && Relaxed(cap, dist, Elements(queue))
    && (queue != [] ==> queue[0] in dist && QueueOk(dist, queue, dist[queue[0]]))
  }

  // The distances of exactly the nodes that can be reached.
  ghost predicate Exact(cap: Rates, src: Node, dist: Distances) {
    && Walked(cap, src, dist)
    && forall p, v | Reaches(cap, p, src, v) :: v in dist && dist[v] + 1 <= |p|
  }

  lemma {:induction false} RelaxedIsShortest(cap: Rates, src: Node, dist: Distances, p: seq<Node>)
    requires src in dist && dist[src] == 0 && Relaxed(cap, dist, {})
    requires Walk(cap, p) && p[0] == src
    ensures Last(p) in dist && dist[Last(p)] + 1 <= |p|
    decreases |p|
  {
    if |p| > 1 {
      WalkSlice(cap, p, 0, |p| - 1);
      RelaxedIsShortest(cap, src, dist, Front(p));
      assert (p[|p| - 2], p[|p| - 2 + 1]) in cap;
    }
  }

  lemma WalkedExtends(cap: Rates, src: Node, dist: Distances, node: Node, nxt: Node)
    requires Walked(cap, src, dist) && node in dist && nxt !in dist && (node, nxt) in cap
    ensures Walked(cap, src, dist[nxt := dist[node] + 1])
    ensures nxt in Pce.NodesOf(cap, src)
  {
    var p :| Reaches(cap, p, src, node) && |p| == dist[node] + 1;
    LabelOfExtension(cap, p, nxt);
    assert Reaches(cap, p + [nxt], src, nxt) && |p + [nxt]| == dist[node] + 2;
    assert (node, nxt).1 == nxt;
  }

  method ForwardSearch(cap: Rates, adj: Neighbours, src: Node) returns (dist: Distances)
    requires forall a: Node, b: Node :: (a, b) in cap <==> b in Of(adj, a)
    ensures src in dist && dist[src] == 0 && Exact(cap, src, dist)
  {
    dist := map[src := 0];
    var queue := [src];
    hide Pce.NodesOf, Walked, Relaxed, QueueOk;
    BfsStarts(cap, src);
    hide BfsInv;
    while queue != []
      invariant BfsInv(cap, src, dist, queue)
      decreases Pce.NodesOf(cap, src) - dist.Keys, |queue|
    {
      dist, queue := ExpandNode(cap, adj, src, dist, queue);
    }
    BfsEnds(cap, src, dist);
  }

  lemma BfsStarts(cap: Rates, src: Node)
    ensures BfsInv(cap, src, map[src := 0], [src])
  {
    assert Reaches(cap, [src], src, src);
    assert src in Elements([src]);
  }

  lemma BfsEnds(cap: Rates, src: Node, dist: Distances)
    requires BfsInv(cap, src, dist, [])
    ensures src in dist && dist[src] == 0 && Exact(cap, src, dist)
  {
    assert Elements([]) == {};
    forall p, v | Reaches(cap, p, src, v)
      ensures v in dist && dist[v] + 1 <= |p|
    {
      RelaxedIsShortest(cap, src, dist, p);
    }
  }

  // The search while `node` is off the queue and the neighbours in `todo`
  // still wait.
  ghost predicate ExpandInv(cap: Rates, src: Node, node: Node, dist: Distances, queue: seq<Node>, todo: set<Node>) {
    && src in dist && dist[src] == 0 && node in dist
    && dist.Keys <= Pce.NodesOf(cap, src)
    && Walked(cap, src, dist)
    && QueueOk(dist, queue, dist[node])
    && Relaxed(cap, dist, Elements(queue) + {node})
    && forall b | (node, b) in cap && b !in todo :: b in dist
  }

  lemma ExpandStarts(cap: Rates, src: Node, dist: Distances, queue: seq<Node>, todo: set<Node>)
    requires BfsInv(cap, src, dist, queue) && queue != []
    requires forall b | (queue[0], b) in cap :: b in todo
    ensures ExpandInv(cap, src, queue[0], dist, queue[1..], todo)
  {
    assert Elements(queue) == Elements(queue[1..]) + {queue[0]};
  }

  lemma ExpandStep(cap: Rates, src: Node, node: Node, dist: Distances, queue: seq<Node>, todo: set<Node>, nxt: Node)
    requires ExpandInv(cap, src, node, dist, queue, todo) && (node, nxt) in cap
    ensures nxt in dist ==> ExpandInv(cap, src, node, dist, queue, todo - {nxt})
    ensures nxt !in dist ==>
              nxt in Pce.NodesOf(cap, src) &&
              ExpandInv(cap, src, node, dist[nxt := dist[node] + 1], queue + [nxt], todo - {nxt})
  {
    if nxt !in dist {
      WalkedExtends(cap, src, dist, node, nxt);
      EnqueueKeepsQueue(dist, queue, node, nxt);
      EnqueueKeepsRelaxed(cap, dist, queue, node, nxt);
      hide Walked, QueueOk, Relaxed, Pce.NodesOf;
    }
  }

  lemma EnqueueKeepsQueue(dist: Distances, queue: seq<Node>, node: Node, nxt: Node)
    requires node in dist && nxt !in dist && QueueOk(dist, queue, dist[node])
    ensures QueueOk(dist[nxt := dist[node] + 1], queue + [nxt], dist[node])
  {
    var dist', queue' := dist[nxt := dist[node] + 1], queue + [nxt];
    forall i, j | 0 <= i < j < |queue'|
      ensures queue'[i] != queue'[j] && dist'[queue'[i]] <= dist'[queue'[j]]
    {
      assert queue'[i] == queue[i] && queue[i] in dist;
    }
  }

  lemma EnqueueKeepsRelaxed(cap: Rates, dist: Distances, queue: seq<Node>, node: Node, nxt: Node)
    requires node in dist && nxt !in dist && Relaxed(cap, dist, Elements(queue) + {node})
    ensures Relaxed(cap, dist[nxt := dist[node] + 1], Elements(queue + [nxt]) + {node})
  {
    assert nxt in queue + [nxt];
    forall n | n in queue
      ensures n in queue + [nxt]
    {
    }
  }

  lemma ExpandEnds(cap: Rates, src: Node, node: Node, dist: Distances, queue: seq<Node>)
    requires ExpandInv(cap, src, node, dist, queue, {})
    ensures BfsInv(cap, src, dist, queue)
  {
    forall l | l in cap && l.0 in dist && l.0 !in Elements(queue)
      ensures l.1 in dist && dist[l.1] <= dist[l.0] + 1
    {
      assert l == (l.0, l.1);
    }
  }

  // One node taken off the queue, its new neighbours queued behind.
  method ExpandNode(ghost cap: Rates, adj: Neighbours, ghost src: Node, dist0: Distances, queue0: seq<Node>)
    returns (dist: Distances, queue: seq<Node>)
    requires forall a: Node, b: Node :: (a, b) in cap <==> b in Of(adj, a)
    requires BfsInv(cap, src, dist0, queue0) && queue0 != []
    ensures BfsInv(cap, src, dist, queue)
    ensures dist0.Keys <= dist.Keys <= Pce.NodesOf(cap, src)
    ensures dist.Keys == dist0.Keys ==> |queue| < |queue0|
  {
    var node := queue0[0];
    dist, queue := dist0, queue0[1..];
    var todo := Of(adj, node);
    ExpandStarts(cap, src, dist0, queue0, todo);
    hide BfsInv, Pce.NodesOf, Walked, QueueOk, Relaxed, Elements;
    while todo != {}
      invariant todo <= Of(adj, node)
      invariant dist0.Keys <= dist.Keys <= Pce.NodesOf(cap, src)
      invariant dist.Keys == dist0.Keys ==> |queue| < |queue0|
      invariant ExpandInv(cap, src, node, dist, queue, todo)
    {
      var nxt :| nxt in todo;
      ExpandStep(cap, src, node, dist, queue, todo, nxt);
      todo := todo - {nxt};
      if nxt !in dist {
        dist := dist[nxt := dist[node] + 1];
        queue := queue + [nxt];
      }
    }
    ExpandEnds(cap, src, node, dist, queue);
  }

  // ------------------------------------------------------------------
  // The backward sweep
  // ------------------------------------------------------------------
  // b lies on a fewest-hop path to dst.
  ghost predicate Tight(cap: Rates, dist: Distances, dst: Node, b: Node)
    requires dst in dist
  {
    b in dist && exists p :: Reaches(cap, p, b, dst) && |p| - 1 + dist[b] == dist[dst]
  }

  ghost predicate TightLink(cap: Rates, dist: Distances, dst: Node, l: Link)
    requires dst in dist
  {
    l in cap && Tight(cap, dist, dst, l.1) && l.0 in dist && dist[l.0] + 1 == dist[l.1]
  }

  ghost predicate AtLevel(cap: Rates, dist: Distances, dst: Node, k: nat, b: Node)
    requires dst in dist
  {
    b in dist && dist[b] == k && Tight(cap, dist, dst, b)
  }

  lemma TightBefore(cap: Rates, dist: Distances, dst: Node, a: Node, b: Node)
    requires dst in dist && TightLink(cap, dist, dst, (a, b))
    ensures Tight(cap, dist, dst, a)
  {
    var p :| Reaches(cap, p, b, dst) && |p| - 1 + dist[b] == dist[dst];
    WalkConcat(cap, [a], p);
    assert Reaches(cap, [a] + p, a, dst);
  }

  // A node on a fewest-hop path, dst apart, is followed by another one.
  lemma TightAfter(cap: Rates, src: Node, dist: Distances, dst: Node, a: Node) returns (b: Node)
    requires Exact(cap, src, dist) && dst in dist
    requires Tight(cap, dist, dst, a) && dist[a] < dist[dst]
    ensures TightLink(cap, dist, dst, (a, b))
  {
    var p :| Reaches(cap, p, a, dst) && |p| - 1 + dist[a] == dist[dst];
    b := p[1];
    assert (p[0], p[0 + 1]) in cap;
    WalkSlice(cap, p, 1, |p|);
    var w :| Reaches(cap, w, src, a) && |w| == dist[a] + 1;
    LabelOfExtension(cap, w, b);
    assert Reaches(cap, w + [b], src, b);
    var v :| Reaches(cap, v, src, b) && |v| == dist[b] + 1;
    WalkSlice(cap, v, 0, |v|);
    if |p| > 2 {
      assert (p[1], p[1 + 1]) in cap;
      WalkSlice(cap, p, 2, |p|);
    }
    WalkConcat(cap, v, p[2..]);
    assert Reaches(cap, v + p[2..], src, dst);
    assert Reaches(cap, p[1..], b, dst);
  }

  // A tight node beyond src has a predecessor one hop nearer.
  lemma TightPredecessor(cap: Rates, src: Node, dist: Distances, dst: Node, b: Node) returns (a: Node)
    requires Exact(cap, src, dist) && dst in dist
    requires Tight(cap, dist, dst, b) && dist[b] > 0
    ensures TightLink(cap, dist, dst, (a, b))
  {
    var w :| Reaches(cap, w, src, b) && |w| == dist[b] + 1;
    a := w[|w| - 2];
    assert (w[|w| - 2], w[|w| - 2 + 1]) in cap;
    WalkSlice(cap, w, 0, |w| - 1);
    assert Reaches(cap, Front(w), src, a);
    var v :| Reaches(cap, v, src, a) && |v| == dist[a] + 1;
    LabelOfExtension(cap, v, b);
    assert Reaches(cap, v + [b], src, b);
  }

  // One step of the sweep: the links that lose exactly one hop into the frontier.
  method StepBack(ghost cap: Rates, pred: Neighbours, dist: Distances, frontier: set<Node>)
    returns (found: set<Link>, step: set<Node>)
    requires forall a: Node, b: Node :: (a, b) in cap <==> a in Of(pred, b)
    requires forall b | b in frontier :: b in dist && dist[b] > 0
    ensures forall l :: l in found <==>
              l in cap && l.1 in frontier && l.0 in dist && dist[l.0] == dist[l.1] - 1
    ensures forall a :: a in step <==> exists b :: (a, b) in found
  {
    found, step := {}, {};
    var todo := frontier;
    while todo != {}
      invariant todo <= frontier
      invariant forall l :: l in found <==>
                  l in cap && l.1 in frontier - todo && l.0 in dist && dist[l.0] == dist[l.1] - 1
      invariant forall a :: a in step <==> exists b :: (a, b) in found
    {
      var b :| b in todo;
      todo := todo - {b};
      ghost var found0, step0 := found, step;
      var new_ := set a | a in Of(pred, b) && a in dist && dist[a] == dist[b] - 1;
      found := found + set a | a in new_ :: (a, b);
      step := step + new_;
      forall a
        ensures a in step <==> exists c :: (a, c) in found
      {
        if a in new_ {
          assert (a, b) in found;
        } else if a in step0 {
          var c :| (a, c) in found0;
          assert (a, c) in found;
        }
      }
    }
  }

  ghost predicate SweepInv(cap: Rates, src: Node, dst: Node, dist: Distances, k: nat,
                           frontier: set<Node>, links: set<Link>)
    requires dst in dist
  {
    && k <= dist[dst]
    && (forall b :: b in frontier <==> b != src && AtLevel(cap, dist, dst, k, b))
    && (k > 0 ==> frontier != {})
    && (forall l :: l in links <==> TightLink(cap, dist, dst, l) && dist[l.1] > k)
  }

  lemma SweepStep(cap: Rates, src: Node, dst: Node, dist: Distances, k: nat,
                  frontier: set<Node>, links: set<Link>, found: set<Link>, step: set<Node>)
    requires dst in dist && src in dist && dist[src] == 0 && Exact(cap, src, dist)
    requires k > 0 && SweepInv(cap, src, dst, dist, k, frontier, links)
    requires forall l :: l in found <==>
               l in cap && l.1 in frontier && l.0 in dist && dist[l.0] == dist[l.1] - 1
    requires forall a :: a in step <==> exists b :: (a, b) in found
    ensures SweepInv(cap, src, dst, dist, k - 1, step - {src}, links + found)
  {
    FoundIsTight(cap, src, dst, dist, k, frontier, links, found);
    StepIsLevel(cap, src, dst, dist, k, found, step);
    if k > 1 {
      var b :| b in frontier;
      var a := TightPredecessor(cap, src, dist, dst, b);
      assert (a, b) in found;
      assert a in step - {src};
    }
  }

  lemma FoundIsTight(cap: Rates, src: Node, dst: Node, dist: Distances, k: nat,
                     frontier: set<Node>, links: set<Link>, found: set<Link>)
    requires dst in dist && src in dist && dist[src] == 0
    requires k > 0 && SweepInv(cap, src, dst, dist, k, frontier, links)
    requires forall l :: l in found <==>
               l in cap && l.1 in frontier && l.0 in dist && dist[l.0] == dist[l.1] - 1
    ensures forall l :: l in found <==> TightLink(cap, dist, dst, l) && dist[l.1] == k
  {
    forall l | TightLink(cap, dist, dst, l) && dist[l.1] == k
      ensures l in found
    {
      assert AtLevel(cap, dist, dst, k, l.1);
    }
  }

  lemma StepIsLevel(cap: Rates, src: Node, dst: Node, dist: Distances, k: nat, found: set<Link>, step: set<Node>)
    requires dst in dist && Exact(cap, src, dist) && 0 < k <= dist[dst]
    requires forall l :: l in found <==> TightLink(cap, dist, dst, l) && dist[l.1] == k
    requires forall a :: a in step <==> exists b :: (a, b) in found
    ensures forall a :: a in step <==> AtLevel(cap, dist, dst, k - 1, a)
  {
    forall a
      ensures a in step <==> AtLevel(cap, dist, dst, k - 1, a)
    {
      if a in step {
        var b :| (a, b) in found;
        TightBefore(cap, dist, dst, a, b);
      }
      if AtLevel(cap, dist, dst, k - 1, a) {
        var b := TightAfter(cap, src, dist, dst, a);
        assert (a, b) in found;
      }
    }
  }

  // ------------------------------------------------------------------
  // shortest_links
  // ------------------------------------------------------------------
  ghost predicate ShortestPath(cap: Rates, src: Node, dst: Node, p: seq<Node>) {
    Reaches(cap, p, src, dst) && forall q | Reaches(cap, q, src, dst) :: |p| <= |q|
  }

  ghost predicate OnShortestPath(cap: Rates, src: Node, dst: Node, l: Link) {
    exists p, i :: ShortestPath(cap, src, dst, p) && 0 <= i < |p| - 1 && l == (p[i], p[i + 1])
  }

  lemma TightIffOnShortestPath(cap: Rates, src: Node, dst: Node, dist: Distances, l: Link)
    requires Exact(cap, src, dist) && dst in dist
    ensures TightLink(cap, dist, dst, l) <==> OnShortestPath(cap, src, dst, l)
  {
    if TightLink(cap, dist, dst, l) {
      var v :| Reaches(cap, v, src, l.0) && |v| == dist[l.0] + 1;
      var w :| Reaches(cap, w, l.1, dst) && |w| - 1 + dist[l.1] == dist[dst];
      WalkConcat(cap, v, w);
      var p := v + w;
      assert Reaches(cap, p, src, dst) && |p| == dist[dst] + 1;
      assert ShortestPath(cap, src, dst, p);
      assert l == (p[|v| - 1], p[|v| - 1 + 1]);
    }
    if OnShortestPath(cap, src, dst, l) {
      var p, i :| ShortestPath(cap, src, dst, p) && 0 <= i < |p| - 1 && l == (p[i], p[i + 1]);
      var s :| Reaches(cap, s, src, dst) && |s| == dist[dst] + 1;
      assert |p| == dist[dst] + 1;
      ShortestPrefix(cap, src, dst, dist, p, i);
      ShortestPrefix(cap, src, dst, dist, p, i + 1);
      WalkSlice(cap, p, i + 1, |p|);
      assert Reaches(cap, p[i + 1..], l.1, dst);
    }
  }

  lemma ShortestPrefix(cap: Rates, src: Node, dst: Node, dist: Distances, p: seq<Node>, i: nat)
    requires Exact(cap, src, dist) && dst in dist && i < |p|
    requires Reaches(cap, p, src, dst) && |p| == dist[dst] + 1
    ensures p[i] in dist && dist[p[i]] == i
  {
    WalkSlice(cap, p, 0, i + 1);
    assert Reaches(cap, p[..i + 1], src, p[i]);
    var v :| Reaches(cap, v, src, p[i]) && |v| == dist[p[i]] + 1;
    if i + 1 < |p| {
      WalkSlice(cap, p, i + 1, |p|);
      assert (p[i], p[i + 1]) in cap;
    }
    WalkConcat(cap, v, p[i + 1..]);
    assert Reaches(cap, v + p[i + 1..], src, dst);
  }

  method ShortestLinks(cap: Rates, src: Node, dst: Node) returns (links: set<Link>)
    ensures src == dst ==> links == {}
    ensures src != dst ==> forall l :: l in links <==> OnShortestPath(cap, src, dst, l)
  {
    var adj, pred := Index(cap);
    var dist := ForwardSearch(cap, adj, src);
    if dst !in dist || src == dst {
      return {};
    }
    links := {};
    var frontier := {dst};
    ghost var k := dist[dst];
    SweepStarts(cap, src, dst, dist);
    while frontier != {}
      invariant SweepInv(cap, src, dst, dist, k, frontier, links)
      decreases k
    {
      assert k > 0 by { LevelZeroIsSrc(cap, src, dst, dist, k, frontier, links); }
      var found, step := StepBack(cap, pred, dist, frontier);
      SweepStep(cap, src, dst, dist, k, frontier, links, found, step);
      links := links + found;
      frontier := step - {src};
      k := k - 1;
    }
    forall l
      ensures l in links <==> OnShortestPath(cap, src, dst, l)
    {
      TightIffOnShortestPath(cap, src, dst, dist, l);
    }
  }

  lemma SweepStarts(cap: Rates, src: Node, dst: Node, dist: Distances)
    requires Exact(cap, src, dist) && dst in dist && src != dst
    ensures SweepInv(cap, src, dst, dist, dist[dst], {dst}, {})
  {
    assert Reaches(cap, [dst], dst, dst);
    forall b | Tight(cap, dist, dst, b)
      ensures dist[b] <= dist[dst] && (dist[b] == dist[dst] ==> b == dst)
    {
      var p :| Reaches(cap, p, b, dst) && |p| - 1 + dist[b] == dist[dst];
    }
  }

  lemma LevelZeroIsSrc(cap: Rates, src: Node, dst: Node, dist: Distances, k: nat,
                       frontier: set<Node>, links: set<Link>)
    requires Exact(cap, src, dist) && dst in dist
    requires SweepInv(cap, src, dst, dist, k, frontier, links) && frontier != {}
    ensures k > 0
  {
    var b :| b in frontier;
    var p :| Reaches(cap, p, src, b) && |p| == dist[b] + 1;
  }

  // When the demand fits every link of an unloaded graph, the computed path
  // takes only links default routing may take too.
  lemma ComputedLinksAreShortest(cap: Rates, src: Node, dst: Node, bw: real, p: seq<Node>, i: nat)
    requires forall l | l in cap :: cap[l] >= bw
    requires Pce.Canonical(Pce.Residuals(cap, map[], bw), src, dst, p)
    requires i < |p| - 1
    ensures OnShortestPath(cap, src, dst, (p[i], p[i + 1]))
  {
    Pce.CanonicalIsBest(cap, map[], src, dst, bw, p);
    var g := Pce.Residuals(cap, map[], bw);
    assert g.Keys == cap.Keys;
    forall q | Reaches(cap, q, src, dst)
      ensures |p| <= |q|
    {
      assert Reaches(g, q, src, dst);
    }
    assert ShortestPath(cap, src, dst, p);
  }
}
