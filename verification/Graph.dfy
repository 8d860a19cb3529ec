// Directed graphs, walks and the label order of the path computation.

// Node names matter only through equality and order, so a node is a number.
module Graph {
  type Node = nat
  type Link = (Node, Node)
  // A directed graph with a rate (Mbit/s) on every link.
  type Rates = map<Link, real>

  function Last(p: seq<Node>): Node
    requires p != []
  {
    p[|p| - 1]
  }

  function Front(p: seq<Node>): seq<Node>
    requires p != []
  {
    p[..|p| - 1]
  }

  ghost predicate Walk(g: Rates, p: seq<Node>) {
    p != [] && forall i | 0 <= i < |p| - 1 :: (p[i], p[i + 1]) in g
  }

  ghost predicate Reaches(g: Rates, p: seq<Node>, src: Node, dst: Node) {
    Walk(g, p) && p[0] == src && Last(p) == dst
  }

  predicate Simple(p: seq<Node>) {
    forall i, j | 0 <= i < j < |p| :: p[i] != p[j]
  }

  // The directed links of a node path.
  function LinksOf(p: seq<Node>): seq<Link> {
    if |p| < 2 then [] else [(p[0], p[1])] + LinksOf(p[1..])
  }

  lemma {:induction false} LinksOfIndex(p: seq<Node>)
    ensures |LinksOf(p)| == if p == [] then 0 else |p| - 1
    ensures forall i | 0 <= i < |LinksOf(p)| :: LinksOf(p)[i] == (p[i], p[i + 1])
  {
    if |p| >= 2 {
      LinksOfIndex(p[1..]);
    }
  }

  // ------------------------------------------------------------------
  // Labels: fewest hops first, then the widest bottleneck.
  // ------------------------------------------------------------------
  // A path of no link has no bottleneck: its width is unbounded.
  datatype Width = Unbounded | Mbps(rate: real)

  predicate AsWide(a: Width, b: Width) {
    a.Unbounded? || (b.Mbps? && a.rate >= b.rate)
  }

  function Narrow(w: Width, rate: real): Width {
    if w.Mbps? && w.rate <= rate then w else Mbps(rate)
  }

  datatype Label = Label(hops: nat, width: Width)

  predicate LabelLeq(a: Label, b: Label) {
    a.hops < b.hops || (a.hops == b.hops && AsWide(a.width, b.width))
  }

  function Extend(l: Label, rate: real): Label {
    Label(l.hops + 1, Narrow(l.width, rate))
  }

  ghost function WidthOf(g: Rates, p: seq<Node>): Width
    requires Walk(g, p)
  {
    if |p| == 1 then Unbounded
    else Narrow(WidthOf(g, Front(p)), g[(p[|p| - 2], p[|p| - 1])])
  }

  ghost function LabelOf(g: Rates, p: seq<Node>): Label
    requires Walk(g, p)
  {
    Label(|p| - 1, WidthOf(g, p))
  }

  lemma LabelOfExtension(g: Rates, p: seq<Node>, n: Node)
    requires Walk(g, p) && (Last(p), n) in g
    ensures Walk(g, p + [n])
    ensures LabelOf(g, p + [n]) == Extend(LabelOf(g, p), g[(Last(p), n)])
  {
    assert Front(p + [n]) == p;
  }

  // The bottleneck is the minimum over the links: no link is narrower, and
  // some link is as narrow.
  lemma {:induction false} WidthIsBottleneck(g: Rates, p: seq<Node>)
    requires Walk(g, p) && |p| > 1
    ensures WidthOf(g, p).Mbps?
    ensures forall i | 0 <= i < |p| - 1 :: WidthOf(g, p).rate <= g[(p[i], p[i + 1])]
    ensures exists i | 0 <= i < |p| - 1 :: WidthOf(g, p).rate == g[(p[i], p[i + 1])]
  {
    var f := Front(p);
    if |f| > 1 {
      WidthIsBottleneck(g, f);
      var i :| 0 <= i < |f| - 1 && WidthOf(g, f).rate == g[(f[i], f[i + 1])];
      assert (f[i], f[i + 1]) == (p[i], p[i + 1]);
      if WidthOf(g, p) != WidthOf(g, f) {
        assert WidthOf(g, p).rate == g[(p[|p| - 2], p[|p| - 2 + 1])];
      }
      forall i | 0 <= i < |p| - 1
        ensures WidthOf(g, p).rate <= g[(p[i], p[i + 1])]
      {
        if i < |f| - 1 {
          assert (f[i], f[i + 1]) == (p[i], p[i + 1]);
        }
      }
    } else {
      assert WidthOf(g, p).rate == g[(p[0], p[0 + 1])];
    }
  }

  // ------------------------------------------------------------------
  // Optimal walks
  // ------------------------------------------------------------------
  ghost predicate Optimal(g: Rates, src: Node, p: seq<Node>) {
    && Walk(g, p) && p[0] == src
    && forall q | Reaches(g, q, src, Last(p)) :: LabelLeq(LabelOf(g, p), LabelOf(g, q))
  }

  // Every prefix carries the best label of the node it ends at.
  ghost predicate PrefixOptimal(g: Rates, src: Node, p: seq<Node>) {
    p != [] && forall k | 1 <= k <= |p| :: Optimal(g, src, p[..k])
  }

  lemma PrefixOptimalIsOptimal(g: Rates, src: Node, p: seq<Node>)
    requires PrefixOptimal(g, src, p)
    ensures Optimal(g, src, p)
  {
    assert p[..|p|] == p;
  }

  lemma PrefixOptimalExtension(g: Rates, src: Node, p: seq<Node>, n: Node)
    requires PrefixOptimal(g, src, p) && Optimal(g, src, p + [n])
    ensures PrefixOptimal(g, src, p + [n])
  {
    var q := p + [n];
    forall k | 1 <= k <= |q|
      ensures Optimal(g, src, q[..k])
    {
      if k <= |p| {
        assert q[..k] == p[..k];
      } else {
        assert q[..k] == q;
      }
    }
  }

  lemma WalkConcat(g: Rates, p: seq<Node>, q: seq<Node>)
    requires Walk(g, p) && (q == [] || (Walk(g, q) && (Last(p), q[0]) in g))
    ensures Walk(g, p + q)
  {
    var w := p + q;
    forall i | 0 <= i < |w| - 1
      ensures (w[i], w[i + 1]) in g
    {
      if i < |p| - 1 {
      } else if i == |p| - 1 {
      } else {
        assert (w[i], w[i + 1]) == (q[i - |p|], q[i - |p| + 1]);
      }
    }
  }

  lemma WalkSlice(g: Rates, p: seq<Node>, i: nat, j: nat)
    requires Walk(g, p) && i < j <= |p|
    ensures Walk(g, p[i..j])
  {
    var w := p[i..j];
    forall k | 0 <= k < |w| - 1
      ensures (w[k], w[k + 1]) in g
    {
      assert (w[k], w[k + 1]) == (p[i + k], p[i + k + 1]);
    }
  }

  // A walk of fewest hops repeats no node: cutting the loop out would be shorter.
  lemma OptimalIsSimple(g: Rates, src: Node, p: seq<Node>)
    requires Optimal(g, src, p)
    ensures Simple(p)
  {
    forall i, j | 0 <= i < j < |p|
      ensures p[i] != p[j]
    {
      if p[i] == p[j] {
        var a, b := p[..i + 1], p[j + 1..];
        WalkSlice(g, p, 0, i + 1);
        if b != [] {
          WalkSlice(g, p, j + 1, |p|);
          assert (p[j], p[j + 1]) in g;
        }
        WalkConcat(g, a, b);
        assert Reaches(g, a + b, src, Last(p));
        assert false;
      }
    }
  }

  // Among the walks of exactly k hops that arrive through one of `via`, one is widest.
  lemma {:induction false} WidestVia(g: Rates, src: Node, dst: Node, k: nat, via: set<Node>, w0: seq<Node>)
    returns (w: seq<Node>)
    requires Reaches(g, w0, src, dst) && |w0| == k + 2 && w0[k] in via
    ensures Reaches(g, w, src, dst) && |w| == k + 2 && w[k] in via
    ensures forall q | Reaches(g, q, src, dst) && |q| == k + 2 && q[k] in via ::
              AsWide(WidthOf(g, w), WidthOf(g, q))
    decreases k, 1, |via|
  {
    var u := w0[k];
    WalkSlice(g, w0, 0, k + 1);
    var wu := WidestOfHops(g, src, u, k, Front(w0));
    assert (w0[k], w0[k + 1]) in g;
    LabelOfExtension(g, wu, dst);
    var rest := via - {u};
    w := wu + [dst];
    forall q | Reaches(g, q, src, dst) && |q| == k + 2 && q[k] == u
      ensures AsWide(WidthOf(g, w), WidthOf(g, q))
    {
      WalkSlice(g, q, 0, k + 1);
      assert Reaches(g, Front(q), src, u);
    }
    if w1 :| Reaches(g, w1, src, dst) && |w1| == k + 2 && w1[k] in rest {
      var wr := WidestVia(g, src, dst, k, rest, w1);
      if !AsWide(WidthOf(g, w), WidthOf(g, wr)) {
        w := wr;
      }
    }
  }

  // Among the walks of exactly k hops, one is widest.
  lemma {:induction false} WidestOfHops(g: Rates, src: Node, dst: Node, k: nat, w0: seq<Node>)
    returns (w: seq<Node>)
    requires Reaches(g, w0, src, dst) && |w0| == k + 1
    ensures Reaches(g, w, src, dst) && |w| == k + 1
    ensures forall q | Reaches(g, q, src, dst) && |q| == k + 1 :: AsWide(WidthOf(g, w), WidthOf(g, q))
    decreases k, 0
  {
    if k == 0 {
      w := w0;
    } else {
      var via := set l | l in g :: l.0;
      forall q | Reaches(g, q, src, dst) && |q| == k + 1
        ensures q[k - 1] in via
      {
        assert (q[k - 1], q[k - 1 + 1]) in g;
      }
      w := WidestVia(g, src, dst, k - 1, via, w0);
    }
  }

  lemma {:induction false} OptimalExists(g: Rates, src: Node, dst: Node, w0: seq<Node>) returns (w: seq<Node>)
    requires Reaches(g, w0, src, dst)
    ensures Optimal(g, src, w) && Last(w) == dst && |w| <= |w0|
    decreases |w0|
  {
    if w1 :| Reaches(g, w1, src, dst) && |w1| < |w0| {
      w := OptimalExists(g, src, dst, w1);
    } else {
      w := WidestOfHops(g, src, dst, |w0| - 1, w0);
    }
  }

  // Whatever can be reached at all is reached by a walk all of whose
  // prefixes are optimal.
  lemma {:induction false} PrefixOptimalExists(g: Rates, src: Node, dst: Node, w0: seq<Node>)
    returns (w: seq<Node>)
    requires Reaches(g, w0, src, dst)
    ensures PrefixOptimal(g, src, w) && Last(w) == dst && |w| <= |w0|
    decreases |w0|
  {
    var o := OptimalExists(g, src, dst, w0);
    if |o| == 1 {
      w := o;
      assert w[..1] == w;
    } else {
      var f := Front(o);
      var u := Last(f);
      WalkSlice(g, o, 0, |o| - 1);
      assert (o[|o| - 2], o[|o| - 2 + 1]) in g;
      var p := PrefixOptimalExists(g, src, u, f);
      PrefixOptimalIsOptimal(g, src, p);
      assert LabelLeq(LabelOf(g, p), LabelOf(g, f));
      LabelOfExtension(g, p, dst);
      w := p + [dst];
      PrefixOptimalExtension(g, src, p, dst);
    }
  }

  // ------------------------------------------------------------------
  // The order of Python lists
  // ------------------------------------------------------------------
  predicate LexLeq(a: seq<Node>, b: seq<Node>) {
    a == [] || (b != [] && (a[0] < b[0] || (a[0] == b[0] && LexLeq(a[1..], b[1..]))))
  }

  lemma {:induction false} LexTotal(a: seq<Node>, b: seq<Node>)
    ensures LexLeq(a, b) || LexLeq(b, a)
    ensures LexLeq(a, b) && LexLeq(b, a) ==> a == b
  {
    if a != [] && b != [] && a[0] == b[0] {
      LexTotal(a[1..], b[1..]);
      assert a == [a[0]] + a[1..] && b == [b[0]] + b[1..];
    }
  }

  lemma {:induction false} LexTransitive(a: seq<Node>, b: seq<Node>, c: seq<Node>)
    requires LexLeq(a, b) && LexLeq(b, c)
    ensures LexLeq(a, c)
  {
    if a != [] && b != [] && c != [] && a[0] == b[0] == c[0] {
      LexTransitive(a[1..], b[1..], c[1..]);
    }
  }
}
