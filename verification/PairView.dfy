// The VM pairs the fabric measured, gathered from its per-link entries.

module PairView {
  import opened Wrappers
  import opened Graph
  import opened TeRows
  import opened ReoptMemory

  // One measured entry; ports and hosts that could not be resolved are absent.
  datatype Flow = Flow(domain: Option<nat>, sport: Option<Port>, dport: Option<Port>,
                       shost: Option<Node>, dhost: Option<Node>, link: Link, mbps: real)

  predicate Resolved(e: Flow) {
    e.domain.Some? && e.sport.Some? && e.dport.Some? && e.shost.Some? && e.dhost.Some?
  }

  predicate Of(e: Flow, k: Pair) {
    Resolved(e) && (e.sport.value, e.dport.value) == k
  }

  // ------------------------------------------------------------------
  // What a pair's entries add up to
  // ------------------------------------------------------------------
  ghost function SumOn(view: seq<Flow>, k: Pair, l: Link): real {
    if view == [] then 0.0
    else
      var e := view[|view| - 1];
      SumOn(view[..|view| - 1], k, l) + if Of(e, k) && e.link == l then e.mbps else 0.0
  }

  // Only the last link before the destination's node carries all of a pair.
  ghost function Arriving(view: seq<Flow>, k: Pair): real {
    if view == [] then 0.0
    else
      var e := view[|view| - 1];
      Arriving(view[..|view| - 1], k) + if Of(e, k) && e.link.1 == e.dhost.value then e.mbps else 0.0
  }

  ghost predicate Known(view: seq<Flow>, k: Pair) {
    exists i :: 0 <= i < |view| && Of(view[i], k)
  }

  ghost predicate SeenOn(view: seq<Flow>, k: Pair, l: Link) {
    exists i :: 0 <= i < |view| && Of(view[i], k) && view[i].link == l
  }

  // The pair is named after its first entry.
  ghost predicate NamedByFirst(view: seq<Flow>, k: Pair, pr: PairInfo) {
    exists i :: 0 <= i < |view| && Of(view[i], k) && (forall j | 0 <= j < i :: !Of(view[j], k)) && Names(view[i], pr)
  }

  ghost predicate Names(e: Flow, pr: PairInfo)
    requires Resolved(e)
  {
    && pr.domain == e.domain.value && pr.sport == e.sport.value && pr.dport == e.dport.value
    && pr.shost == e.shost.value && pr.dhost == e.dhost.value
  }

  ghost predicate LinksGathered(view: seq<Flow>, k: Pair, pr: PairInfo) {
    NamedByFirst(view, k, pr) && SumsHeld(view, k, pr.links)
  }

  ghost predicate SumsHeld(view: seq<Flow>, k: Pair, links: Rates) {
    && (forall l :: l in links <==> SeenOn(view, k, l))
    && forall l | l in links :: links[l] == SumOn(view, k, l)
  }

  // The rate that arrives or, with no sample next to the destination, the
  // largest on any link.
  ghost predicate RateIs(view: seq<Flow>, k: Pair, pr: PairInfo) {
    if Arriving(view, k) != 0.0 then pr.rate == Arriving(view, k)
    else (exists l :: l in pr.links && pr.rate == pr.links[l]) && forall l | l in pr.links :: pr.links[l] <= pr.rate
  }

  ghost predicate Gathered(view: seq<Flow>, pairs: map<Pair, PairInfo>) {
    && (forall k :: k in pairs <==> Known(view, k))
    && forall k | k in pairs :: LinksGathered(view, k, pairs[k]) && pairs[k].rate == Arriving(view, k)
  }

  ghost predicate IsView(view: seq<Flow>, pairs: map<Pair, PairInfo>) {
    && (forall k :: k in pairs <==> Known(view, k))
    && forall k | k in pairs :: LinksGathered(view, k, pairs[k]) && RateIs(view, k, pairs[k])
  }

  function Add(pairs: map<Pair, PairInfo>, e: Flow): map<Pair, PairInfo>
    requires Resolved(e)
  {
    var k := (e.sport.value, e.dport.value);
    var pr := if k in pairs then pairs[k]
              else PairInfo(e.domain.value, k.0, k.1, e.shost.value, e.dhost.value, map[], 0.0);
    pairs[k := AddTo(pr, e)]
  }

  function AddTo(pr: PairInfo, e: Flow): PairInfo
    requires Resolved(e)
  {
    pr.(links := pr.links[e.link := RateOn(pr.links, e.link) + e.mbps],
        rate := if e.link.1 == e.dhost.value then pr.rate + e.mbps else pr.rate)
  }

  // One more entry: `more` is `view` and then e.
  ghost predicate Then(view: seq<Flow>, e: Flow, more: seq<Flow>) {
    more == view + [e]
  }

  lemma SeenStep(view: seq<Flow>, e: Flow, more: seq<Flow>, k: Pair)
    requires Then(view, e, more)
    ensures forall l :: SeenOn(more, k, l) <==> SeenOn(view, k, l) || (Of(e, k) && e.link == l)
    ensures Known(more, k) <==> Known(view, k) || Of(e, k)
    ensures !Known(view, k) ==> forall l :: !SeenOn(view, k, l)
  {
    var n := |view|;
    assert more[n] == e;
    forall l
      ensures SeenOn(more, k, l) <==> SeenOn(view, k, l) || (Of(e, k) && e.link == l)
    {
      if SeenOn(view, k, l) {
        var i :| 0 <= i < n && Of(view[i], k) && view[i].link == l;
        assert more[i] == view[i];
      }
    }
    if Known(view, k) {
      var i :| 0 <= i < n && Of(view[i], k);
      assert more[i] == view[i];
    }
  }

  lemma NamedStep(view: seq<Flow>, e: Flow, more: seq<Flow>, k: Pair, pr: PairInfo)
    requires Then(view, e, more)
    ensures NamedByFirst(view, k, pr) ==> NamedByFirst(more, k, pr)
    ensures !Known(view, k) && Of(e, k) && Names(e, pr) ==> NamedByFirst(more, k, pr)
  {
    var n := |view|;
    assert more[n] == e && forall j | 0 <= j < n :: more[j] == view[j];
    if NamedByFirst(view, k, pr) {
      var i :| 0 <= i < n && Of(view[i], k) && (forall j | 0 <= j < i :: !Of(view[j], k)) && Names(view[i], pr);
      assert Of(more[i], k);
    }
    assert !Known(view, k) ==> forall j | 0 <= j < n :: !Of(more[j], k);
  }

  lemma SumsStep(view: seq<Flow>, e: Flow, more: seq<Flow>, k: Pair)
    requires Then(view, e, more)
    ensures forall l :: SumOn(more, k, l) == SumOn(view, k, l) + if Of(e, k) && e.link == l then e.mbps else 0.0
    ensures Arriving(more, k) == Arriving(view, k) + if Of(e, k) && e.link.1 == e.dhost.value then e.mbps else 0.0
  {
    assert more[..|more| - 1] == view;
  }

  lemma {:induction false} UnseenIsZero(view: seq<Flow>, k: Pair)
    ensures forall l | !SeenOn(view, k, l) :: SumOn(view, k, l) == 0.0
    ensures !Known(view, k) ==> Arriving(view, k) == 0.0
  {
    if view != [] {
      var front, e := view[..|view| - 1], view[|view| - 1];
      assert Then(front, e, view);
      UnseenIsZero(front, k);
      SeenStep(front, e, view, k);
      SumsStep(front, e, view, k);
      hide SumOn, SeenOn, Arriving, Known;
    }
  }

  // An entry of another pair changes nothing.
  lemma GatherOther(view: seq<Flow>, e: Flow, more: seq<Flow>, k: Pair, pr: PairInfo)
    requires Then(view, e, more) && !Of(e, k)
    ensures LinksGathered(view, k, pr) ==> LinksGathered(more, k, pr)
    ensures Arriving(more, k) == Arriving(view, k)
  {
    SeenStep(view, e, more, k);
    SumsStep(view, e, more, k);
    NamedStep(view, e, more, k, pr);
    hide SumOn, SeenOn, Arriving, NamedByFirst, Then;
  }

  lemma NothingHeld(view: seq<Flow>, k: Pair)
    requires !Known(view, k)
    ensures SumsHeld(view, k, map[]) && Arriving(view, k) == 0.0
  {
    UnseenIsZero(view, k);
    assert forall l :: SeenOn(view, k, l) ==> Known(view, k);
    hide SumOn, SeenOn, Arriving;
  }

  lemma HeldStep(view: seq<Flow>, e: Flow, more: seq<Flow>, k: Pair, links: Rates)
    requires Then(view, e, more) && Of(e, k) && SumsHeld(view, k, links)
    ensures SumsHeld(more, k, links[e.link := RateOn(links, e.link) + e.mbps])
  {
    SeenStep(view, e, more, k);
    SumsStep(view, e, more, k);
    UnseenIsZero(view, k);
    hide SumOn, SeenOn, Arriving, Then, Known;
  }

  lemma GatherOwn(view: seq<Flow>, e: Flow, more: seq<Flow>, k: Pair, pairs: map<Pair, PairInfo>)
    requires Then(view, e, more) && Of(e, k)
    requires if k in pairs then LinksGathered(view, k, pairs[k]) && pairs[k].rate == Arriving(view, k)
             else !Known(view, k)
    ensures var pr := Add(pairs, e)[k];
            LinksGathered(more, k, pr) && pr.rate == Arriving(more, k)
  {
    var pr := Add(pairs, e)[k];
    SumsStep(view, e, more, k);
    NamedStep(view, e, more, k, pr);
    hide SumOn, Arriving, Known, SumsHeld, NamedByFirst, Then;
    if k in pairs {
      NamedAlike(view, k, pairs[k], pr);
      HeldStep(view, e, more, k, pairs[k].links);
    } else {
      NothingHeld(view, k);
      HeldStep(view, e, more, k, map[]);
    }
  }

  lemma AddGathers(view: seq<Flow>, e: Flow, more: seq<Flow>, pairs: map<Pair, PairInfo>)
    requires Then(view, e, more) && Gathered(view, pairs)
    ensures Gathered(more, if Resolved(e) then Add(pairs, e) else pairs)
  {
    var after := if Resolved(e) then Add(pairs, e) else pairs;
    forall k
      ensures k in after <==> Known(more, k)
      ensures k in after ==> LinksGathered(more, k, after[k]) && after[k].rate == Arriving(more, k)
    {
      hide SumOn, SeenOn, Arriving, NamedByFirst, Known, LinksGathered, Then;
      SeenStep(view, e, more, k);
      if Of(e, k) {
        GatherOwn(view, e, more, k, pairs);
      } else if k in pairs {
        GatherOther(view, e, more, k, pairs[k]);
      }
    }
  }

  lemma NamedAlike(view: seq<Flow>, k: Pair, a: PairInfo, b: PairInfo)
    requires a.domain == b.domain && a.sport == b.sport && a.dport == b.dport && a.shost == b.shost && a.dhost == b.dhost
    ensures NamedByFirst(view, k, a) ==> NamedByFirst(view, k, b)
  {
    if NamedByFirst(view, k, a) {
      var i :| 0 <= i < |view| && Of(view[i], k) && (forall j | 0 <= j < i :: !Of(view[j], k)) && Names(view[i], a);
      assert Names(view[i], b);
    }
  }

  method MaxRate(links: Rates) returns (m: real)
    requires links != map[]
    ensures (exists l :: l in links && m == links[l]) && forall l | l in links :: links[l] <= m
  {
    var first: Link :| first in links;
    m := links[first];
    var todo := links.Keys - {first};
    while todo != {}
      invariant todo <= links.Keys
      invariant exists l :: l in links && m == links[l]
      invariant forall l | l in links && l !in todo :: links[l] <= m
    {
      var l: Link :| l in todo;
      todo := todo - {l};
      if links[l] > m {
        m := links[l];
      }
    }
  }

  method Pairs(view: seq<Flow>) returns (pairs: map<Pair, PairInfo>)
    ensures IsView(view, pairs)
  {
    pairs := map[];
    hide SumOn, Arriving, NamedByFirst, LinksGathered;
    for i := 0 to |view|
      invariant Gathered(view[..i], pairs)
    {
      assert view[..i + 1] == view[..i] + [view[i]];
      AddGathers(view[..i], view[i], view[..i + 1], pairs);
      if Resolved(view[i]) {
        pairs := Add(pairs, view[i]);
      }
    }
    assert view[..|view|] == view;
    ghost var sums := pairs;
    var todo := pairs.Keys;
    while todo != {}
      invariant todo <= pairs.Keys && pairs.Keys == sums.Keys
      invariant forall k | k in todo :: pairs[k] == sums[k]
      invariant forall k | k in pairs && k !in todo :: LinksGathered(view, k, pairs[k]) && RateIs(view, k, pairs[k])
    {
      var k: Pair :| k in todo;
      todo := todo - {k};
      if pairs[k].rate == 0.0 {
        SomeLink(view, k, pairs[k]);
        var m := MaxRate(pairs[k].links);
        SameButRate(view, k, pairs[k], m);
        pairs := pairs[k := pairs[k].(rate := m)];
      }
    }
  }

  lemma SomeLink(view: seq<Flow>, k: Pair, pr: PairInfo)
    requires LinksGathered(view, k, pr)
    ensures pr.links != map[]
  {
    var i :| 0 <= i < |view| && Of(view[i], k);
    assert SeenOn(view, k, view[i].link);
  }

  lemma SameButRate(view: seq<Flow>, k: Pair, pr: PairInfo, m: real)
    requires LinksGathered(view, k, pr)
    ensures LinksGathered(view, k, pr.(rate := m))
  {
    NamedAlike(view, k, pr, pr.(rate := m));
    hide NamedByFirst, SeenOn, SumOn;
  }

  // ------------------------------------------------------------------
  // Rates are not negative
  // ------------------------------------------------------------------
  ghost predicate NoNegative(view: seq<Flow>) {
    forall e | e in view :: e.mbps >= 0.0
  }

  ghost predicate RatesNatural(pr: PairInfo) {
    pr.rate >= 0.0 && forall l | l in pr.links :: pr.links[l] >= 0.0
  }

  lemma {:induction false} SumsNatural(view: seq<Flow>, k: Pair)
    requires NoNegative(view)
    ensures Arriving(view, k) >= 0.0 && forall l :: SumOn(view, k, l) >= 0.0
  {
    if view != [] {
      SumsNatural(view[..|view| - 1], k);
    }
  }

  lemma ViewNatural(view: seq<Flow>, pairs: map<Pair, PairInfo>)
    requires NoNegative(view) && IsView(view, pairs)
    ensures forall k | k in pairs :: RatesNatural(pairs[k]) && pairs[k].sport == k.0 && pairs[k].dport == k.1
  {
    forall k | k in pairs
      ensures RatesNatural(pairs[k]) && pairs[k].sport == k.0 && pairs[k].dport == k.1
    {
      SumsNatural(view, k);
    }
  }
}
