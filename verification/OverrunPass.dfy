// A family of passes that add as many automatic paths, and as many steered VMs
// on one node, as the caps and the budget let any pass add.

module OverrunPass {
  import opened Graph
  import opened Totals
  import opened TeRows
  import opened ReoptMemory
  import opened PairView
  import opened ReoptPass
  import opened ReoptRun
  import opened ReoptCaps
  import opened Reopt
  import Pce

  // The two caps and the budget; the automatic paths stored when the moves
  // begin; of a node, the VMs that have one of them, and how many of those
  // were measured; the congested links.
  datatype Case = Case(paths: nat, rules: nat, budget: nat, stale: nat, held: nat, counted: nat, links: nat)

  predicate CaseOk(x: Case) {
    x.stale < x.paths && x.counted < x.rules && x.counted <= x.held <= x.stale && x.budget > 0 && x.links > 0
  }

  // What the two caps leave for each link, and what a pass can add at most.
  function Quota(x: Case): nat {
    Least(Spare(x.rules, x.counted), Spare(x.paths, x.stale))
  }

  function Senders(x: Case): nat {
    x.links * Quota(x)
  }

  function Most(x: Case): nat {
    Least(x.budget, Senders(x))
  }

  lemma CaseMeans(x: Case)
    requires CaseOk(x)
    ensures x.stale + Quota(x) <= x.paths && x.counted + Quota(x) <= x.rules && Quota(x) > 0
    ensures x.counted <= x.held <= x.stale && x.budget > 0 && x.links > 0
    ensures 0 < Most(x) <= x.budget && Most(x) <= Senders(x) && (Most(x) == x.budget || Most(x) == Senders(x))
  {
    var n, q := x.links, Quota(x);
    assert n * q > 0;
  }

  // ------------------------------------------------------------------
  // Which sender is on which link
  // ------------------------------------------------------------------
  // q senders on each link, in order.
  function LinkOf(i: nat, q: nat): nat
    requires q > 0
  {
    if i < q then 0 else LinkOf(i - q, q) + 1
  }

  function Offset(i: nat, q: nat): (k: nat)
    requires q > 0
    ensures k < q
  {
    if i < q then i else Offset(i - q, q)
  }

  lemma {:induction false} LinkOfNext(i: nat, q: nat)
    requires q > 0
    ensures Offset(i, q) + 1 < q ==> LinkOf(i + 1, q) == LinkOf(i, q) && Offset(i + 1, q) == Offset(i, q) + 1
    ensures Offset(i, q) + 1 == q ==> LinkOf(i + 1, q) == LinkOf(i, q) + 1 && Offset(i + 1, q) == 0
  {
    if i >= q {
      LinkOfNext(i - q, q);
    }
  }

  lemma {:induction false} LinkOfGrows(i: nat, k: nat, q: nat)
    requires q > 0 && i <= k
    ensures LinkOf(i, q) <= LinkOf(k, q)
  {
    if i >= q {
      LinkOfGrows(i - q, k - q, q);
    }
  }

  lemma {:induction false} LinkOfBelow(i: nat, n: nat, q: nat)
    requires q > 0 && i < n * q
    ensures LinkOf(i, q) < n
  {
    assert n > 0;
    if i >= q {
      assert n * q == (n - 1) * q + q;
      LinkOfBelow(i - q, n - 1, q);
    }
  }

  // ------------------------------------------------------------------
  // The fabric
  // ------------------------------------------------------------------
  // Node 0 reaches node 1 over nodes 4, 5, ..., whose links from 0 are
  // congested, and over node 3, which is empty.
  const FREE: seq<Node> := [0, 3, 1]

  function Hop(j: nat): Link {
    (0, j + 4)
  }

  ghost function Hot(n: nat): (links: set<Link>)
    ensures |links| == n && forall l :: l in links <==> l.0 == 0 && 4 <= l.1 < n + 4
  {
    if n == 0 then {} else Hot(n - 1) + {Hop(n - 1)}
  }

  ghost function Far(n: nat): (links: set<Link>)
    ensures forall l :: l in links <==> 4 <= l.0 < n + 4 && l.1 == 1
  {
    if n == 0 then {} else Far(n - 1) + {(n + 3, 1)}
  }

  lemma HopIs(j: nat, n: nat)
    ensures Hop(j) in Hot(n) <==> j < n
    ensures forall k: nat :: Hop(k) == Hop(j) <==> k == j
  {
  }

  function Size(x: Case): real {
    (4 * (Most(x) + 1)) as real
  }

  // The share of a link that is a rate of 1.
  function Large(x: Case): real {
    1.0 / Size(x)
  }

  ghost function Capacity(x: Case): Rates {
    map l | l in Hot(x.links) + Far(x.links) + {(0, 3), (3, 1)} :: Size(x)
  }

  ghost function Full(x: Case): Rates {
    map l | l in Hot(x.links) :: Size(x)
  }

  // A pair counts as large from rate 1.
  function Settings(x: Case): Conf {
    Conf(true, 0.72, 0.56, 1, 60.0, x.budget, Large(x), 0.7, 120.0, x.paths, x.rules, 30.0)
  }

  lemma SizeIs(x: Case)
    ensures Size(x) == 4.0 * (Most(x) as real + 1.0) && Size(x) >= 4.0
    ensures Size(x) - Most(x) as real > Part(0.56, Size(x)) && Size(x) > Part(0.72, Size(x))
    ensures Most(x) as real <= Part(0.7, Size(x)) && Part(Large(x), Size(x)) == 1.0
  {
  }

  lemma SettingsAre(x: Case)
    ensures var c := Settings(x);
            && c.steering && c.high == 0.72 && c.low == 0.56 && c.samples == 1 && c.holdDown == 60.0 && c.maxMoves == x.budget
            && c.minShare == Large(x) && c.fit == 0.7 && c.releaseAfter == 120.0 && c.maxPaths == x.paths && c.maxRules == x.rules
  {
    hide Large;
  }

  lemma CapacityIs(x: Case)
    ensures Capacity(x).Keys == Hot(x.links) + Far(x.links) + {(0, 3), (3, 1)}
    ensures forall l | l in Capacity(x) :: Capacity(x)[l] == Size(x)
  {
    hide Hot, Far, Size;
  }

  lemma FullIs(x: Case)
    ensures Full(x).Keys == Hot(x.links) && forall l | l in Full(x) :: Full(x)[l] == Size(x)
  {
    hide Hot, Size;
  }

  // ------------------------------------------------------------------
  // The VMs
  // ------------------------------------------------------------------
  // All but port 0 and the last two are on node 0: the senders; the sources
  // of the stored paths; and one that sends a little over every hot link. The
  // measured sources talk to one more VM on node 1, their stored paths lead
  // to a port that is gone.
  function Key(i: nat): Pair {
    (i + 1, 0)
  }

  function Stale(x: Case, id: nat): Port {
    Senders(x) + 1 + id
  }

  function Chatter(x: Case): Port {
    Senders(x) + x.stale + 1
  }

  function Listener(x: Case): Port {
    Senders(x) + x.stale + 2
  }

  function Gone(x: Case): Port {
    Senders(x) + x.stale + 3
  }

  ghost function Keys(n: nat): (keys: set<Pair>)
    ensures |keys| == n && forall k :: k in keys <==> 1 <= k.0 <= n && k.1 == 0
  {
    if n == 0 then {} else Keys(n - 1) + {Key(n - 1)}
  }

  ghost function Span(first: nat, n: nat): (ports: set<Port>)
    ensures |ports| == n && forall i :: i in ports <==> first <= i < first + n
  {
    if n == 0 then {} else Span(first, n - 1) + {first + n - 1}
  }

  ghost function CountedKeys(x: Case, n: nat): (keys: set<Pair>)
    ensures forall k :: k in keys <==> Stale(x, 0) <= k.0 < Stale(x, n) && k.1 == Listener(x)
  {
    set i | i in Span(Stale(x, 0), n) :: (i, Listener(x))
  }

  function Sender(x: Case, port: Port, rate: real): PairInfo {
    PairInfo(0, port, 0, 0, 1,
             if Quota(x) > 0 && port > 0 then map[Hop(LinkOf(port - 1, Quota(x))) := 1.0] else map[], rate)
  }

  function Counted(x: Case, port: Port): PairInfo {
    PairInfo(0, port, Listener(x), 0, 1, map[(4, 1) := 1.0], 1.0)
  }

  ghost function Little(n: nat): Rates {
    map l | l in Hot(n) :: 0.5
  }

  ghost function Chatting(x: Case, n: nat, rate: real): PairInfo {
    PairInfo(0, Chatter(x), 0, 0, 1, Little(n), rate)
  }

  ghost function SenderPairs(x: Case, n: nat, rate: real): map<Pair, PairInfo> {
    map k | k in Keys(n) :: Sender(x, k.0, rate)
  }

  ghost function CountedPairs(x: Case, n: nat): map<Pair, PairInfo> {
    map k | k in CountedKeys(x, n) :: Counted(x, k.0)
  }

  // The pairs, with the rate of a sender and of the chatter.
  ghost function PairsAt(x: Case, rate: real, little: real): map<Pair, PairInfo> {
    SenderPairs(x, Senders(x), rate) + CountedPairs(x, x.counted) + map[(Chatter(x), 0) := Chatting(x, x.links, little)]
  }

  ghost function Measured(x: Case): map<Pair, PairInfo> {
    PairsAt(x, 1.0, 0.5)
  }

  lemma PairsAre(x: Case, rate: real, little: real)
    ensures var pairs := PairsAt(x, rate, little);
            && (forall k :: k in pairs <==>
                  (1 <= k.0 <= Senders(x) && k.1 == 0)
                  || (Stale(x, 0) <= k.0 < Stale(x, x.counted) && k.1 == Listener(x)) || k == (Chatter(x), 0))
            && (forall k | k in pairs && k.0 <= Senders(x) :: pairs[k] == Sender(x, k.0, rate))
            && (forall k | k in pairs && k.1 == Listener(x) :: pairs[k] == Counted(x, k.0))
            && (Chatter(x), 0) in pairs && pairs[(Chatter(x), 0)] == Chatting(x, x.links, little)
  {
    hide Sender, Counted, Chatting, Senders;
  }

  // All of them are sent from node 0 to node 1.
  lemma SentFrom(x: Case, k: Pair)
    requires k in Measured(x)
    ensures var pr := Measured(x)[k];
            && pr.shost == 0 && pr.dhost == 1 && pr.sport == k.0 && pr.dport == k.1 && pr.domain == 0 && RatesNatural(pr)
  {
    PairsAre(x, 1.0, 0.5);
    hide PairsAt, Little, Senders, Quota, LinkOf;
    if (Chatter(x), 0) == k {
      LittleIs(x.links);
    }
  }

  lemma LittleIs(n: nat)
    ensures Little(n).Keys == Hot(n) && forall l | l in Little(n) :: Little(n)[l] == 0.5
  {
    hide Hot;
  }

  lemma SenderIs(x: Case, i: nat)
    requires CaseOk(x) && i < Senders(x)
    ensures Key(i) in Measured(x)
    ensures var pr, l := Measured(x)[Key(i)], Hop(LinkOf(i, Quota(x)));
            && pr.rate == 1.0 && pr.links == map[l := 1.0] && pr.domain == 0 && pr.dport == 0 && pr.sport == i + 1
            && l in Hot(x.links)
  {
    hide *;
    SenderLink(x, i);
    HopIs(LinkOf(i, Quota(x)), x.links);
    PairsAre(x, 1.0, 0.5);
    SenderAt(x, i);
  }

  lemma SenderLink(x: Case, i: nat)
    requires CaseOk(x) && i < Senders(x)
    ensures Quota(x) > 0 && LinkOf(i, Quota(x)) < x.links
  {
    CaseMeans(x);
    hide Quota, LinkOf, Least, Spare;
    LinkOfBelow(i, x.links, Quota(x));
  }

  lemma SenderAt(x: Case, i: nat)
    requires Quota(x) > 0 && i < Senders(x)
    ensures Key(i) == (i + 1, 0) && 1 <= i + 1 <= Senders(x)
    ensures var pr := Sender(x, i + 1, 1.0);
            && pr.rate == 1.0 && pr.links == map[Hop(LinkOf(i, Quota(x))) := 1.0]
            && pr.domain == 0 && pr.dport == 0 && pr.sport == i + 1
    ensures Measured(x) == PairsAt(x, 1.0, 0.5)
  {
    hide Quota, Senders, LinkOf, Hop, PairsAt;
  }

  // ------------------------------------------------------------------
  // The pass
  // ------------------------------------------------------------------
  function Row(x: Case, id: PathId): TePath {
    if id < x.stale then TePath(id, 0, ToPort(Gone(x)), FromPort(Stale(x, id)), [], true)
    else TePath(id, 0, ToPort(0), FromPort(id - x.stale + 1), [3], true)
  }

  ghost function Rows(x: Case, n: nat): map<PathId, TePath> {
    map id | id in Span(0, x.stale + n) :: Row(x, id)
  }

  ghost function OnNode(ports: set<Port>): map<Port, Node> {
    map i | i in ports :: 0
  }

  ghost function Sources(x: Case): set<Port> {
    Span(1, Senders(x)) + Span(Stale(x, 0), x.counted) + {Chatter(x)}
  }

  ghost function TightPass(x: Case): Pass {
    Pass(0.0, Measured(x), OnNode(Sources(x)), OnNode(Span(Stale(x, 0), x.held)), Rows(x, 0), Full(x), Full(x), {},
         map l | l in Hot(x.links) :: 0.0)
  }

  lemma TightIs(x: Case)
    ensures var p := TightPass(x);
            && p.now == 0.0 && p.pairs == Measured(x) && p.paths == Rows(x, 0) && p.measured == p.congested == Full(x)
            && p.dead == {} && p.since.Keys == Hot(x.links) && (forall l | l in p.since :: p.since[l] == 0.0)
            && p.hosts == OnNode(Sources(x)) && p.bound == OnNode(Span(Stale(x, 0), x.held))
  {
    hide Measured, Rows, Hot, Full, OnNode, Sources, Span;
  }

  lemma OnNodeIs(ports: set<Port>)
    ensures OnNode(ports).Keys == ports && forall i | i in ports :: OnNode(ports)[i] == 0
  {
  }

  lemma HostsHere(x: Case)
    ensures HostsAre(Measured(x), OnNode(Sources(x)))
  {
    hide *;
    var pairs, hosts := Measured(x), OnNode(Sources(x));
    OnNodeIs(Sources(x));
    forall i: Port | i in hosts
      ensures exists k :: k in pairs && pairs[k].sport == i && pairs[k].shost == hosts[i]
    {
      var k := KeyFrom(x, i);
      SentFrom(x, k);
    }
    forall k | k in pairs
      ensures pairs[k].sport in hosts
    {
      SentFrom(x, k);
      FromKey(x, k);
    }
    HostsIf(pairs, hosts);
  }

  lemma KeyFrom(x: Case, i: Port) returns (k: Pair)
    requires i in Sources(x)
    ensures k in Measured(x) && k.0 == i
  {
    PairsAre(x, 1.0, 0.5);
    hide PairsAt, Senders;
    k := (i, if Stale(x, 0) <= i < Stale(x, x.counted) then Listener(x) else 0);
  }

  lemma FromKey(x: Case, k: Pair)
    requires k in Measured(x)
    ensures k.0 in Sources(x)
  {
    PairsAre(x, 1.0, 0.5);
    hide PairsAt, Senders;
  }

  lemma HostsIf(pairs: map<Pair, PairInfo>, hosts: map<Port, Node>)
    requires forall i: Port | i in hosts :: exists k :: k in pairs && pairs[k].sport == i && pairs[k].shost == hosts[i]
    requires forall k | k in pairs :: pairs[k].sport in hosts
    ensures HostsAre(pairs, hosts)
  {
  }

  lemma TightIsOk(x: Case)
    ensures PassOk(Capacity(x), TightPass(x)) && OnePlace(TightPass(x), 0)
  {
    hide *;
    var p := TightPass(x);
    TightIs(x);
    FullIs(x);
    HostsHere(x);
    TightHeat(x);
    forall k | k in p.pairs
      ensures RatesNatural(p.pairs[k]) && p.pairs[k].sport == k.0 && p.pairs[k].dport == k.1 && p.pairs[k].shost == 0
    {
      SentFrom(x, k);
    }
    PassIsOk(Capacity(x), p);
    AllOnNode(p);
  }

  lemma TightHeat(x: Case)
    ensures HeatOk(Capacity(x), Full(x))
  {
    CapacityIs(x);
    FullIs(x);
    SizeIs(x);
    hide Capacity, Full, Size, Hot, Far;
  }

  lemma AllOnNode(p: Pass)
    requires forall k | k in p.pairs :: p.pairs[k].shost == 0
    ensures OnePlace(p, 0)
  {
  }

  // ------------------------------------------------------------------
  // The free path is the chosen one
  // ------------------------------------------------------------------
  // Of what is left, only the free path leads on from node 0.
  ghost predicate OnlyFreeLeft(g: Rates) {
    && (0, 3) in g && (3, 1) in g
    && forall l | l in g :: l.0 != 1 && (l.0 == 0 ==> l.1 == 3) && (l.0 == 3 ==> l.1 == 1)
  }

  lemma OneWay(g: Rates, q: seq<Node>)
    requires OnlyFreeLeft(g) && Walk(g, q) && q[0] == 0
    ensures q == [0] || q == [0, 3] || q == FREE
  {
    assert |q| > 0;
    hide Walk;
    if |q| > 1 {
      OneStep(g, q, 0);
    }
    if |q| > 2 {
      OneStep(g, q, 1);
    }
    if |q| > 3 {
      OneStep(g, q, 2);
    }
  }

  lemma OneStep(g: Rates, q: seq<Node>, i: nat)
    requires OnlyFreeLeft(g) && Walk(g, q) && i + 1 < |q|
    ensures q[i] != 1 && (q[i] == 0 ==> q[i + 1] == 3) && (q[i] == 3 ==> q[i + 1] == 1)
  {
    assert (q[i], q[i + 1]) in g;
  }

  lemma FreeIsCanonical(g: Rates)
    requires OnlyFreeLeft(g)
    ensures Pce.Canonical(g, 0, 1, FREE)
  {
    assert Walk(g, FREE) && Walk(g, [0, 3]) && Walk(g, [0]);
    forall p | p in {[0], [0, 3], FREE}
      ensures Optimal(g, 0, p)
    {
      forall q | Reaches(g, q, 0, Last(p))
        ensures LabelLeq(LabelOf(g, p), LabelOf(g, q))
      {
        OneWay(g, q);
      }
    }
    assert FREE[..1] == [0] && FREE[..2] == [0, 3] && FREE[..3] == FREE;
    assert PrefixOptimal(g, 0, FREE);
    forall q | PrefixOptimal(g, 0, q) && Last(q) == 1
      ensures LexLeq(FREE, q)
    {
      LexTotal(FREE, FREE);
      PrefixOptimalIsOptimal(g, 0, q);
      OneWay(g, q);
    }
  }

  // Reserving a pair on the free path takes its rate there and nowhere else.
  ghost predicate OnlyFree(pending: Pendings) {
    forall k | k in pending :: pending[k].links == OnPath(FREE, 1.0)
  }

  lemma FreeLinks()
    ensures LinksOf(FREE) == [(0, 3), (3, 1)]
    ensures forall l: Link :: RateOn(OnPath(FREE, 1.0), l) == if l == (0, 3) || l == (3, 1) then 1.0 else 0.0
  {
    assert LinksOf([3, 1]) == [(3, 1)];
    assert FREE[1..] == [3, 1];
    assert LinksOf(FREE) == [(0, 3)] + LinksOf(FREE[1..]);
  }

  lemma {:induction false} TotalOfSame<K(!new)>(m: map<K, real>, v: real)
    requires v == 0.0 || v == 1.0
    requires forall k | k in m :: m[k] == v
    ensures Total(m) == if v == 0.0 then 0.0 else |m| as real
    decreases m.Keys
  {
    if m != map[] {
      var k :| k in m && Total(m) == m[k] + Total(m - {k});
      assert |m - {k}| == |m| - 1 by {
        assert (m - {k}).Keys == m.Keys - {k};
      }
      TotalOfSame(m - {k}, v);
    }
  }

  lemma ReservedFree(pending: Pendings, l: Link)
    requires OnlyFree(pending)
    ensures ReservedOn(pending, l) == if l == (0, 3) || l == (3, 1) then |pending| as real else 0.0
  {
    FreeLinks();
    var shares := Shares(pending, l);
    assert shares.Keys == pending.Keys;
    assert |shares| == |shares.Keys| == |pending.Keys| == |pending|;
    TotalOfSame(shares, if l == (0, 3) || l == (3, 1) then 1.0 else 0.0);
  }

  // What is in use with n pairs reserved on the free path.
  ghost function InUse(x: Case, own: Rates, n: nat): Rates {
    map l | l in Hot(x.links) + {(0, 3), (3, 1)} ::
      Base(Full(x), own, l) + if l == (0, 3) || l == (3, 1) then n as real else 0.0
  }

  lemma InUseIs(x: Case, own: Rates, n: nat, l: Link)
    ensures Pce.Held(InUse(x, own, n), l) == Base(Full(x), own, l) + if l == (0, 3) || l == (3, 1) then n as real else 0.0
    ensures l == (0, 3) || l == (3, 1) ==> Pce.Held(InUse(x, own, n), l) == n as real
  {
    FullIs(x);
    hide Full, Hot, Size;
  }

  lemma FreeIsUsed(x: Case, own: Rates, k: Pair, pending: Pendings)
    requires k !in pending && OnlyFree(pending)
    ensures UsedIs(InUse(x, own, |pending|), Full(x), own, pending, k)
  {
    hide InUse, OnlyFree, ReservedOn, Pce.Held, Base, Full;
    assert pending - {k} == pending;
    forall l: Link
      ensures Pce.Held(InUse(x, own, |pending|), l) == Base(Full(x), own, l) + ReservedOn(pending - {k}, l)
    {
      ReservedFree(pending, l);
      InUseIs(x, own, |pending|, l);
    }
  }

  lemma FreeIsChosen(x: Case, i: nat, pending: Pendings)
    requires CaseOk(x) && i < Senders(x) && Key(i) in Measured(x) && Key(i) !in pending && OnlyFree(pending)
    requires |pending| < Most(x)
    ensures Key(i) in TightPass(x).pairs && Chosen(Settings(x), Capacity(x), TightPass(x), Key(i), pending, FREE)
  {
    hide *;
    var p, k := TightPass(x), Key(i);
    TightIs(x);
    SenderIs(x, i);
    SentFrom(x, k);
    var used := InUse(x, p.pairs[k].links, |pending|);
    FreeIsUsed(x, p.pairs[k].links, k, pending);
    FreeIsBest(x, p, p.pairs[k], |pending|);
    FreeFits(x, p.pairs[k].links, |pending|);
    ChosenIf(Settings(x), Capacity(x), p, k, pending, used, FREE);
  }

  lemma FreeIsBest(x: Case, p: Pass, pr: PairInfo, n: nat)
    requires n < Most(x) && p == TightPass(x) && pr.rate == 1.0 && pr.shost == 0 && pr.dhost == 1
    ensures IsBest(Capacity(x), p, pr, InUse(x, pr.links, n), FREE)
  {
    hide *;
    var used, cap := InUse(x, pr.links, n), Usable(Capacity(x), Avoid(p));
    WhatIsLeft(x, p, cap);
    RoomOnFree(x, pr.links, n);
    FreeRemains(cap, used, Size(x));
    FreeIsCanonical(Pce.Residuals(cap, used, 1.0));
    BestIs(Capacity(x), p, pr, used, cap, FREE);
  }

  lemma WhatIsLeft(x: Case, p: Pass, cap: Rates)
    requires p == TightPass(x) && cap == Usable(Capacity(x), Avoid(p))
    ensures (0, 3) in cap && cap[(0, 3)] == Size(x) && (3, 1) in cap && cap[(3, 1)] == Size(x) && OnlyFreeLeft(cap)
  {
    AvoidsHot(x);
    CapacityIs(x);
    hide TightPass, Capacity, Size, Hot, Far, Avoid;
  }

  lemma AvoidsHot(x: Case)
    ensures Avoid(TightPass(x)) == Hot(x.links)
  {
    TightIs(x);
    FullIs(x);
    hide TightPass, Full, Hot;
  }

  lemma RoomOnFree(x: Case, own: Rates, n: nat)
    requires n < Most(x)
    ensures forall l | l == (0, 3) || l == (3, 1) ::
              Pce.Held(InUse(x, own, n), l) == n as real && Size(x) - n as real >= 1.0 && n as real + 1.0 <= Part(0.7, Size(x))
  {
    InUseIs(x, own, n, (0, 3));
    InUseIs(x, own, n, (3, 1));
    SizeIs(x);
    hide InUse, Size, Pce.Held, Most;
  }

  lemma FreeRemains(cap: Rates, used: Rates, size: real)
    requires (0, 3) in cap && cap[(0, 3)] == size && (3, 1) in cap && cap[(3, 1)] == size && OnlyFreeLeft(cap)
    requires size - Pce.Held(used, (0, 3)) >= 1.0 && size - Pce.Held(used, (3, 1)) >= 1.0
    ensures OnlyFreeLeft(Pce.Residuals(cap, used, 1.0))
  {
    hide Pce.Held;
  }

  lemma FreeFits(x: Case, own: Rates, n: nat)
    requires n < Most(x)
    ensures Fits(Settings(x), Capacity(x), InUse(x, own, n), 1.0, FREE)
  {
    CapacityIs(x);
    RoomOnFree(x, own, n);
    SettingsAre(x);
    FreeLinks();
    hide Capacity, Size, Hot, Far, InUse, Pce.Held, LinksOf, Settings, Part;
  }

  // ------------------------------------------------------------------
  // The state with the first n senders placed
  // ------------------------------------------------------------------
  ghost predicate WorldIs(x: Case, w: World, n: nat) {
    && w.m.moved.Keys == Keys(n) == w.m.pending.Keys && OnlyFree(w.m.pending) && w.paths == Rows(x, n)
  }

  lemma WorldParts(x: Case, w: World, n: nat)
    requires WorldIs(x, w, n)
    ensures w.paths == Rows(x, n) && OnlyFree(w.m.pending) && |w.m.pending| == n
    ensures Key(n) !in w.m.pending && forall t: Time :: !HeldDown(w.m.moved, Key(n), t)
  {
    hide OnlyFree, Rows;
    assert |w.m.pending| == |w.m.pending.Keys|;
  }

  ghost function Placing(x: Case, n: nat, w: World): Step
    requires CaseOk(x) && n < Senders(x) && Key(n) in TightPass(x).pairs
  {
    var row := Row(x, x.stale + n);
    Try(Hop(LinkOf(n, Quota(x))), Key(n), Stored(FREE, row), w,
        World(Remembered(TightPass(x), w.m, Key(n), FREE, row.id), w.paths[row.id := row], w.refused))
  }

  lemma PlacingParts(x: Case, n: nat, w: World)
    requires CaseOk(x) && n < Senders(x) && Key(n) in TightPass(x).pairs
    ensures var s, row := Placing(x, n, w), Row(x, x.stale + n);
            && s.Try? && Quota(x) > 0 && s.link == Hop(LinkOf(n, Quota(x))) && s.pair == Key(n)
            && s.outcome == Stored(FREE, row) && s.before == w
            && s.after == World(Remembered(TightPass(x), w.m, Key(n), FREE, row.id), w.paths[row.id := row], w.refused)
            && IsStored(s) && (IsBirth(s) <==> row.id !in w.paths)
  {
    hide Row, Remembered, FREE, TightPass, LinkOf, Hop, Key, Quota;
  }

  lemma RowsAre(x: Case, n: nat)
    ensures forall id: PathId :: id in Rows(x, n) <==> id < x.stale + n
    ensures forall id | id in Rows(x, n) :: Rows(x, n)[id] == Row(x, id)
  {
    hide Row;
    assert Rows(x, n).Keys == Span(0, x.stale + n);
  }

  lemma MoreRows(x: Case, n: nat)
    ensures Row(x, x.stale + n).id == x.stale + n && x.stale + n !in Rows(x, n)
    ensures Rows(x, n)[x.stale + n := Row(x, x.stale + n)] == Rows(x, n + 1)
  {
    RowsAre(x, n);
    RowsAre(x, n + 1);
    assert Row(x, x.stale + n).id == x.stale + n;
    hide Rows, Row;
  }

  lemma PlacedRow(x: Case, n: nat, pr: PairInfo, paths: map<PathId, TePath>)
    requires paths == Rows(x, n) && pr.domain == 0 && pr.dport == 0 && pr.sport == n + 1 && n < Senders(x)
    ensures RowFor(pr, Key(n), FREE, paths, false, Row(x, x.stale + n))
  {
    RowsAre(x, n);
    hide Rows, Senders;
    assert Via(FREE) == [3];
  }

  lemma PlacedWorld(x: Case, n: nat, w: World)
    requires CaseOk(x) && WorldIs(x, w, n) && n < Senders(x) && Key(n) in TightPass(x).pairs
    ensures WorldIs(x, Placing(x, n, w).after, n + 1) && IsBirth(Placing(x, n, w))
  {
    hide *;
    var after := Placing(x, n, w).after;
    WorldParts(x, w, n);
    PlacingParts(x, n, w);
    TightIs(x);
    SenderIs(x, n);
    MoreRows(x, n);
    RememberedIs(TightPass(x), w.m, Key(n), FREE, Row(x, x.stale + n).id);
    MorePlaced(x, w, after, n);
  }

  lemma MorePlaced(x: Case, w: World, after: World, n: nat)
    requires WorldIs(x, w, n) && after.paths == Rows(x, n + 1)
    requires after.m.moved == w.m.moved[Key(n) := 0.0]
    requires after.m.pending == w.m.pending[Key(n) := Reservation(0.0, OnPath(FREE, 1.0))]
    ensures WorldIs(x, after, n + 1)
  {
    hide *;
    WorldOpens(x, w, n);
    WorldOpens(x, after, n + 1);
    KeysGrow(n);
    KeysWith(w.m.moved, Key(n), 0.0);
    KeysWith(w.m.pending, Key(n), Reservation(0.0, OnPath(FREE, 1.0)));
    AlsoFree(w.m.pending, Key(n));
  }

  lemma WorldOpens(x: Case, w: World, n: nat)
    ensures WorldIs(x, w, n) <==>
            w.m.moved.Keys == Keys(n) && w.m.pending.Keys == Keys(n) && OnlyFree(w.m.pending) && w.paths == Rows(x, n)
  {
    hide Keys, OnlyFree, Rows;
  }

  lemma KeysGrow(n: nat)
    ensures Keys(n + 1) == Keys(n) + {Key(n)}
  {
  }

  lemma KeysWith<K, V>(m: map<K, V>, k: K, v: V)
    ensures m[k := v].Keys == m.Keys + {k}
  {
  }

  lemma AlsoFree(pending: Pendings, k: Pair)
    requires OnlyFree(pending)
    ensures OnlyFree(pending[k := Reservation(0.0, OnPath(FREE, 1.0))])
  {
    hide OnPath;
  }

  // ------------------------------------------------------------------
  // The paths stored already
  // ------------------------------------------------------------------
  ghost function StalePairs(x: Case, n: nat): (pairs: set<Pair>)
    ensures |pairs| == n && forall k :: k in pairs <==> Stale(x, 0) <= k.0 < Stale(x, n) && k.1 == Gone(x)
  {
    if n == 0 then {} else StalePairs(x, n - 1) + {(Stale(x, n - 1), Gone(x))}
  }

  lemma StaleAre(x: Case)
    ensures AutoPairs(Rows(x, 0).Values) == StalePairs(x, x.stale)
  {
    var rows, pairs := Rows(x, 0), StalePairs(x, x.stale);
    RowsAre(x, 0);
    hide Rows, StalePairs, Senders;
    forall k | k in pairs
      ensures k in AutoPairs(rows.Values)
    {
      var id: PathId := k.0 - Stale(x, 0);
      assert rows[id] == Row(x, id) && rows[id] in rows.Values;
      assert IsAuto(rows[id]) && PairOf(rows[id]) == k;
    }
    forall k | k in AutoPairs(rows.Values)
      ensures k in pairs
    {
      var q :| q in rows.Values && IsAuto(q) && PairOf(q) == k;
      var id :| id in rows && rows[id] == q;
    }
  }

  lemma StaleVms(x: Case)
    requires CaseOk(x)
    ensures SteeredOn(StalePairs(x, x.stale), TightPass(x).hosts, 0) == Span(Stale(x, 0), x.counted)
    ensures VmsOn(TightPass(x), StalePairs(x, x.stale), 0) == Span(Stale(x, 0), x.held)
  {
    hide *;
    var p := TightPass(x);
    TightIs(x);
    SpansNest(x);
    OnNodeIs(Sources(x));
    OnNodeIs(Span(Stale(x, 0), x.held));
    SourcesAmong(x);
    HomesAre(p);
    VmsAmong(x, p.hosts, Span(Stale(x, 0), x.counted));
    VmsAmong(x, Homes(p), Span(Stale(x, 0), x.held));
    VmsOnIs(p, StalePairs(x, x.stale), 0);
  }

  lemma VmsOnIs(p: Pass, pairs: set<Pair>, h: Node)
    ensures VmsOn(p, pairs, h) == SteeredOn(pairs, Homes(p), h)
  {
  }

  lemma HomesAre(p: Pass)
    requires (forall i | i in p.hosts :: p.hosts[i] == 0) && forall i | i in p.bound :: p.bound[i] == 0
    ensures Homes(p).Keys == p.bound.Keys + p.hosts.Keys && forall i | i in Homes(p) :: Homes(p)[i] == 0
  {
  }

  lemma SpansNest(x: Case)
    requires CaseOk(x)
    ensures Span(Stale(x, 0), x.counted) <= Span(Stale(x, 0), x.held) <= Span(Stale(x, 0), x.stale)
  {
    hide Senders, Span, Quota, Spare, Least;
  }

  // Of the VMs with stored paths, those the map knows.
  lemma VmsAmong(x: Case, hosts: map<Port, Node>, known: set<Port>)
    requires (forall i | i in hosts :: hosts[i] == 0) && known <= Span(Stale(x, 0), x.stale)
    requires forall i | i in Span(Stale(x, 0), x.stale) :: i in hosts <==> i in known
    ensures SteeredOn(StalePairs(x, x.stale), hosts, 0) == known
  {
    hide Senders, Span, StalePairs;
    forall i | i in known
      ensures i in SteeredOn(StalePairs(x, x.stale), hosts, 0)
    {
      assert (i, Gone(x)) in StalePairs(x, x.stale);
    }
  }

  lemma SourcesAmong(x: Case)
    ensures forall i | i in Span(Stale(x, 0), x.stale) :: i in Sources(x) <==> i in Span(Stale(x, 0), x.counted)
    ensures forall i :: i in Span(1, Senders(x)) ==> i in Sources(x)
  {
    hide Senders, Span;
  }

  // ------------------------------------------------------------------
  // The run
  // ------------------------------------------------------------------
  // The first n senders tried, each at its link, and placed.
  ghost predicate At(x: Case, start: World, run: seq<Step>, n: nat) {
    && start.paths == Rows(x, 0) && Tries(Settings(x), Capacity(x), TightPass(x), 0, start, run)
    && WorldIs(x, EndOf(start, run), n) && Moves(run) == n && Births(run) == n && StoredIn(run) == Keys(n)
    && TriedIs(x, run, n) && BirthsAre(x, run, n) && LoadsAre(x, run, n)
  }

  ghost predicate TriedIs(x: Case, run: seq<Step>, n: nat) {
    && Quota(x) > 0
    && (forall i: nat | i < n :: TriedAt(run, Hop(LinkOf(i, Quota(x))), Key(i)))
    && forall l, k :: TriedAt(run, l, k) ==> k in Keys(n)
  }

  ghost predicate BirthsAre(x: Case, run: seq<Step>, n: nat) {
    && Quota(x) > 0
    && BirthsAt(run, Hop(LinkOf(n, Quota(x)))) == Offset(n, Quota(x))
    && forall j: nat | j > LinkOf(n, Quota(x)) :: BirthsAt(run, Hop(j)) == 0
  }

  ghost predicate LoadsAre(x: Case, run: seq<Step>, n: nat) {
    forall l | l in Hot(x.links) :: Load(Capacity(x), TightPass(x), run, l) >= Size(x) - n as real
  }

  lemma AtOpens(x: Case, start: World, run: seq<Step>, n: nat)
    ensures At(x, start, run, n) <==>
            && start.paths == Rows(x, 0) && Tries(Settings(x), Capacity(x), TightPass(x), 0, start, run)
            && WorldIs(x, EndOf(start, run), n) && Moves(run) == n && Births(run) == n && StoredIn(run) == Keys(n)
            && TriedIs(x, run, n) && BirthsAre(x, run, n) && LoadsAre(x, run, n)
  {
    hide Rows, Tries, Settings, Capacity, TightPass, WorldIs, Moves, Births, StoredIn, Keys, TriedIs, BirthsAre, LoadsAre;
  }

  // ------------------------------------------------------------------
  // Room under both caps
  // ------------------------------------------------------------------
  lemma RoomIs(x: Case, start: World, run: seq<Step>, n: nat)
    requires CaseOk(x) && At(x, start, run, n) && n < Most(x) && Key(n) in TightPass(x).pairs && Quota(x) > 0
    ensures var autos := AutosAt(TightPass(x), run, Hop(LinkOf(n, Quota(x))));
            Key(n) !in autos && RoomForAnother(Settings(x), TightPass(x).pairs[Key(n)], autos, TightPass(x).hosts)
  {
    hide *;
    var p, l := TightPass(x), Hop(LinkOf(n, Quota(x)));
    AtOpens(x, start, run, n);
    CaseMeans(x);
    TightIs(x);
    TightIsOk(x);
    StaleAre(x);
    StaleVms(x);
    SentFrom(x, Key(n));
    SettingsAre(x);
    AutosCount(Settings(x), Capacity(x), p, 0, start, run, l);
    AutosAtIs(p, run, l);
    NotYet(x, run, l, n);
    BirthsMean(x, run, n);
    var stale, stored := StalePairs(x, x.stale), StoredAt(run, l);
    CountedAre(x, p.hosts, stale, stored);
    RoomIf(Settings(x), p.pairs[Key(n)], stale + stored, p.hosts);
  }

  lemma BirthsMean(x: Case, run: seq<Step>, n: nat)
    requires BirthsAre(x, run, n)
    ensures Quota(x) > 0 && BirthsAt(run, Hop(LinkOf(n, Quota(x)))) == Offset(n, Quota(x)) < Quota(x)
  {
    hide LinkOf, Quota, BirthsAt, Hop;
  }

  lemma NotYet(x: Case, run: seq<Step>, l: Link, n: nat)
    requires StoredIn(run) == Keys(n) && n < Senders(x)
    ensures Key(n) !in StoredAt(run, l) && Key(n) !in StalePairs(x, x.stale)
  {
    forall k | k in StoredAt(run, l)
      ensures k in StoredIn(run)
    {
    }
    hide StoredAt, StoredIn;
  }

  lemma CountedAre(x: Case, hosts: map<Port, Node>, stale: set<Pair>, stored: set<Pair>)
    ensures |SteeredOn(stale + stored, hosts, 0)| <= |SteeredOn(stale, hosts, 0)| + |stale + stored| - |stale|
  {
    var more := stale + stored - stale;
    assert stale + stored == stale + more;
    SteeredBoth(stale, more, hosts, 0);
    CountBoth(SteeredOn(stale, hosts, 0), SteeredOn(more, hosts, 0));
    CountSources(more, hosts, 0);
    CountApart(stale, stale + stored);
  }

  lemma RoomIf(conf: Conf, pr: PairInfo, autos: set<Pair>, hosts: map<Port, Node>)
    requires |autos| < conf.maxPaths && |SteeredOn(autos, hosts, pr.shost)| < conf.maxRules
    ensures RoomForAnother(conf, pr, autos, hosts)
  {
    hide SteeredOn;
  }

  // ------------------------------------------------------------------
  // One try
  // ------------------------------------------------------------------
  // The candidates of a hot link are its senders; the chatter sends too little.
  lemma CandidatesAre(x: Case, j: nat, k: Pair)
    requires CaseOk(x) && j < x.links && Quota(x) > 0
    ensures k in Candidates(Settings(x), Capacity(x), TightPass(x), Hop(j)) <==>
            exists i: nat :: i < Senders(x) && k == Key(i) && LinkOf(i, Quota(x)) == j
    ensures (Chatter(x), 0) in PairsOn(TightPass(x).pairs, Hop(j))
  {
    hide *;
    var p, l := TightPass(x), Hop(j);
    TightIs(x);
    CapacityIs(x);
    HopIs(j, x.links);
    SizeIs(x);
    SettingsAre(x);
    NoUserPaths(x);
    CandidateIf(Settings(x), Capacity(x), p, l, k);
    ChatterIs(x, l);
    PairsOnIs(p.pairs, l, (Chatter(x), 0));
    PairsOnIs(p.pairs, l, k);
    if k in p.pairs && l in p.pairs[k].links && p.pairs[k].links[l] >= 1.0 {
      var i := SenderOn(x, l, k);
      SenderIs(x, i);
      HopIs(j, x.links);
    }
    if i: nat :| i < Senders(x) && k == Key(i) && LinkOf(i, Quota(x)) == j {
      SenderIs(x, i);
    }
  }

  lemma PairsOnIs(pairs: map<Pair, PairInfo>, l: Link, k: Pair)
    ensures k in PairsOn(pairs, l) <==> k in pairs && l in pairs[k].links
  {
  }

  lemma CandidateIf(conf: Conf, capacity: Rates, p: Pass, l: Link, k: Pair)
    requires l in capacity && Part(conf.minShare, capacity[l]) == 1.0 && forall q | q in p.paths.Values :: q.auto
    ensures k in Candidates(conf, capacity, p, l) <==> k in p.pairs && l in p.pairs[k].links && p.pairs[k].links[l] >= 1.0
  {
    hide Part;
    if k in p.pairs {
      assert !IsCovered(p.paths.Values, p.pairs[k]);
    }
    hide IsCovered;
  }

  lemma NoUserPaths(x: Case)
    ensures forall q | q in Rows(x, 0).Values :: q.auto
  {
    RowsAre(x, 0);
    hide Rows;
  }

  lemma ChatterIs(x: Case, l: Link)
    ensures (Chatter(x), 0) in Measured(x)
    ensures var links := Measured(x)[(Chatter(x), 0)].links; (l in links <==> l in Hot(x.links)) && (l in links ==> links[l] == 0.5)
  {
    PairsAre(x, 1.0, 0.5);
    LittleIs(x.links);
    hide PairsAt, Hot, Little, Senders;
  }

  lemma SenderOn(x: Case, l: Link, k: Pair) returns (i: nat)
    requires CaseOk(x) && k in Measured(x) && l in Hot(x.links) && l in Measured(x)[k].links && Measured(x)[k].links[l] >= 1.0
    ensures i < Senders(x) && k == Key(i)
  {
    PairsAre(x, 1.0, 0.5);
    ChatterIs(x, l);
    hide PairsAt, Senders, Quota, LinkOf, Hop;
    i := k.0 - 1;
  }

  lemma NextIs(x: Case, run: seq<Step>, n: nat)
    requires CaseOk(x) && TriedIs(x, run, n) && n < Senders(x) && Quota(x) > 0
    ensures IsNext(Settings(x), Capacity(x), TightPass(x), run, Hop(LinkOf(n, Quota(x))), Key(n))
  {
    hide *;
    var c, cap, p, j := Settings(x), Capacity(x), TightPass(x), LinkOf(n, Quota(x));
    TightIs(x);
    SenderIs(x, n);
    HopIs(j, x.links);
    CandidatesAre(x, j, Key(n));
    forall m | m in p.congested && m != Hop(j) && HotterFirst(cap, p.congested, m, Hop(j))
      ensures LinkLeft(c, cap, p, run, m)
    {
      var i := HotterIs(x, m, j);
      LeftBefore(x, run, n, i);
    }
    NotTriedYet(x, run, Hop(j), n);
    forall k | k in Candidates(c, cap, p, Hop(j)) && k in p.pairs && k != Key(n) && Ahead(p.pairs, k, Key(n))
      ensures TriedAt(run, Hop(j), k)
    {
      CandidatesAre(x, j, k);
      var i: nat :| i < Senders(x) && k == Key(i) && LinkOf(i, Quota(x)) == j;
      SenderIs(x, i);
      AheadIs(p.pairs, i, n);
      TriedBefore(x, run, n, i);
    }
    forall k | k in Candidates(c, cap, p, Hop(j))
      ensures k in p.pairs
    {
      CandidatesAre(x, j, k);
      var i: nat :| i < Senders(x) && k == Key(i) && LinkOf(i, Quota(x)) == j;
      SenderIs(x, i);
    }
    NextFrom(c, cap, p, run, Hop(j), Key(n));
  }

  lemma NotTriedYet(x: Case, run: seq<Step>, l: Link, n: nat)
    requires TriedIs(x, run, n)
    ensures !TriedAt(run, l, Key(n))
  {
    hide LinkOf, Quota, TriedAt, Hop;
  }

  lemma TriedBefore(x: Case, run: seq<Step>, n: nat, i: nat)
    requires TriedIs(x, run, n) && i < n && Quota(x) > 0
    ensures TriedAt(run, Hop(LinkOf(i, Quota(x))), Key(i))
  {
    hide LinkOf, Quota, TriedAt, Hop, Key;
  }

  lemma AheadIs(pairs: map<Pair, PairInfo>, i: nat, n: nat)
    requires Key(i) in pairs && Key(n) in pairs && pairs[Key(i)].rate == pairs[Key(n)].rate == 1.0 && Key(i) != Key(n)
    requires Ahead(pairs, Key(i), Key(n))
    ensures i < n
  {
  }

  lemma NextFrom(conf: Conf, capacity: Rates, p: Pass, run: seq<Step>, l: Link, k: Pair)
    requires forall m | m in p.congested && m != l && HotterFirst(capacity, p.congested, m, l) :: LinkLeft(conf, capacity, p, run, m)
    requires k in Candidates(conf, capacity, p, l) && !TriedAt(run, l, k) && Candidates(conf, capacity, p, l) <= p.pairs.Keys
    requires forall j | j in Candidates(conf, capacity, p, l) && j in p.pairs && j != k && Ahead(p.pairs, j, k) :: TriedAt(run, l, j)
    ensures IsNext(conf, capacity, p, run, l, k)
  {
    hide LinkLeft, HotterFirst, TriedAt, Ahead, Candidates;
  }

  // All links are alike hot, so those with smaller ends come first.
  lemma HotterIs(x: Case, m: Link, j: nat) returns (i: nat)
    requires j < x.links && m in TightPass(x).congested && m != Hop(j)
    requires HotterFirst(Capacity(x), TightPass(x).congested, m, Hop(j))
    ensures m == Hop(i) && i < j
  {
    hide *;
    TightIs(x);
    FullIs(x);
    HopIs(j, x.links);
    HeatIs(x, m);
    HeatIs(x, Hop(j));
    i := EndsBefore(x, Capacity(x), TightPass(x).congested, m, j);
  }

  lemma HeatIs(x: Case, l: Link)
    requires l in Hot(x.links)
    ensures Heat(Capacity(x), TightPass(x).congested, l) == Size(x) / Size(x)
  {
    TightIs(x);
    FullIs(x);
    CapacityIs(x);
    SizeIs(x);
    hide TightPass, Capacity, Full, Size, Hot, Far;
  }

  lemma EndsBefore(x: Case, capacity: Rates, congested: Rates, m: Link, j: nat) returns (i: nat)
    requires m in Hot(x.links) && m != Hop(j) && Heat(capacity, congested, m) == Heat(capacity, congested, Hop(j))
    requires HotterFirst(capacity, congested, m, Hop(j))
    ensures m == Hop(i) && i < j
  {
    hide Heat;
    i := m.1 - 4;
  }

  // Every candidate of an earlier link was tried.
  lemma LeftBefore(x: Case, run: seq<Step>, n: nat, j: nat)
    requires CaseOk(x) && TriedIs(x, run, n) && n <= Senders(x) && j < x.links && Quota(x) > 0
    requires n < Senders(x) ==> j < LinkOf(n, Quota(x))
    ensures LinkLeft(Settings(x), Capacity(x), TightPass(x), run, Hop(j))
  {
    hide *;
    forall k | k in Candidates(Settings(x), Capacity(x), TightPass(x), Hop(j))
      ensures TriedAt(run, Hop(j), k)
    {
      CandidatesAre(x, j, k);
      var i: nat :| i < Senders(x) && k == Key(i) && LinkOf(i, Quota(x)) == j;
      if i >= n {
        LinkOfGrows(n, i, Quota(x));
      }
      TriedBefore(x, run, n, i);
    }
    AllTriedAt(Settings(x), Capacity(x), TightPass(x), run, Hop(j));
  }

  lemma AllTriedAt(conf: Conf, capacity: Rates, p: Pass, run: seq<Step>, l: Link)
    requires forall k | k in Candidates(conf, capacity, p, l) :: TriedAt(run, l, k)
    ensures LinkLeft(conf, capacity, p, run, l)
  {
    hide Candidates, TriedAt, Load, PairsOn;
  }

  lemma PlaceNext(x: Case, start: World, prior: seq<Step>, n: nat) returns (run: seq<Step>)
    requires CaseOk(x) && At(x, start, prior, n) && n < Most(x)
    ensures At(x, start, run, n + 1)
  {
    hide *;
    CaseMeans(x);
    AtOpens(x, start, prior, n);
    TightIs(x);
    SenderIs(x, n);
    SentFrom(x, Key(n));
    var w := EndOf(start, prior);
    var s := Placing(x, n, w);
    PlacingParts(x, n, w);
    PlacingIs(x, start, prior, n, w);
    TryIs(x, start, prior, n, s);
    PlacedWorld(x, n, w);
    run := prior + [s];
    TriesMore(x, start, prior, s);
    TriedMore(x, prior, s, n);
    BirthsMore(x, prior, s, n);
    LoadsMore(x, prior, s, n);
    StoredInStep(prior, s, run);
    KeysGrow(n);
    AtOpens(x, start, run, n + 1);
  }

  lemma PlacingIs(x: Case, start: World, run: seq<Step>, n: nat, w: World)
    requires CaseOk(x) && At(x, start, run, n) && n < Most(x) && w == EndOf(start, run) && Key(n) in TightPass(x).pairs
    requires n < Senders(x) && Quota(x) > 0
    ensures OutcomeOk(Settings(x), Capacity(x), TightPass(x), AutosAt(TightPass(x), run, Hop(LinkOf(n, Quota(x)))), Placing(x, n, w))
  {
    hide *;
    var p, k := TightPass(x), Key(n);
    AtOpens(x, start, run, n);
    TightIs(x);
    WorldParts(x, w, n);
    SenderIs(x, n);
    SentFrom(x, k);
    FreeIsChosen(x, n, w.m.pending);
    ChosenIsThere(Settings(x), Capacity(x), p, k, w.m.pending, FREE);
    RoomIs(x, start, run, n);
    PlacedRow(x, n, p.pairs[k], w.paths);
    PlacingParts(x, n, w);
    StoringOk(Settings(x), Capacity(x), p, AutosAt(p, run, Hop(LinkOf(n, Quota(x)))), Placing(x, n, w), FREE);
  }

  lemma StoringOk(conf: Conf, capacity: Rates, p: Pass, autos: set<Pair>, s: Step, path: seq<Node>)
    requires s.Try? && s.pair in p.pairs && s.outcome.Stored? && s.outcome.path == path
    requires s.after == World(Remembered(p, s.before.m, s.pair, path, s.outcome.row.id),
                              s.before.paths[s.outcome.row.id := s.outcome.row], s.before.refused)
    requires !HeldDown(s.before.m.moved, s.pair, p.now - conf.holdDown)
    requires s.pair !in autos && RoomForAnother(conf, p.pairs[s.pair], autos, p.hosts)
    requires Chosen(conf, capacity, p, s.pair, s.before.m.pending, path)
    requires !NoneChosen(conf, capacity, p, s.pair, s.before.m.pending)
    requires RowFor(p.pairs[s.pair], s.pair, path, s.before.paths, false, s.outcome.row)
    ensures OutcomeOk(conf, capacity, p, autos, s)
  {
    hide HeldDown, RoomForAnother, Chosen, NoneChosen, RowFor, Remembered;
  }

  lemma TryIs(x: Case, start: World, run: seq<Step>, n: nat, s: Step)
    requires CaseOk(x) && At(x, start, run, n) && n < Most(x) && n < Senders(x) && Quota(x) > 0
    requires s.Try? && s.link == Hop(LinkOf(n, Quota(x))) && s.pair == Key(n)
    requires OutcomeOk(Settings(x), Capacity(x), TightPass(x), AutosAt(TightPass(x), run, s.link), s)
    ensures TryOk(Settings(x), Capacity(x), TightPass(x), run, s)
  {
    hide *;
    var c, cap, p, l := Settings(x), Capacity(x), TightPass(x), s.link;
    AtOpens(x, start, run, n);
    NextIs(x, run, n);
    TightIs(x);
    FullIs(x);
    CapacityIs(x);
    SettingsAre(x);
    SenderIs(x, n);
    HopIs(LinkOf(n, Quota(x)), x.links);
    StillHigh(x, run, n, l);
    CandidatesAre(x, LinkOf(n, Quota(x)), Key(n));
    PairsOnIs(p.pairs, l, Key(n));
    KeyIsNotChatter(x, n);
    TwoOf(PairsOn(p.pairs, l), Key(n), (Chatter(x), 0));
    TryFrom(c, cap, p, run, s);
  }

  lemma KeyIsNotChatter(x: Case, n: nat)
    requires n < Senders(x)
    ensures Key(n) != (Chatter(x), 0)
  {
    hide Senders;
  }

  lemma StillHigh(x: Case, run: seq<Step>, n: nat, l: Link)
    requires LoadsAre(x, run, n) && n < Most(x) && l in Hot(x.links)
    ensures Load(Capacity(x), TightPass(x), run, l) > Part(0.56, Size(x))
  {
    SizeIs(x);
    hide Size, Load, Capacity, TightPass, Hot, Most, Part;
  }

  lemma TwoOf<T>(s: set<T>, a: T, b: T)
    requires a in s && b in s && a != b
    ensures |s| > 1
  {
    assert s == {a} + (s - {a});
    assert |s - {a}| > 0;
  }

  lemma TryFrom(conf: Conf, capacity: Rates, p: Pass, run: seq<Step>, s: Step)
    requires s.Try? && s.link in p.congested && s.link in capacity && |PairsOn(p.pairs, s.link)| > 1
    requires Load(capacity, p, run, s.link) > Part(conf.low, capacity[s.link])
    requires IsNext(conf, capacity, p, run, s.link, s.pair) && OutcomeOk(conf, capacity, p, AutosAt(p, run, s.link), s)
    ensures TryOk(conf, capacity, p, run, s)
  {
    hide Load, Part, IsNext, OutcomeOk, AutosAt, PairsOn;
  }

  lemma TriesMore(x: Case, start: World, run: seq<Step>, s: Step)
    requires Tries(Settings(x), Capacity(x), TightPass(x), 0, start, run) && Moves(run) < x.budget
    requires s.before == EndOf(start, run) && TryOk(Settings(x), Capacity(x), TightPass(x), run, s) && IsBirth(s)
    ensures Tries(Settings(x), Capacity(x), TightPass(x), 0, start, run + [s]) && EndOf(start, run + [s]) == s.after
    ensures Moves(run + [s]) == Moves(run) + 1 && Births(run + [s]) == Births(run) + 1
  {
    SettingsAre(x);
    hide *;
    TriesWith(Settings(x), Capacity(x), TightPass(x), start, run, s);
  }

  lemma TriesWith(conf: Conf, capacity: Rates, p: Pass, start: World, run: seq<Step>, s: Step)
    requires Tries(conf, capacity, p, 0, start, run) && Moves(run) < conf.maxMoves
    requires s.before == EndOf(start, run) && TryOk(conf, capacity, p, run, s) && IsBirth(s)
    ensures Tries(conf, capacity, p, 0, start, run + [s]) && EndOf(start, run + [s]) == s.after
    ensures Moves(run + [s]) == Moves(run) + 1 && Births(run + [s]) == Births(run) + 1
  {
    hide TryOk;
    assert (run + [s])[..|run|] == run;
  }

  lemma TriedMore(x: Case, run: seq<Step>, s: Step, n: nat)
    requires TriedIs(x, run, n) && Quota(x) > 0 && s.Try? && s.link == Hop(LinkOf(n, Quota(x))) && s.pair == Key(n)
    ensures TriedIs(x, run + [s], n + 1)
  {
    hide *;
    forall i: nat | i <= n
      ensures TriedAt(run + [s], Hop(LinkOf(i, Quota(x))), Key(i))
    {
      TriedWith(run, s, Hop(LinkOf(i, Quota(x))), Key(i));
      if i < n {
        TriedBefore(x, run, n, i);
      }
    }
    KeysGrow(n);
    forall l, k | TriedAt(run + [s], l, k)
      ensures k in Keys(n + 1)
    {
      TriedWith(run, s, l, k);
      if TriedAt(run, l, k) {
        TriedAmong(x, run, n, l, k);
      }
    }
    TriedFrom(x, run + [s], n + 1);
  }

  lemma TriedWith(run: seq<Step>, s: Step, l: Link, k: Pair)
    requires s.Try?
    ensures TriedAt(run + [s], l, k) <==> TriedAt(run, l, k) || (s.link == l && s.pair == k)
  {
    var more := run + [s];
    assert more[|run|] == s;
    if TriedAt(run, l, k) {
      var j :| 0 <= j < |run| && run[j].Try? && run[j].link == l && run[j].pair == k;
      assert more[j] == run[j];
    }
  }

  lemma TriedAmong(x: Case, run: seq<Step>, n: nat, l: Link, k: Pair)
    requires TriedIs(x, run, n) && TriedAt(run, l, k)
    ensures k in Keys(n)
  {
    hide Keys, Key, Hop, LinkOf, Quota, TriedAt;
  }

  lemma TriedFrom(x: Case, run: seq<Step>, n: nat)
    requires Quota(x) > 0 && (forall i: nat | i < n :: TriedAt(run, Hop(LinkOf(i, Quota(x))), Key(i)))
    requires forall l, k :: TriedAt(run, l, k) ==> k in Keys(n)
    ensures TriedIs(x, run, n)
  {
    hide Keys, Key, Hop, LinkOf, Quota, TriedAt;
  }

  lemma BirthsMore(x: Case, run: seq<Step>, s: Step, n: nat)
    requires BirthsAre(x, run, n) && Quota(x) > 0 && IsBirth(s) && s.link == Hop(LinkOf(n, Quota(x)))
    ensures BirthsAre(x, run + [s], n + 1)
  {
    assert (run + [s])[..|run|] == run;
    LinkOfNext(n, Quota(x));
    HopIs(LinkOf(n, Quota(x)), 0);
    forall l: Link
      ensures BirthsAt(run + [s], l) == BirthsAt(run, l) + if s.link == l then 1 else 0
    {
    }
    hide LinkOf, Offset, Quota, Hop, BirthsAt;
  }

  lemma LoadsMore(x: Case, run: seq<Step>, s: Step, n: nat)
    requires CaseOk(x) && LoadsAre(x, run, n) && s.Try? && s.pair == Key(n) && n < Senders(x)
    ensures LoadsAre(x, run + [s], n + 1)
  {
    hide *;
    TightIs(x);
    SenderIs(x, n);
    forall l | l in Hot(x.links)
      ensures Load(Capacity(x), TightPass(x), run + [s], l) >= Size(x) - (n + 1) as real
    {
      LoadAt(x, run, n, l);
      LoadMore(Capacity(x), TightPass(x), run, s, l);
    }
    LoadsIf(x, run + [s], n + 1);
  }

  lemma LoadAt(x: Case, run: seq<Step>, n: nat, l: Link)
    requires LoadsAre(x, run, n) && l in Hot(x.links)
    ensures Load(Capacity(x), TightPass(x), run, l) >= Size(x) - n as real
  {
    hide Load, Hot, Size, Capacity, TightPass;
  }

  lemma LoadsIf(x: Case, run: seq<Step>, n: nat)
    requires forall l | l in Hot(x.links) :: Load(Capacity(x), TightPass(x), run, l) >= Size(x) - n as real
    ensures LoadsAre(x, run, n)
  {
    hide Load, Hot, Size, Capacity, TightPass;
  }

  lemma LoadMore(capacity: Rates, p: Pass, run: seq<Step>, s: Step, l: Link)
    requires s.Try? && s.pair in p.pairs && forall m | m in p.pairs[s.pair].links :: p.pairs[s.pair].links[m] == 1.0
    ensures Load(capacity, p, run + [s], l) >= Load(capacity, p, run, l) - 1.0
  {
    assert (run + [s])[..|run|] == run;
    hide Unloads;
  }

  // ------------------------------------------------------------------
  // The looks
  // ------------------------------------------------------------------
  ghost function Begun(x: Case, n: nat): World {
    World(Memory(map[], map[], map id | id in Span(0, n) :: 0.0, map[]), Rows(x, 0), [])
  }

  ghost function IdleLooks(x: Case, n: nat): (run: seq<Step>)
    ensures |run| == n && EndOf(Begun(x, 0), run) == Begun(x, n)
  {
    if n == 0 then [] else IdleLooks(x, n - 1) + [Look(Row(x, n - 1), 0.0, false, Begun(x, n - 1), Begun(x, n))]
  }

  lemma {:induction false} LooksAre(x: Case, n: nat)
    requires CaseOk(x) && n <= x.stale
    ensures Looks(Settings(x), Capacity(x), TightPass(x), Begun(x, 0), IdleLooks(x, n)) && Releases(IdleLooks(x, n)) == 0
    ensures forall id: PathId :: LookedAt(IdleLooks(x, n), id) <==> id < n
  {
    hide *;
    var c, cap, p, start := Settings(x), Capacity(x), TightPass(x), Begun(x, 0);
    IdleIs(x, n);
    if n == 0 {
      NothingLooked(c, cap, p, start);
    } else {
      LooksAre(x, n - 1);
      var s := Look(Row(x, n - 1), 0.0, false, Begun(x, n - 1), Begun(x, n));
      LookIsOk(x, n - 1);
      LookedMore(IdleLooks(x, n - 1), s);
      SettingsAre(x);
      CaseMeans(x);
      RowIs(x, n - 1);
      LooksMore(c, cap, p, start, IdleLooks(x, n - 1), s);
    }
  }

  lemma RowIs(x: Case, id: PathId)
    ensures Row(x, id).id == id
  {
  }

  lemma IdleIs(x: Case, n: nat)
    ensures n == 0 ==> IdleLooks(x, n) == []
    ensures n > 0 ==> IdleLooks(x, n) == IdleLooks(x, n - 1) + [Look(Row(x, n - 1), 0.0, false, Begun(x, n - 1), Begun(x, n))]
  {
    hide Begun, Row;
  }

  lemma NothingLooked(conf: Conf, capacity: Rates, p: Pass, start: World)
    ensures Looks(conf, capacity, p, start, []) && Releases([]) == 0 && forall id :: !LookedAt([], id)
  {
  }

  lemma LooksMore(conf: Conf, capacity: Rates, p: Pass, start: World, run: seq<Step>, s: Step)
    requires Looks(conf, capacity, p, start, run) && Releases(run) == 0 < conf.maxMoves
    requires LookOk(conf, capacity, p, s) && s.Look? && !s.released && s.before == EndOf(start, run) && !LookedAt(run, s.row.id)
    ensures Looks(conf, capacity, p, start, run + [s]) && Releases(run + [s]) == 0
  {
    assert (run + [s])[..|run|] == run;
    hide LookOk, LookedAt;
  }

  lemma LookedMore(run: seq<Step>, s: Step)
    requires s.Look?
    ensures forall id :: LookedAt(run + [s], id) <==> LookedAt(run, id) || s.row.id == id
  {
    var more := run + [s];
    assert more[|run|] == s;
    forall id
      ensures LookedAt(more, id) <==> LookedAt(run, id) || s.row.id == id
    {
      if LookedAt(run, id) {
        var i :| 0 <= i < |run| && run[i].Look? && run[i].row.id == id;
        assert more[i] == run[i];
      }
    }
  }

  // A path whose pair nobody measures starts an idle spell.
  lemma LookIsOk(x: Case, n: nat)
    requires CaseOk(x) && n < x.stale
    ensures LookOk(Settings(x), Capacity(x), TightPass(x), Look(Row(x, n), 0.0, false, Begun(x, n), Begun(x, n + 1)))
  {
    hide *;
    TightIs(x);
    RowsAre(x, 0);
    SettingsAre(x);
    SpellStarts(x, n);
    StaleRowIs(x, n);
    StaleUnmeasured(x, n);
    UnmeasuredLook(Settings(x), Capacity(x), TightPass(x), Row(x, n), Begun(x, n), Begun(x, n + 1));
  }

  lemma StaleRowIs(x: Case, n: nat)
    requires n < x.stale
    ensures var row := Row(x, n); row.id == n && IsAuto(row) && PairOf(row) == (Stale(x, n), Gone(x)) && row.via == []
  {
  }

  lemma StaleUnmeasured(x: Case, n: nat)
    requires CaseOk(x)
    ensures (Stale(x, n), Gone(x)) !in Measured(x) && Gone(x) !in OnNode(Span(Stale(x, 0), x.held))
  {
    PairsAre(x, 1.0, 0.5);
    OnNodeIs(Span(Stale(x, 0), x.held));
    hide PairsAt, OnNode, Senders, Span, Quota, Spare, Least;
  }

  lemma UnmeasuredLook(conf: Conf, capacity: Rates, p: Pass, row: TePath, w: World, after: World)
    requires IsAuto(row) && row.id in w.paths && w.paths[row.id] == row && row.via == []
    requires PairOf(row) !in p.pairs && PairOf(row).1 !in p.bound && p.now == 0.0 && conf.releaseAfter == 120.0
    requires row.id !in w.m.idleSince && after == w.(m := w.m.(idleSince := w.m.idleSince[row.id := 0.0]))
    ensures LookOk(conf, capacity, p, Look(row, 0.0, false, w, after))
  {
    assert HopsOf(p, row) == [];
  }

  lemma SpellStarts(x: Case, n: nat)
    ensures n !in Begun(x, n).m.idleSince
    ensures Begun(x, n + 1) == Begun(x, n).(m := Begun(x, n).m.(idleSince := Begun(x, n).m.idleSince[n := 0.0]))
    ensures Begun(x, n).paths == Rows(x, 0)
  {
    hide Rows;
  }

  // ------------------------------------------------------------------
  // The whole pass
  // ------------------------------------------------------------------
  lemma NothingTried(x: Case, start: World)
    requires CaseOk(x) && WorldIs(x, start, 0)
    ensures At(x, start, [], 0)
  {
    hide *;
    CaseMeans(x);
    TightIs(x);
    FullIs(x);
    WorldOpens(x, start, 0);
    NoneTried(x);
    NoneLighter(x);
    NoTries(Settings(x), Capacity(x), TightPass(x), start);
    NothingStoredIn();
    AtOpens(x, start, [], 0);
  }

  lemma NoTries(conf: Conf, capacity: Rates, p: Pass, start: World)
    ensures Tries(conf, capacity, p, 0, start, []) && EndOf(start, []) == start && Moves([]) == Births([]) == 0
  {
  }

  lemma NoneTried(x: Case)
    requires Quota(x) > 0
    ensures TriedIs(x, [], 0) && BirthsAre(x, [], 0) && Keys(0) == {}
  {
    hide Quota, Hop;
  }

  lemma NoneLighter(x: Case)
    requires TightPass(x).congested == Full(x)
    ensures LoadsAre(x, [], 0)
  {
    FullIs(x);
    hide TightPass, Capacity, Full, Hot, Size;
  }

  lemma {:induction false} AllPlaced(x: Case, start: World, n: nat) returns (run: seq<Step>)
    requires CaseOk(x) && WorldIs(x, start, 0) && n <= Most(x)
    ensures At(x, start, run, n)
  {
    hide *;
    if n == 0 {
      run := [];
      NothingTried(x, start);
    } else {
      var prior := AllPlaced(x, start, n - 1);
      run := PlaceNext(x, start, prior, n - 1);
    }
  }

  // With the budget spent, or every sender tried.
  lemma TriesAreDone(x: Case, start: World, run: seq<Step>)
    requires CaseOk(x) && At(x, start, run, Most(x))
    ensures TriesDone(Settings(x), Capacity(x), TightPass(x), 0, run)
  {
    hide *;
    AtOpens(x, start, run, Most(x));
    CaseMeans(x);
    SettingsAre(x);
    if Most(x) == Senders(x) {
      TightIs(x);
      FullIs(x);
      forall l | l in TightPass(x).congested
        ensures LinkLeft(Settings(x), Capacity(x), TightPass(x), run, l)
      {
        var j := HopOf(x, l);
        LeftBefore(x, run, Most(x), j);
      }
    }
    DoneFrom(Settings(x), Capacity(x), TightPass(x), run);
  }

  lemma HopOf(x: Case, l: Link) returns (j: nat)
    requires l in Hot(x.links)
    ensures j < x.links && l == Hop(j)
  {
    j := l.1 - 4;
  }

  lemma DoneFrom(conf: Conf, capacity: Rates, p: Pass, run: seq<Step>)
    requires Moves(run) <= conf.maxMoves
    requires Moves(run) == conf.maxMoves || forall l | l in p.congested :: LinkLeft(conf, capacity, p, run, l)
    ensures TriesDone(conf, capacity, p, 0, run)
  {
    hide LinkLeft, Moves;
  }

  lemma LooksAreDone(x: Case)
    requires CaseOk(x)
    ensures LooksDone(Settings(x), Begun(x, 0), IdleLooks(x, x.stale)) && EndOf(Begun(x, 0), IdleLooks(x, x.stale)) == Begun(x, x.stale)
  {
    LooksAre(x, x.stale);
    BegunIs(x, 0);
    RowsAre(x, 0);
    hide Settings, Rows, Begun, LookedAt, Looks;
  }

  lemma BegunIs(x: Case, n: nat)
    ensures WorldIs(x, Begun(x, n), 0) && Begun(x, n).paths == Rows(x, 0)
  {
    hide Rows;
    assert Keys(0) == {};
  }

  lemma PassFrom(conf: Conf, capacity: Rates, p: Pass, looks: seq<Step>, tries: seq<Step>, start: World, middle: World, end: World)
    requires Looks(conf, capacity, p, start, looks) && LooksDone(conf, start, looks) && Releases(looks) == 0
    requires EndOf(start, looks) == middle && p.paths == middle.paths
    requires Tries(conf, capacity, p, 0, middle, tries) && TriesDone(conf, capacity, p, 0, tries) && end == EndOf(middle, tries)
    ensures PassRun(conf, capacity, p, looks, tries, start, end)
  {
    hide Looks, LooksDone, Tries, TriesDone;
  }

  // The pass, and what it ends with.
  lemma TightRun(x: Case) returns (tries: seq<Step>, end: World)
    requires CaseOk(x)
    ensures PassRun(Settings(x), Capacity(x), TightPass(x), IdleLooks(x, x.stale), tries, Begun(x, 0), end)
    ensures Releases(IdleLooks(x, x.stale)) == 0
    ensures AutoPairs(end.paths.Values) == StalePairs(x, x.stale) + Keys(Most(x))
  {
    hide *;
    var c, cap, p, looks := Settings(x), Capacity(x), TightPass(x), IdleLooks(x, x.stale);
    var middle := Begun(x, x.stale);
    LooksAre(x, x.stale);
    LooksAreDone(x);
    BegunIs(x, x.stale);
    tries := AllPlaced(x, middle, Most(x));
    end := EndOf(middle, tries);
    AtOpens(x, middle, tries, Most(x));
    TriesAreDone(x, middle, tries);
    TightIs(x);
    TightIsOk(x);
    StaleAre(x);
    PassFrom(c, cap, p, looks, tries, Begun(x, 0), middle, end);
    PairsAfter(c, cap, p, 0, middle, tries);
  }

  // As many more paths, and as many more VMs, as were placed.
  lemma EndsWith(x: Case)
    requires CaseOk(x)
    ensures |StalePairs(x, x.stale) + Keys(Most(x))| == x.stale + Most(x)
    ensures |VmsOn(TightPass(x), StalePairs(x, x.stale) + Keys(Most(x)), 0)| == x.held + Most(x)
  {
    hide *;
    var p, stale, placed := TightPass(x), StalePairs(x, x.stale), Keys(Most(x));
    CaseMeans(x);
    Apart(x);
    CountApartBoth(stale, placed);
    VmsBoth(p, stale, placed, 0);
    StaleVms(x);
    PlacedVms(x, p);
    CountApartBoth(Span(Stale(x, 0), x.held), Span(1, Most(x)));
    SpanCounts(Stale(x, 0), x.held);
    SpanCounts(1, Most(x));
    KeysCount(x);
  }

  lemma SpanCounts(first: nat, n: nat)
    ensures |Span(first, n)| == n
  {
  }

  lemma KeysCount(x: Case)
    ensures |StalePairs(x, x.stale)| == x.stale && |Keys(Most(x))| == Most(x)
  {
  }

  lemma CountApartBoth<T>(a: set<T>, b: set<T>)
    requires a !! b
    ensures |a + b| == |a| + |b|
  {
  }

  lemma Apart(x: Case)
    requires Most(x) <= Senders(x)
    ensures StalePairs(x, x.stale) !! Keys(Most(x)) && Span(Stale(x, 0), x.held) !! Span(1, Most(x))
  {
    hide Most, Senders, StalePairs, Keys, Span;
  }

  lemma PlacedVms(x: Case, p: Pass)
    requires p == TightPass(x) && Most(x) <= Senders(x)
    ensures VmsOn(p, Keys(Most(x)), 0) == Span(1, Most(x))
  {
    hide *;
    TightIs(x);
    OnNodeIs(Sources(x));
    OnNodeIs(Span(Stale(x, 0), x.held));
    SourcesAmong(x);
    HomesAre(p);
    SpanWithin(Most(x), Senders(x));
    VmsOnIs(p, Keys(Most(x)), 0);
    KeysOn(Homes(p), Most(x));
  }

  lemma SpanWithin(n: nat, m: nat)
    requires n <= m
    ensures Span(1, n) <= Span(1, m)
  {
    hide Span;
  }

  lemma KeysOn(hosts: map<Port, Node>, n: nat)
    requires forall i | i in Span(1, n) :: i in hosts && hosts[i] == 0
    ensures SteeredOn(Keys(n), hosts, 0) == Span(1, n)
  {
    hide Keys, Span;
    forall i | i in Span(1, n)
      ensures i in SteeredOn(Keys(n), hosts, 0)
    {
      assert (i, 0) in Keys(n);
    }
  }
}
