// What one pass of the re-optimisation works with, and the searches it makes.

module ReoptPass {
  import opened Wrappers
  import opened Graph
  import opened Totals
  import opened TeRows
  import opened ReoptMemory
  import opened PairView
  import Pce
  import ShortestLinks

  // What one pass reads of the fabric.
  datatype Reading = Reading(
    outage: bool,
    // per link, oldest first; a sample may be missing its value
    series: map<Link, seq<(Time, Option<real>)>>,
    dead: set<Link>, measured: Rates, view: seq<Flow>, hostOf: map<Port, Node>)

  // ------------------------------------------------------------------
  // The path table, as far as the server's own paths go
  // ------------------------------------------------------------------
  predicate IsAuto(p: TePath) {
    p.auto && p.to.ToPort? && p.from_.FromPort?
  }

  function PairOf(p: TePath): Pair
    requires IsAuto(p)
  {
    (p.from_.port, p.to.port)
  }

  function AutoPairs(paths: set<TePath>): set<Pair> {
    set p | p in paths && IsAuto(p) :: PairOf(p)
  }

  ghost predicate RowsOk(paths: map<PathId, TePath>) {
    forall id | id in paths :: paths[id].id == id && (paths[id].auto ==> IsAuto(paths[id]))
  }

  function Via(path: seq<Node>): seq<Node> {
    if |path| < 2 then [] else path[1..|path| - 1]
  }

  // The hops between the ends are all stored: with its ends a row is the path.
  lemma ViaIsWhole(path: seq<Node>)
    requires path != [] && path[0] != Last(path)
    ensures [path[0]] + Via(path) + [Last(path)] == path
  {
    assert |path| >= 2;
  }

  // ------------------------------------------------------------------
  // Order
  // ------------------------------------------------------------------
  predicate PairLeq(a: Pair, b: Pair) {
    a.0 < b.0 || (a.0 == b.0 && a.1 <= b.1)
  }

  // The largest pair first; of two alike, by their ports.
  predicate Ahead(pairs: map<Pair, PairInfo>, a: Pair, b: Pair)
    requires a in pairs && b in pairs
  {
    pairs[a].rate > pairs[b].rate || (pairs[a].rate == pairs[b].rate && PairLeq(a, b))
  }

  method Largest(todo: set<Pair>, pairs: map<Pair, PairInfo>) returns (k: Pair)
    requires todo != {} && todo <= pairs.Keys
    ensures k in todo && forall j | j in todo :: Ahead(pairs, k, j)
    ensures forall j | j in todo ::
              pairs[j].rate <= pairs[k].rate && (pairs[j].rate == pairs[k].rate ==> k.0 < j.0 || (k.0 == j.0 && k.1 <= j.1))
  {
    k :| k in todo;
    var rest := todo - {k};
    while rest != {}
      invariant k in todo && rest <= todo
      invariant forall j | j in todo && j !in rest :: Ahead(pairs, k, j)
    {
      var j: Pair :| j in rest;
      rest := rest - {j};
      if Ahead(pairs, j, k) {
        k := j;
      }
    }
  }

  // A link's load as a share of its capacity.
  function Heat(capacity: Rates, congested: Rates, l: Link): real {
    if l in congested && l in capacity && capacity[l] != 0.0 then congested[l] / capacity[l] else 0.0
  }

  ghost predicate HeatOk(capacity: Rates, congested: Rates) {
    forall l | l in congested :: l in capacity && capacity[l] > 0.0
  }

  // The hottest link first; of two alike, by their ends.
  predicate HotterFirst(capacity: Rates, congested: Rates, a: Link, b: Link) {
    || Heat(capacity, congested, a) > Heat(capacity, congested, b)
    || (Heat(capacity, congested, a) == Heat(capacity, congested, b) && (a.0 < b.0 || (a.0 == b.0 && a.1 <= b.1)))
  }

  lemma HotterIs(capacity: Rates, congested: Rates, a: Link, b: Link)
    requires HeatOk(capacity, congested) && a in congested && b in congested
    ensures HotterFirst(capacity, congested, a, b) <==> IsHotter(capacity, congested, a, b)
  {
  }

  ghost predicate IsHotter(capacity: Rates, congested: Rates, a: Link, b: Link)
    requires HeatOk(capacity, congested) && a in congested && b in congested
  {
    var x, y := congested[a] / capacity[a], congested[b] / capacity[b];
    y <= x && (x == y ==> a.0 < b.0 || (a.0 == b.0 && a.1 <= b.1))
  }

  method Hottest(todo: set<Link>, capacity: Rates, congested: Rates) returns (l: Link)
    requires todo != {} && todo <= congested.Keys && HeatOk(capacity, congested)
    ensures l in todo && forall m | m in todo :: HotterFirst(capacity, congested, l, m)
    ensures forall m | m in todo :: IsHotter(capacity, congested, l, m)
  {
    l :| l in todo;
    var rest := todo - {l};
    hide Heat;
    while rest != {}
      invariant l in todo && rest <= todo
      invariant forall m | m in todo && m !in rest :: HotterFirst(capacity, congested, l, m)
    {
      var m: Link :| m in rest;
      rest := rest - {m};
      if HotterFirst(capacity, congested, m, l) {
        l := m;
      }
    }
    hide IsHotter, HotterFirst, HeatOk;
    forall m | m in todo
      ensures IsHotter(capacity, congested, l, m)
    {
      HotterIs(capacity, congested, l, m);
    }
  }

  // ------------------------------------------------------------------
  // Congestion
  // ------------------------------------------------------------------
  // The last samples are all there, all above the mark, and all newer than
  // the last move off the link.
  ghost predicate IsCongested(conf: Conf, capacity: Rates, series: map<Link, seq<(Time, Option<real>)>>,
                              linkMoved: map<Link, Time>, l: Link) {
    && l in series && l in capacity && capacity[l] > 0.0 && 0 < conf.samples <= |series[l]|
    && var last := series[l][|series[l]| - conf.samples..];
       && (forall x | x in last :: x.1.Some? && x.1.value > Part(conf.high, capacity[l]))
       && (l in linkMoved ==> last[0].0 > linkMoved[l])
  }

  // When the oldest of the samples a link was judged by was taken.
  function JudgedSince(conf: Conf, series: map<Link, seq<(Time, Option<real>)>>, links: set<Link>): map<Link, Time>
  {
    map l | l in links && l in series && 0 < conf.samples <= |series[l]| :: series[l][|series[l]| - conf.samples].0
  }

  // ------------------------------------------------------------------
  // What is in use
  // ------------------------------------------------------------------
  method AddLoad(used0: Rates, links: Rates) returns (used: Rates)
    ensures forall l: Link :: Pce.Held(used, l) == Pce.Held(used0, l) + RateOn(links, l)
  {
    used := used0;
    var todo := links.Keys;
    while todo != {}
      invariant todo <= links.Keys
      invariant forall l: Link :: Pce.Held(used, l) == Pce.Held(used0, l) + if l in todo then 0.0 else RateOn(links, l)
    {
      var l: Link :| l in todo;
      todo := todo - {l};
      used := used[l := Pce.Held(used, l) + links[l]];
    }
  }

  // The measured load without the pair's own traffic, plus what the other
  // pairs placed lately add: the fabric has not shown that yet.
  method Used(pending: Pendings, measured: Rates, own: Rates, k: Pair) returns (used: Rates)
    ensures forall l: Link :: Pce.Held(used, l) == Base(measured, own, l) + ReservedOn(pending - {k}, l)
  {
    used := map l | l in measured :: Base(measured, own, l);
    var todo := pending.Keys - {k};
    ghost var done: Pendings := map[];
    forall l: Link
      ensures ReservedOn(map[], l) == 0.0
    {
      assert Shares(map[], l) == map[];
    }
    hide ReservedOn;
    while todo != {}
      invariant todo <= pending.Keys - {k} && done == pending - {k} - todo
      invariant forall l: Link :: Pce.Held(used, l) == Base(measured, own, l) + ReservedOn(done, l)
    {
      var j: Pair :| j in todo;
      todo := todo - {j};
      forall l: Link
        ensures ReservedOn(done[j := pending[j]], l) == ReservedOn(done, l) + RateOn(pending[j].links, l)
      {
        ReservedWith(done, j, pending[j], l);
        assert done - {j} == done;
      }
      used := AddLoad(used, pending[j].links);
      done := done[j := pending[j]];
      assert done == pending - {k} - todo;
    }
    assert done == pending - {k};
  }

  // What pairs put on a link.
  ghost function MovedOff(moved: map<Pair, PairInfo>, l: Link): real {
    Total(map k | k in moved :: RateOn(moved[k].links, l))
  }

  method MovedLoad(moved: map<Pair, PairInfo>, l: Link) returns (sum: real)
    ensures sum == MovedOff(moved, l)
  {
    sum := 0.0;
    var todo := moved.Keys;
    ghost var shares := map k | k in moved :: RateOn(moved[k].links, l);
    assert shares - (moved.Keys - todo) == shares;
    while todo != {}
      invariant todo <= moved.Keys && sum + Total(shares - (moved.Keys - todo)) == Total(shares)
    {
      var k: Pair :| k in todo;
      ghost var rest := shares - (moved.Keys - todo);
      TotalWithout(rest, k);
      todo := todo - {k};
      assert rest - {k} == shares - (moved.Keys - todo);
      sum := sum + RateOn(moved[k].links, l);
    }
    assert shares - moved.Keys == map[];
  }

  // One host for each source port; of several the view may give, any.
  ghost predicate HostsAre(pairs: map<Pair, PairInfo>, hosts: map<Port, Node>) {
    && (forall p: Port :: p in hosts <==> exists k :: k in pairs && pairs[k].sport == p)
    && forall p: Port | p in hosts :: exists k :: k in pairs && pairs[k].sport == p && pairs[k].shost == hosts[p]
  }

  method SourceHosts(pairs: map<Pair, PairInfo>) returns (hostOf: map<Port, Node>)
    ensures HostsAre(pairs, hostOf)
  {
    hostOf := map[];
    var todo := pairs.Keys;
    while todo != {}
      invariant todo <= pairs.Keys
      invariant forall p: Port :: p in hostOf <==> exists k :: k in pairs && k !in todo && pairs[k].sport == p
      invariant forall p: Port | p in hostOf :: exists k :: k in pairs && pairs[k].sport == p && pairs[k].shost == hostOf[p]
    {
      var k: Pair :| k in todo;
      todo := todo - {k};
      hostOf := hostOf[pairs[k].sport := pairs[k].shost];
    }
  }

  method Autos(paths: set<TePath>) returns (autos: map<Pair, TePath>)
    ensures autos.Keys == AutoPairs(paths)
    ensures forall k | k in autos :: autos[k] in paths && IsAuto(autos[k]) && PairOf(autos[k]) == k
  {
    autos := map[];
    var todo := paths;
    while todo != {}
      invariant todo <= paths && autos.Keys == AutoPairs(paths - todo)
      invariant forall k | k in autos :: autos[k] in paths && IsAuto(autos[k]) && PairOf(autos[k]) == k
    {
      var p: TePath :| p in todo;
      assert paths - (todo - {p}) == (paths - todo) + {p};
      todo := todo - {p};
      if IsAuto(p) {
        autos := autos[PairOf(p) := p];
      }
    }
    assert paths - {} == paths;
  }

  // Room under the two caps: automatic paths in all, steered VMs on a node.
  predicate RoomForAnother(conf: Conf, pr: PairInfo, autos: set<Pair>, hosts: map<Port, Node>) {
    var steered := SteeredOn(autos, hosts, pr.shost);
    |autos| < conf.maxPaths && (pr.sport in steered || |steered| < conf.maxRules)
  }

  // The VMs on a node that have automatic paths.
  function SteeredOn(autos: set<Pair>, hosts: map<Port, Node>, h: Node): set<Port> {
    set k | k in autos && k.0 in hosts && hosts[k.0] == h :: k.0
  }

  ghost function SteeredVms(autos: set<Pair>, hosts: map<Port, Node>, h: Node): set<Port> {
    set v | v in hosts && hosts[v] == h && exists d: Port :: (v, d) in autos
  }

  // A path more is allowed below te_auto_max_paths. A VM steered on its node
  // already needs nothing else; another must leave the node's VMs within
  // te_auto_max_rules_per_host.
  lemma RoomIs(conf: Conf, pr: PairInfo, autos: set<Pair>, hosts: map<Port, Node>)
    ensures RoomForAnother(conf, pr, autos, hosts) <==>
              |autos| < conf.maxPaths
              && var vms := SteeredVms(autos, hosts, pr.shost); pr.sport in vms || |vms| + 1 <= conf.maxRules
  {
    forall v
      ensures v in SteeredOn(autos, hosts, pr.shost) <==> v in SteeredVms(autos, hosts, pr.shost)
    {
      if v in SteeredOn(autos, hosts, pr.shost) {
        var k :| k in autos && k.0 in hosts && hosts[k.0] == pr.shost && k.0 == v;
        assert (v, k.1) in autos;
      }
      if v in SteeredVms(autos, hosts, pr.shost) {
        var d: Port :| (v, d) in autos;
        assert (v, d).0 == v;
      }
    }
    assert SteeredOn(autos, hosts, pr.shost) == SteeredVms(autos, hosts, pr.shost);
  }

  // ------------------------------------------------------------------
  // One pass
  // ------------------------------------------------------------------
  // What a pass works with: the pairs measured and where their VMs are; where
  // any bound port is; the stored paths as its moves find them; the load; the
  // congested links with their latest load; and since when each was judged.
  datatype Pass = Pass(now: Time, pairs: map<Pair, PairInfo>, hosts: map<Port, Node>, bound: map<Port, Node>,
                       paths: map<PathId, TePath>, measured: Rates, congested: Rates, dead: set<Link>,
                       since: map<Link, Time>)

  ghost predicate PassOk(capacity: Rates, p: Pass) {
    && (forall k | k in p.pairs :: RatesNatural(p.pairs[k]) && p.pairs[k].sport == k.0 && p.pairs[k].dport == k.1)
    && HeatOk(capacity, p.congested) && p.congested.Keys <= p.since.Keys && HostsAre(p.pairs, p.hosts)
  }

  function Avoid(p: Pass): set<Link> {
    p.congested.Keys + p.dead
  }

  function Usable(capacity: Rates, avoid: set<Link>): Rates {
    map l | l in capacity && l !in avoid :: capacity[l]
  }

  function PairsOn(pairs: map<Pair, PairInfo>, l: Link): set<Pair> {
    set k | k in pairs && l in pairs[k].links
  }

  predicate IsCovered(paths: set<TePath>, pr: PairInfo) {
    exists p | p in paths :: Decides(p, pr)
  }

  // A pair worth moving off the link: large there, and no user path decides
  // its route.
  function Candidates(conf: Conf, capacity: Rates, p: Pass, l: Link): set<Pair> {
    if l !in capacity then {}
    else set k | k in PairsOn(p.pairs, l) && p.pairs[k].links[l] >= Part(conf.minShare, capacity[l])
                 && !IsCovered(p.paths.Values, p.pairs[k])
  }

  // ------------------------------------------------------------------
  // The path for a pair
  // ------------------------------------------------------------------
  ghost predicate UsedIs(used: Rates, measured: Rates, own: Rates, pending: Pendings, k: Pair) {
    forall l: Link :: Pce.Held(used, l) == Base(measured, own, l) + ReservedOn(pending - {k}, l)
  }

  predicate Fits(conf: Conf, capacity: Rates, used: Rates, rate: real, path: seq<Node>) {
    forall l | l in LinksOf(path) :: l in capacity && Pce.Held(used, l) + rate <= Part(conf.fit, capacity[l])
  }

  // With the pair, the i-th hop carries at most its share.
  predicate HopFits(conf: Conf, capacity: Rates, used: Rates, rate: real, path: seq<Node>, i: nat)
    requires i + 1 < |path|
  {
    var l := (path[i], path[i + 1]);
    l in capacity && (if l in used then used[l] else 0.0) + rate <= conf.fit * capacity[l]
  }

  lemma FitsIs(conf: Conf, capacity: Rates, used: Rates, rate: real, path: seq<Node>)
    ensures Fits(conf, capacity, used, rate, path) <==>
              forall i: nat | i + 1 < |path| :: HopFits(conf, capacity, used, rate, path, i)
  {
    LinksOfIndex(path);
    hide LinksOf;
    if Fits(conf, capacity, used, rate, path) {
      forall i: nat | i + 1 < |path|
        ensures HopFits(conf, capacity, used, rate, path, i)
      {
        assert LinksOf(path)[i] in LinksOf(path);
      }
    }
    if forall i: nat | i + 1 < |path| :: HopFits(conf, capacity, used, rate, path, i) {
      forall l | l in LinksOf(path)
        ensures l in capacity && Pce.Held(used, l) + rate <= Part(conf.fit, capacity[l])
      {
        var i :| 0 <= i < |LinksOf(path)| && LinksOf(path)[i] == l;
        assert HopFits(conf, capacity, used, rate, path, i);
      }
    }
  }

  ghost predicate IsBest(capacity: Rates, p: Pass, pr: PairInfo, used: Rates, path: seq<Node>) {
    Pce.Canonical(Pce.Residuals(Usable(capacity, Avoid(p)), used, pr.rate), pr.shost, pr.dhost, path)
  }

  // The canonical path off the congested and dead links, with room for the
  // pair besides what the others reserve, and the pair fits on it.
  ghost predicate Chosen(conf: Conf, capacity: Rates, p: Pass, k: Pair, pending: Pendings, path: seq<Node>)
    requires k in p.pairs
  {
    exists used ::
      && UsedIs(used, p.measured, p.pairs[k].links, pending, k)
      && IsBest(capacity, p, p.pairs[k], used, path) && Fits(conf, capacity, used, p.pairs[k].rate, path)
  }

  // No path off those links has room, or the canonical one would leave a link
  // of it too full.
  ghost predicate NoneChosen(conf: Conf, capacity: Rates, p: Pass, k: Pair, pending: Pendings)
    requires k in p.pairs
  {
    forall path :: !Chosen(conf, capacity, p, k, pending, path)
  }

  lemma HeldAlike(a: Rates, b: Rates, measured: Rates, own: Rates, pending: Pendings, k: Pair)
    requires UsedIs(a, measured, own, pending, k) && UsedIs(b, measured, own, pending, k)
    ensures forall l: Link :: Pce.Held(a, l) == Pce.Held(b, l)
  {
    hide Base, ReservedOn, Pce.Held;
  }

  lemma AlikeForPaths(conf: Conf, capacity: Rates, a: Rates, b: Rates, cap: Rates, rate: real, path: seq<Node>)
    requires forall l: Link :: Pce.Held(a, l) == Pce.Held(b, l)
    ensures Pce.Residuals(cap, a, rate) == Pce.Residuals(cap, b, rate)
    ensures Fits(conf, capacity, a, rate, path) <==> Fits(conf, capacity, b, rate, path)
  {
    hide LinksOf, Part;
  }

  lemma NoneChosenIf(conf: Conf, capacity: Rates, p: Pass, k: Pair, used: Rates, pending: Pendings, best: Option<seq<Node>>)
    requires k in p.pairs && UsedIs(used, p.measured, p.pairs[k].links, pending, k)
    requires var pr := p.pairs[k];
             && (best.None? ==> !exists path :: Reaches(Pce.Residuals(Usable(capacity, Avoid(p)), used, pr.rate), path, pr.shost, pr.dhost))
             && (best.Some? ==> IsBest(capacity, p, pr, used, best.value) && !Fits(conf, capacity, used, pr.rate, best.value))
    ensures NoneChosen(conf, capacity, p, k, pending)
  {
    hide UsedIs, Fits, Avoid, Usable, Pce.Residuals, Reaches;
    var pr := p.pairs[k];
    var cap := Usable(capacity, Avoid(p));
    forall path
      ensures !Chosen(conf, capacity, p, k, pending, path)
    {
      if Chosen(conf, capacity, p, k, pending, path) {
        var other :| UsedIs(other, p.measured, pr.links, pending, k) && IsBest(capacity, p, pr, other, path)
                     && Fits(conf, capacity, other, pr.rate, path);
        HeldAlike(other, used, p.measured, pr.links, pending, k);
        AlikeForPaths(conf, capacity, other, used, cap, pr.rate, path);
        CanonicalReaches(Pce.Residuals(cap, used, pr.rate), pr.shost, pr.dhost, path);
        if best.Some? {
          Pce.CanonicalIsUnique(Pce.Residuals(cap, used, pr.rate), pr.shost, pr.dhost, path, best.value);
        }
      }
    }
  }

  lemma CanonicalReaches(g: Rates, src: Node, dst: Node, path: seq<Node>)
    requires Pce.Canonical(g, src, dst, path)
    ensures Reaches(g, path, src, dst)
  {
    PrefixOptimalIsOptimal(g, src, path);
  }

  lemma ChosenIf(conf: Conf, capacity: Rates, p: Pass, k: Pair, pending: Pendings, used: Rates, path: seq<Node>)
    requires k in p.pairs && UsedIs(used, p.measured, p.pairs[k].links, pending, k)
    requires IsBest(capacity, p, p.pairs[k], used, path) && Fits(conf, capacity, used, p.pairs[k].rate, path)
    ensures Chosen(conf, capacity, p, k, pending, path)
  {
    hide UsedIs, IsBest, Fits;
  }

  // A path off the congested and dead links with room for the pair.
  method FindPath(conf: Conf, capacity: Rates, p: Pass, k: Pair, cap: Rates, pending: Pendings)
    returns (path: Option<seq<Node>>)
    requires k in p.pairs && cap == Usable(capacity, Avoid(p))
    ensures path.Some? ==> Chosen(conf, capacity, p, k, pending, path.value)
    ensures path.None? <==> NoneChosen(conf, capacity, p, k, pending)
  {
    hide *;
    var pr := p.pairs[k];
    var used := Used(pending, p.measured, pr.links, k);
    UsedAgrees(used, p.measured, pr.links, pending, k);
    path := Pce.Compute(cap, used, pr.shost, pr.dhost, pr.rate);
    ghost var best := path;
    if path.Some? {
      BestIs(capacity, p, pr, used, cap, path.value);
    }
    if path.Some? && Fits(conf, capacity, used, pr.rate, path.value) {
      ChosenIf(conf, capacity, p, k, pending, used, path.value);
      ChosenIsThere(conf, capacity, p, k, pending, path.value);
    } else {
      path := None;
      NoneChosenIf(conf, capacity, p, k, used, pending, best);
    }
  }

  lemma BestIs(capacity: Rates, p: Pass, pr: PairInfo, used: Rates, cap: Rates, path: seq<Node>)
    requires cap == Usable(capacity, Avoid(p)) && Pce.Canonical(Pce.Residuals(cap, used, pr.rate), pr.shost, pr.dhost, path)
    ensures IsBest(capacity, p, pr, used, path)
  {
    hide Pce.Canonical, Pce.Residuals;
  }

  lemma ChosenIsThere(conf: Conf, capacity: Rates, p: Pass, k: Pair, pending: Pendings, path: seq<Node>)
    requires k in p.pairs && Chosen(conf, capacity, p, k, pending, path)
    ensures !NoneChosen(conf, capacity, p, k, pending)
  {
    hide Chosen;
  }

  lemma UsedAgrees(used: Rates, measured: Rates, own: Rates, pending: Pendings, k: Pair)
    requires forall l: Link :: Pce.Held(used, l) == Base(measured, own, l) + ReservedOn(pending - {k}, l)
    ensures UsedIs(used, measured, own, pending, k)
  {
    hide ReservedOn, Base, Pce.Held;
  }

  // ------------------------------------------------------------------
  // What a look at an automatic path sees
  // ------------------------------------------------------------------
  function RateOf(p: Pass, k: Pair): real {
    if k in p.pairs then p.pairs[k].rate else 0.0
  }

  function SourceOf(p: Pass, k: Pair): Option<Node> {
    if k in p.pairs then Some(p.pairs[k].shost) else if k.0 in p.bound then Some(p.bound[k.0]) else None
  }

  function DestinationOf(p: Pass, k: Pair): Option<Node> {
    if k in p.pairs then Some(p.pairs[k].dhost) else if k.1 in p.bound then Some(p.bound[k.1]) else None
  }

  function AsList(n: Option<Node>): seq<Node> {
    if n.Some? then [n.value] else []
  }

  // The links the path runs over, as far as its ends are known.
  function HopsOf(p: Pass, row: TePath): seq<Link>
    requires IsAuto(row)
  {
    LinksOf(AsList(SourceOf(p, PairOf(row))) + row.via + AsList(DestinationOf(p, PairOf(row))))
  }

  // The ends are where the pair was measured, or else where its VMs are bound.
  lemma HopsAre(p: Pass, row: TePath)
    requires IsAuto(row)
    ensures var k := (row.from_.port, row.to.port);
            && (k in p.pairs ==> HopsOf(p, row) == LinksOf([p.pairs[k].shost] + row.via + [p.pairs[k].dhost]))
            && (k !in p.pairs ==>
                  && (k.0 in p.bound && k.1 in p.bound ==> HopsOf(p, row) == LinksOf([p.bound[k.0]] + row.via + [p.bound[k.1]]))
                  && (k.0 in p.bound && k.1 !in p.bound ==> HopsOf(p, row) == LinksOf([p.bound[k.0]] + row.via))
                  && (k.0 !in p.bound && k.1 in p.bound ==> HopsOf(p, row) == LinksOf(row.via + [p.bound[k.1]]))
                  && (k.0 !in p.bound && k.1 !in p.bound ==> HopsOf(p, row) == LinksOf(row.via)))
  {
    hide LinksOf;
    var source := AsList(SourceOf(p, PairOf(row)));
    assert source + row.via + [] == source + row.via && [] + row.via == row.via;
  }

  // The links the pair would be spread over without its path.
  ghost function DefaultLinks(live: Rates, src: Option<Node>, dst: Option<Node>): set<Link> {
    if src.None? || dst.None? then {} else set l | l in live && DefaultLink(live, src.value, dst.value, l)
  }

  method FindDefaultLinks(live: Rates, src: Option<Node>, dst: Option<Node>) returns (links: set<Link>)
    ensures links == DefaultLinks(live, src, dst)
  {
    links := {};
    if src.Some? && dst.Some? {
      links := ShortestLinks.ShortestLinks(live, src.value, dst.value);
      DefaultLinksAre(live, src.value, dst.value, links);
    }
  }

  lemma DefaultLinksAre(live: Rates, src: Node, dst: Node, links: set<Link>)
    requires src == dst ==> links == {}
    requires src != dst ==> forall l :: l in links <==> ShortestLinks.OnShortestPath(live, src, dst, l)
    ensures forall l: Link :: l in links <==> DefaultLink(live, src, dst, l)
    ensures forall l | l in links :: l in live
  {
    forall l: Link | l in links
      ensures l in live
    {
      var p, i :| ShortestLinks.ShortestPath(live, src, dst, p) && 0 <= i < |p| - 1 && l == (p[i], p[i + 1]);
    }
  }

  // Would every default link stay below the low mark with the pair on it?
  method HasRoomAgain(conf: Conf, capacity: Rates, rate: real, own: Rates, measured: Rates, live: Rates, src: Node,
                      dst: Node, congested: Rates) returns (room: bool)
    requires forall l | l in live :: l in capacity && live[l] == capacity[l]
    ensures room <==> RoomAgain(conf, rate, own, measured, live, src, dst, congested.Keys)
  {
    hide Part;
    var links := ShortestLinks.ShortestLinks(live, src, dst);
    DefaultLinksAre(live, src, dst, links);
    hide DefaultLink;
    room := links != {} && links !! congested.Keys
            && forall l | l in links :: Base(measured, own, l) + rate <= Part(conf.low, capacity[l]);
    if room {
      var l: Link :| l in links;
      assert DefaultLink(live, src, dst, l);
    }
  }

  // The floor below which a pair counts as idle on its path.
  method Floor(conf: Conf, capacity: Rates, hops: seq<Link>) returns (floor: real)
    ensures FloorIs(conf, capacity, hops, floor)
  {
    floor := 0.0;
    var least: Option<Link> := None;
    hide Part;
    for i := 0 to |hops|
      invariant least.None? ==> floor == 0.0 && forall j | 0 <= j < i :: hops[j] !in capacity
      invariant least.Some? ==> least.value in hops[..i] && least.value in capacity
      invariant least.Some? ==> forall j | 0 <= j < i && hops[j] in capacity :: capacity[least.value] <= capacity[hops[j]]
    {
      if hops[i] in capacity && (least.None? || capacity[hops[i]] < capacity[least.value]) {
        least := Some(hops[i]);
      }
    }
    if least.Some? {
      floor := Part(conf.minShare, capacity[least.value]);
    }
  }

  // ------------------------------------------------------------------
  // Congestion over all links
  // ------------------------------------------------------------------
  // A link's last measurement.
  ghost function LatestOf(s: seq<(Time, Option<real>)>): real {
    if s != [] && s[|s| - 1].1.Some? then s[|s| - 1].1.value else 0.0
  }

  ghost predicate CongestedIs(conf: Conf, capacity: Rates, series: map<Link, seq<(Time, Option<real>)>>,
                              linkMoved: map<Link, Time>, congested: Rates) {
    && (forall l :: l in congested <==> IsCongested(conf, capacity, series, linkMoved, l))
    && forall l | l in congested :: l in series && congested[l] == LatestOf(series[l])
  }

  lemma SamplesAreFresh(conf: Conf, capacity: Rates, series: map<Link, seq<(Time, Option<real>)>>, clock: Time, now: Time,
                        m: Memory, log: Log, congested: Rates)
    requires Sound(conf, capacity, clock, m, log) && CongestedIs(conf, capacity, series, m.linkMoved, congested)
    ensures var since := JudgedSince(conf, series, congested.Keys);
            congested.Keys <= since.Keys && HeatOk(capacity, congested) && FreshFor(now, since, log.actions)
  {
    SoundParts(conf, capacity, clock, m, log);
    hide Sound;
    forall l | l in congested
      ensures IsCongested(conf, capacity, series, m.linkMoved, l)
    {
    }
    var since := JudgedSince(conf, series, congested.Keys);
    forall i, l | 0 <= i < |log.actions| && log.actions[i].Placed? && l in log.actions[i].what.pr.links && l in since
      ensures since[l] > log.actions[i].at
    {
      assert IsCongested(conf, capacity, series, m.linkMoved, l);
      assert l in m.linkMoved && m.linkMoved[l] >= log.actions[i].at;
    }
  }
}
