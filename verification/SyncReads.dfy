// What a node's kernel holds after a sync or an addition, in the payload's own
// terms: which lists its routes push, and which first segments it may reach.

module SyncReads {
  import opened Wrappers
  import opened Csid
  import opened Sid
  import opened Payload
  import opened Kernel
  import opened EncapRoutes
  import opened Steering
  import opened Sync
  import opened Updates

  // The payload has this node send some packets to a node under `locator`
  // over the waypoints `transit`: a route's own, or a steered VM's.
  ghost predicate Carries(cfg: Config, d: Domain, desired: Desired, vms: set<PortId>, locator: Prefix, transit: seq<Address>) {
    || (exists i :: 0 <= i < |d.routes| && Sends(cfg, d, d.routes[i], locator, transit))
    || (exists p, x :: p in vms && Steers(desired, p, x, locator, transit))
  }

  predicate Sends(cfg: Config, d: Domain, r: Route, locator: Prefix, transit: seq<Address>) {
    && r.host != cfg.local && r.host in d.locators
    && locator == d.locators[r.host] && transit == SegmentsFor(r, cfg.local)
  }

  predicate Steers(desired: Desired, p: PortId, x: Dest, locator: Prefix, transit: seq<Address>) {
    p in desired && x in desired[p].routes && desired[p].routes[x] == (locator, transit)
  }

  // a is the first segment of such a list, and may be reached: nothing but
  // the node itself is on the way, or the edge filter covers it.
  ghost predicate MayReach(cfg: Config, f: nat, locator: Prefix, transit: seq<Address>, a: Address) {
    && Encodable(f, locator) && Pushed(cfg, f, locator, transit)[0] == a
    && (IsDirect(cfg, transit) || cfg.covers(a))
  }

  ghost predicate MustReach(cfg: Config, d: Domain, desired: Desired, vms: set<PortId>, a: Address) {
    exists locator, transit :: Carries(cfg, d, desired, vms, locator, transit) && MayReach(cfg, d.f, locator, transit, a)
  }

  // Table t sends x over `transit` to a node under `locator`.
  ghost predicate HoldsRoute(cfg: Config, st: State, f: nat, t: Table, x: Dest, locator: Prefix, transit: seq<Address>) {
    && Encodable(f, locator) && (t, x) in st.routes
    && IsEncapOf(cfg, f, locator, transit, st.routes[(t, x)])
  }

  ghost predicate IsEncapOf(cfg: Config, f: nat, locator: Prefix, transit: seq<Address>, r: EncapRoute)
    requires Encodable(f, locator)
  {
    && r.segments == Pushed(cfg, f, locator, transit)
    && cfg.devOf(r.segments[0]) == Some(r.dev)
    && (r.sealed <==> !IsDirect(cfg, transit) && !cfg.covers(r.segments[0]))
  }

  ghost predicate HasDevice(cfg: Config, f: nat, locator: Prefix, transit: seq<Address>) {
    Encodable(f, locator) && cfg.devOf(Pushed(cfg, f, locator, transit)[0]).Some?
  }

  // Route i is the last towards its prefix that leaves this node.
  predicate IsLast(cfg: Config, d: Domain, i: nat) {
    && i < |d.routes|
    && forall j | i < j < |d.routes| && d.routes[j].host != cfg.local && d.routes[j].host in d.locators ::
         d.routes[j].prefix != d.routes[i].prefix
  }

  // The domain's rules are those for what the payload has the node push.
  ghost predicate RulesRead(cfg: Config, d: Domain, st: State, desired: Desired, vms: set<PortId>) {
    forall a: Address :: (d.f, a) in st.sidRules <==> MustReach(cfg, d, desired, vms, a)
  }

  // Its VRF holds a route of every remote prefix a device leads to, and none
  // of any other prefix.
  ghost predicate VrfReads(cfg: Config, d: Domain, st: State) {
    && (forall i: nat, locator, transit | IsLast(cfg, d, i) && Sends(cfg, d, d.routes[i], locator, transit)
                                  && HasDevice(cfg, d.f, locator, transit) ::
          HoldsRoute(cfg, st, d.f, VrfTable(cfg, d.f), d.routes[i].prefix, locator, transit))
    && (forall x | (VrfTable(cfg, d.f), x) in st.routes ::
          exists i :: 0 <= i < |d.routes| && d.routes[i].host != cfg.local && d.routes[i].host in d.locators
                   && d.routes[i].prefix == x)
  }

  // The table of every VM that has one holds exactly the VM's routes.
  ghost predicate TablesRead(cfg: Config, d: Domain, st: State, desired: Desired, claimed: Claims) {
    && (forall p, x, locator, transit | p in claimed && Steers(desired, p, x, locator, transit)
                                     && HasDevice(cfg, d.f, locator, transit) ::
          HoldsRoute(cfg, st, d.f, claimed[p], x, locator, transit))
    && (forall p, x | p in claimed && (claimed[p], x) in st.routes ::
          exists locator, transit :: Steers(desired, p, x, locator, transit) && HasDevice(cfg, d.f, locator, transit))
  }

  ghost predicate KernelReads(cfg: Config, d: Domain, st0: State, st: State, desired: Desired, claimed: Claims) {
    && VmsRead(cfg, d, desired) && TablesSuffice(st0, desired, claimed)
    && RulesRead(cfg, d, st, desired, claimed.Keys) && VrfReads(cfg, d, st) && TablesRead(cfg, d, st, desired, claimed)
  }

  // ------------------------------------------------------------------
  // A list at a time
  // ------------------------------------------------------------------
  lemma SentIs(cfg: Config, d: Domain, i: nat, locator: Prefix, transit: seq<Address>)
    requires ValidDomain(d) && i < |d.routes| && Sends(cfg, d, d.routes[i], locator, transit)
    ensures IsRemote(cfg, d.locators, d.routes[i]) && Encodable(d.f, locator)
    ensures EncapFor(cfg, d.f, d.locators, d.routes[i]) == EncapOf(cfg, d.f, locator, transit)
  {
    hide EncapOf, SegmentsFor;
  }

  lemma SteeredIs(cfg: Config, f: nat, desired: Desired, p: PortId, x: Dest, locator: Prefix, transit: seq<Address>)
    requires DesiredOk(f, desired) && Steers(desired, p, x, locator, transit)
    ensures DesiredEncodable(f, desired[p]) && Encodable(f, locator)
    ensures SteerEncap(cfg, f, desired[p], x) == EncapOf(cfg, f, locator, transit)
  {
    hide EncapOf;
  }

  // The rules of one list.
  lemma RuleOfSent(cfg: Config, d: Domain, i: nat, locator: Prefix, transit: seq<Address>, a: Address)
    requires ValidDomain(d) && i < |d.routes| && Sends(cfg, d, d.routes[i], locator, transit)
    ensures MayReach(cfg, d.f, locator, transit, a) ==> a in RuleSids(cfg, d.f, d.locators, d.routes)
  {
    SentIs(cfg, d, i, locator, transit);
    EncapIs(cfg, d.f, locator, transit);
    hide EncapOf, EncapFor, Pushed, IsDirect, Encodable, AllEncodable, ValidDomain;
  }

  lemma SentOfRule(cfg: Config, d: Domain, a: Address) returns (i: nat, locator: Prefix, transit: seq<Address>)
    requires ValidDomain(d) && a in RuleSids(cfg, d.f, d.locators, d.routes)
    ensures i < |d.routes| && Sends(cfg, d, d.routes[i], locator, transit) && MayReach(cfg, d.f, locator, transit, a)
  {
    i :| 0 <= i < |d.routes| && IsRemote(cfg, d.locators, d.routes[i])
      && !EncapFor(cfg, d.f, d.locators, d.routes[i]).sealed
      && EncapFor(cfg, d.f, d.locators, d.routes[i]).segments[0] == a;
    locator, transit := d.locators[d.routes[i].host], SegmentsFor(d.routes[i], cfg.local);
    SentIs(cfg, d, i, locator, transit);
    EncapIs(cfg, d.f, locator, transit);
    hide EncapOf, EncapFor, Pushed, IsDirect, Encodable, AllEncodable, ValidDomain, SegmentsFor, RuleSids;
  }

  lemma RuleOfSteered(cfg: Config, f: nat, desired: Desired, vms: set<PortId>, p: PortId, x: Dest, locator: Prefix,
                      transit: seq<Address>, a: Address)
    requires DesiredOk(f, desired) && vms <= desired.Keys && p in vms && Steers(desired, p, x, locator, transit)
    ensures MayReach(cfg, f, locator, transit, a) ==> a in AllSteerSids(cfg, f, desired, vms)
  {
    SteeredIs(cfg, f, desired, p, x, locator, transit);
    EncapIs(cfg, f, locator, transit);
    hide EncapOf, SteerEncap, Pushed, IsDirect, Encodable, DesiredEncodable, DesiredOk;
    if MayReach(cfg, f, locator, transit, a) {
      assert a in SteerSids(cfg, f, desired[p]);
    }
  }

  lemma SteeredOfRule(cfg: Config, f: nat, desired: Desired, vms: set<PortId>, a: Address)
    returns (p: PortId, x: Dest, locator: Prefix, transit: seq<Address>)
    requires DesiredOk(f, desired) && vms <= desired.Keys && a in AllSteerSids(cfg, f, desired, vms)
    ensures p in vms && Steers(desired, p, x, locator, transit) && MayReach(cfg, f, locator, transit, a)
  {
    p :| p in vms && a in SteerSids(cfg, f, desired[p]);
    var e := desired[p];
    x :| x in e.routes && !SteerEncap(cfg, f, e, x).sealed && SteerEncap(cfg, f, e, x).segments[0] == a;
    locator, transit := e.routes[x].0, e.routes[x].1;
    SteeredIs(cfg, f, desired, p, x, locator, transit);
    EncapIs(cfg, f, locator, transit);
    hide EncapOf, SteerEncap, Pushed, IsDirect, Encodable, DesiredEncodable, DesiredOk, AllSteerSids, SteerSids;
  }

  // The rules of all of them.
  lemma NeededIff(cfg: Config, d: Domain, desired: Desired, vms: set<PortId>, a: Address)
    requires ValidDomain(d) && DesiredOk(d.f, desired) && vms <= desired.Keys
    ensures a in RuleSids(cfg, d.f, d.locators, d.routes) + AllSteerSids(cfg, d.f, desired, vms)
       <==> MustReach(cfg, d, desired, vms, a)
  {
    ValidParts(d);
    hide *;
    if a in RuleSids(cfg, d.f, d.locators, d.routes) {
      var i, locator, transit := SentOfRule(cfg, d, a);
      SentCarries(cfg, d, desired, vms, i, locator, transit);
      CarriedIs(cfg, d, desired, vms, locator, transit, a);
    } else if a in AllSteerSids(cfg, d.f, desired, vms) {
      var p, x, locator, transit := SteeredOfRule(cfg, d.f, desired, vms, a);
      SteerCarries(cfg, d, desired, vms, p, x, locator, transit);
      CarriedIs(cfg, d, desired, vms, locator, transit, a);
    } else if MustReach(cfg, d, desired, vms, a) {
      var locator, transit := CarriedOf(cfg, d, desired, vms, a);
      CarriedHasRule(cfg, d, desired, vms, locator, transit, a);
    }
  }

  lemma SentCarries(cfg: Config, d: Domain, desired: Desired, vms: set<PortId>, i: nat, locator: Prefix, transit: seq<Address>)
    requires i < |d.routes| && Sends(cfg, d, d.routes[i], locator, transit)
    ensures Carries(cfg, d, desired, vms, locator, transit)
  {
    hide Sends, Steers;
  }

  lemma SteerCarries(cfg: Config, d: Domain, desired: Desired, vms: set<PortId>, p: PortId, x: Dest, locator: Prefix,
                     transit: seq<Address>)
    requires p in vms && Steers(desired, p, x, locator, transit)
    ensures Carries(cfg, d, desired, vms, locator, transit)
  {
    hide Sends, Steers;
  }

  lemma CarriedIs(cfg: Config, d: Domain, desired: Desired, vms: set<PortId>, locator: Prefix, transit: seq<Address>, a: Address)
    requires Carries(cfg, d, desired, vms, locator, transit) && MayReach(cfg, d.f, locator, transit, a)
    ensures MustReach(cfg, d, desired, vms, a)
  {
    hide Carries, MayReach;
  }

  lemma CarriedOf(cfg: Config, d: Domain, desired: Desired, vms: set<PortId>, a: Address)
    returns (locator: Prefix, transit: seq<Address>)
    requires MustReach(cfg, d, desired, vms, a)
    ensures Carries(cfg, d, desired, vms, locator, transit) && MayReach(cfg, d.f, locator, transit, a)
  {
    hide Carries, MayReach;
    locator, transit :| Carries(cfg, d, desired, vms, locator, transit) && MayReach(cfg, d.f, locator, transit, a);
  }

  lemma CarriedHasRule(cfg: Config, d: Domain, desired: Desired, vms: set<PortId>, locator: Prefix, transit: seq<Address>, a: Address)
    requires ValidDomain(d) && DesiredOk(d.f, desired) && vms <= desired.Keys
    requires Carries(cfg, d, desired, vms, locator, transit) && MayReach(cfg, d.f, locator, transit, a)
    ensures a in RuleSids(cfg, d.f, d.locators, d.routes) + AllSteerSids(cfg, d.f, desired, vms)
  {
    hide Sends, Steers, MayReach, RuleSids, AllSteerSids, ValidDomain, DesiredOk;
    if i :| 0 <= i < |d.routes| && Sends(cfg, d, d.routes[i], locator, transit) {
      RuleOfSent(cfg, d, i, locator, transit, a);
    } else {
      var p, x :| p in vms && Steers(desired, p, x, locator, transit);
      RuleOfSteered(cfg, d.f, desired, vms, p, x, locator, transit, a);
    }
  }

  // The route of one list.
  lemma AsRouteIs(cfg: Config, f: nat, locator: Prefix, transit: seq<Address>)
    requires Encodable(f, locator)
    ensures EncapOf(cfg, f, locator, transit).dev.Some? <==> HasDevice(cfg, f, locator, transit)
    ensures HasDevice(cfg, f, locator, transit) ==>
              IsEncapOf(cfg, f, locator, transit, AsRoute(EncapOf(cfg, f, locator, transit)))
  {
    EncapIs(cfg, f, locator, transit);
    hide EncapOf, Pushed, IsDirect, Encodable;
  }

  lemma LastIsInstalled(cfg: Config, d: Domain, i: nat, locator: Prefix, transit: seq<Address>)
    requires ValidDomain(d) && IsLast(cfg, d, i) && Sends(cfg, d, d.routes[i], locator, transit)
    requires HasDevice(cfg, d.f, locator, transit)
    ensures var m := Installed(cfg, d.f, d.locators, d.routes);
            && d.routes[i].prefix in m && Encodable(d.f, locator)
            && IsEncapOf(cfg, d.f, locator, transit, m[d.routes[i].prefix])
            && d.routes[i].prefix in Wanted(cfg, d.locators, d.routes)
  {
    SentIs(cfg, d, i, locator, transit);
    AsRouteIs(cfg, d.f, locator, transit);
    hide EncapOf, EncapFor, Pushed, IsDirect, Encodable, AllEncodable, HasDevice, IsEncapOf, Installed, AsRoute;
    InstalledIsEncoding(cfg, d.f, d.locators, d.routes, i);
  }

  lemma SteeredIsRouted(cfg: Config, f: nat, desired: Desired, p: PortId, x: Dest, locator: Prefix, transit: seq<Address>)
    requires DesiredOk(f, desired) && Steers(desired, p, x, locator, transit)
    ensures x in SteerRoutes(cfg, f, desired[p]) <==> HasDevice(cfg, f, locator, transit)
    ensures x in SteerRoutes(cfg, f, desired[p]) ==>
              Encodable(f, locator) && IsEncapOf(cfg, f, locator, transit, SteerRoutes(cfg, f, desired[p])[x])
  {
    SteeredIs(cfg, f, desired, p, x, locator, transit);
    AsRouteIs(cfg, f, locator, transit);
    hide EncapOf, SteerEncap, Encodable, HasDevice, IsEncapOf, AsRoute, DesiredOk;
  }

  lemma TableHolds(cfg: Config, st: State, f: nat, t: Table, x: Dest, locator: Prefix, transit: seq<Address>)
    requires Encodable(f, locator) && x in RoutesIn(st, t) && IsEncapOf(cfg, f, locator, transit, RoutesIn(st, t)[x])
    ensures HoldsRoute(cfg, st, f, t, x, locator, transit)
  {
    hide IsEncapOf, Encodable;
  }

  // ------------------------------------------------------------------
  // Which VMs are steered here
  // ------------------------------------------------------------------
  // The i-th route steers p on this node: p's path names it, p is bound here,
  // and the gateway port of p's network and the way to the route are known.
  predicate SteersAt(cfg: Config, d: Domain, p: PortId, i: nat) {
    && i < |d.routes| && p in d.routes[i].bySourcePort && d.routes[i].host in d.locators
    && d.routes[i].bySourcePort[p].host == cfg.local && d.routes[i].bySourcePort[p].network in d.gateways
  }

  // The first such route says where the VM's traffic comes in and its
  // addresses, the last towards a prefix what is pushed for it.
  ghost predicate VmReads(cfg: Config, d: Domain, p: PortId, e: Option<Steered>) {
    && (e.Some? <==> HasSteering(cfg, d, p))
    && (e.Some? ==>
          && FirstSays(cfg, d, p, e.value)
          && (forall x :: x in e.value.routes <==> IsTowards(cfg, d, p, x))
          && LastsSay(cfg, d, p, e.value))
  }

  ghost predicate VmsRead(cfg: Config, d: Domain, desired: Desired) {
    forall p: PortId :: VmReads(cfg, d, p, if p in desired then Some(desired[p]) else None)
  }

  ghost predicate HasSteering(cfg: Config, d: Domain, p: PortId) {
    exists i: nat :: SteersAt(cfg, d, p, i)
  }

  ghost predicate IsTowards(cfg: Config, d: Domain, p: PortId, x: Dest) {
    exists i: nat :: i < |d.routes| && SteersAt(cfg, d, p, i) && d.routes[i].prefix == x
  }

  ghost predicate FirstSays(cfg: Config, d: Domain, p: PortId, e: Steered) {
    exists i: nat ::
      && SteersAt(cfg, d, p, i) && (forall j: nat | j < i :: !SteersAt(cfg, d, p, j))
      && e.iif == d.gateways[d.routes[i].bySourcePort[p].network] && e.prefixes == d.routes[i].bySourcePort[p].prefixes
  }

  ghost predicate LastsSay(cfg: Config, d: Domain, p: PortId, e: Steered) {
    forall i: nat | SteersAt(cfg, d, p, i) && (forall j: nat | i < j && SteersAt(cfg, d, p, j) :: d.routes[j].prefix != d.routes[i].prefix) ::
      && d.routes[i].prefix in e.routes
      && e.routes[d.routes[i].prefix] == (d.locators[d.routes[i].host], d.routes[i].bySourcePort[p].segments)
  }

  function Less(d: Domain): Domain
    requires d.routes != []
  {
    d.(routes := d.routes[..|d.routes| - 1])
  }

  // The i-th route as the shorter payload has it.
  lemma SteersLess(cfg: Config, d: Domain, p: PortId, i: nat)
    requires d.routes != []
    ensures SteersAt(cfg, Less(d), p, i) <==> SteersAt(cfg, d, p, i) && i < |d.routes| - 1
    ensures i < |d.routes| - 1 ==> Less(d).routes[i] == d.routes[i]
  {
  }

  lemma HasSteeringStep(cfg: Config, d: Domain, p: PortId)
    requires d.routes != []
    ensures HasSteering(cfg, d, p) <==> HasSteering(cfg, Less(d), p) || SteersAt(cfg, d, p, |d.routes| - 1)
  {
    hide SteersAt, Less;
    if i: nat :| SteersAt(cfg, d, p, i) {
      SteersLess(cfg, d, p, i);
      SteersWithin(cfg, d, p, i);
    }
    if i: nat :| SteersAt(cfg, Less(d), p, i) {
      SteersLess(cfg, d, p, i);
    }
  }

  lemma SteersWithin(cfg: Config, d: Domain, p: PortId, i: nat)
    requires SteersAt(cfg, d, p, i)
    ensures i < |d.routes|
  {
  }

  lemma IsTowardsStep(cfg: Config, d: Domain, p: PortId, x: Dest)
    requires d.routes != []
    ensures IsTowards(cfg, d, p, x) <==>
              IsTowards(cfg, Less(d), p, x) || (SteersAt(cfg, d, p, |d.routes| - 1) && d.routes[|d.routes| - 1].prefix == x)
  {
    hide SteersAt;
    if i: nat :| i < |d.routes| && SteersAt(cfg, d, p, i) && d.routes[i].prefix == x {
      SteersLess(cfg, d, p, i);
    }
    if i: nat :| i < |Less(d).routes| && SteersAt(cfg, Less(d), p, i) && Less(d).routes[i].prefix == x {
      SteersLess(cfg, d, p, i);
    }
  }

  // An entry keeps what its first route said.
  lemma FirstStays(cfg: Config, d: Domain, p: PortId, before: Steered, e: Steered)
    requires d.routes != [] && FirstSays(cfg, Less(d), p, before) && e.iif == before.iif && e.prefixes == before.prefixes
    ensures FirstSays(cfg, d, p, e)
  {
    var i: nat :| SteersAt(cfg, Less(d), p, i) && (forall j: nat | j < i :: !SteersAt(cfg, Less(d), p, j))
               && before.iif == Less(d).gateways[Less(d).routes[i].bySourcePort[p].network]
               && before.prefixes == Less(d).routes[i].bySourcePort[p].prefixes;
    SteersLess(cfg, d, p, i);
    hide SteersAt;
    forall j: nat | j < i
      ensures !SteersAt(cfg, d, p, j)
    {
      SteersLess(cfg, d, p, j);
    }
  }

  lemma FirstBegins(cfg: Config, d: Domain, p: PortId, e: Steered)
    requires d.routes != [] && !HasSteering(cfg, Less(d), p) && SteersAt(cfg, d, p, |d.routes| - 1)
    requires var vm := d.routes[|d.routes| - 1].bySourcePort[p]; e.iif == d.gateways[vm.network] && e.prefixes == vm.prefixes
    ensures FirstSays(cfg, d, p, e)
  {
    hide SteersAt;
    forall j: nat | j < |d.routes| - 1
      ensures !SteersAt(cfg, d, p, j)
    {
      SteersLess(cfg, d, p, j);
    }
  }

  // What the last routes said stands until the same prefix comes again.
  lemma LastsStep(cfg: Config, d: Domain, p: PortId, before: Steered, e: Steered)
    requires d.routes != [] && LastsSay(cfg, Less(d), p, before)
    requires var n := |d.routes| - 1;
             if SteersAt(cfg, d, p, n)
             then e.routes == before.routes[d.routes[n].prefix := (d.locators[d.routes[n].host], d.routes[n].bySourcePort[p].segments)]
             else e.routes == before.routes
    ensures LastsSay(cfg, d, p, e)
  {
    var n := |d.routes| - 1;
    forall i: nat | SteersAt(cfg, d, p, i)
                    && (forall j: nat | i < j && SteersAt(cfg, d, p, j) :: d.routes[j].prefix != d.routes[i].prefix)
      ensures d.routes[i].prefix in e.routes
      ensures e.routes[d.routes[i].prefix] == (d.locators[d.routes[i].host], d.routes[i].bySourcePort[p].segments)
    {
      hide SteersAt, LastsSay;
      SteersWithin(cfg, d, p, i);
      if i < n {
        SteersLess(cfg, d, p, i);
        forall j: nat | i < j && SteersAt(cfg, Less(d), p, j)
          ensures Less(d).routes[j].prefix != d.routes[i].prefix
        {
          SteersLess(cfg, d, p, j);
        }
        LastIs(cfg, Less(d), p, before, i);
      }
    }
    hide SteersAt;
  }

  lemma LastIs(cfg: Config, d: Domain, p: PortId, e: Steered, i: nat)
    requires LastsSay(cfg, d, p, e) && SteersAt(cfg, d, p, i)
    requires forall j: nat | i < j && SteersAt(cfg, d, p, j) :: d.routes[j].prefix != d.routes[i].prefix
    ensures d.routes[i].prefix in e.routes
    ensures e.routes[d.routes[i].prefix] == (d.locators[d.routes[i].host], d.routes[i].bySourcePort[p].segments)
  {
  }

  lemma NoneSaid(cfg: Config, d: Domain, p: PortId, e: Steered)
    requires !HasSteering(cfg, d, p)
    ensures LastsSay(cfg, d, p, e) && forall x :: !IsTowards(cfg, d, p, x)
  {
    hide SteersAt;
  }

  lemma {:induction false} VmIsRead(cfg: Config, d: Domain, p: PortId)
    ensures VmReads(cfg, d, p, DesiredFor(cfg, d.locators, d.gateways, d.routes, p))
    decreases |d.routes|
  {
    var e := DesiredFor(cfg, d.locators, d.gateways, d.routes, p);
    if d.routes == [] {
      assert !HasSteering(cfg, d, p);
    } else {
      var before := DesiredFor(cfg, Less(d).locators, Less(d).gateways, Less(d).routes, p);
      VmIsRead(cfg, Less(d), p);
      DesiredStep(cfg, d, p);
      hide *;
      VmStep(cfg, d, p, before, e);
    }
  }

  // What one more route makes of an entry.
  ghost predicate IsStep(cfg: Config, d: Domain, p: PortId, before: Option<Steered>, e: Option<Steered>)
    requires d.routes != []
  {
    var n := |d.routes| - 1;
    if SteersAt(cfg, d, p, n) then
      var vm := d.routes[n].bySourcePort[p];
      && e.Some?
      && e.value.iif == (if before.Some? then before.value.iif else d.gateways[vm.network])
      && e.value.prefixes == (if before.Some? then before.value.prefixes else vm.prefixes)
      && e.value.routes == (if before.Some? then before.value.routes else map[])
                           [d.routes[n].prefix := (d.locators[d.routes[n].host], vm.segments)]
    else e == before
  }

  lemma VmStep(cfg: Config, d: Domain, p: PortId, before: Option<Steered>, e: Option<Steered>)
    requires d.routes != [] && VmReads(cfg, Less(d), p, before) && IsStep(cfg, d, p, before, e)
    ensures VmReads(cfg, d, p, e)
  {
    HasSteeringStep(cfg, d, p);
    if e.Some? {
      EntryStep(cfg, d, p, before, e.value);
      hide SteersAt, HasSteering, FirstSays, LastsSay, IsTowards;
    }
  }

  lemma EntryStep(cfg: Config, d: Domain, p: PortId, before: Option<Steered>, e: Steered)
    requires d.routes != [] && VmReads(cfg, Less(d), p, before) && IsStep(cfg, d, p, before, Some(e))
    ensures FirstSays(cfg, d, p, e) && LastsSay(cfg, d, p, e)
    ensures forall x :: x in e.routes <==> IsTowards(cfg, d, p, x)
  {
    var base := if before.Some? then before.value else Steered(e.iif, e.prefixes, map[]);
    hide SteersAt, HasSteering, FirstSays, LastsSay, IsTowards;
    if before.Some? {
      FirstStays(cfg, d, p, base, e);
    } else {
      NoneSaid(cfg, Less(d), p, base);
      FirstBegins(cfg, d, p, e);
    }
    LastsStep(cfg, d, p, base, e);
    forall x
      ensures x in e.routes <==> IsTowards(cfg, d, p, x)
    {
      IsTowardsStep(cfg, d, p, x);
    }
  }

  lemma DesiredStep(cfg: Config, d: Domain, p: PortId)
    requires d.routes != []
    ensures IsStep(cfg, d, p, DesiredFor(cfg, Less(d).locators, Less(d).gateways, Less(d).routes, p),
                   DesiredFor(cfg, d.locators, d.gateways, d.routes, p))
  {
  }

  // ------------------------------------------------------------------
  // Tables enough
  // ------------------------------------------------------------------
  // While the steer tables suffice, every VM gets one.
  ghost predicate TablesSuffice(st0: State, desired: Desired, claimed: Claims) {
    |desired| + |UsedTables(st0)| <= STEER_TABLE_SLOTS ==> claimed.Keys == desired.Keys
  }

  lemma SlotsAre(base: nat, n: nat) returns (slots: set<Table>)
    ensures (forall t: Table :: t in slots <==> base <= t < base + n) && |slots| == n
  {
    slots := {};
    for i := 0 to n
      invariant (forall t: Table :: t in slots <==> base <= t < base + i) && |slots| == i
    {
      slots := slots + {base + i};
    }
  }

  lemma FreeEnough(cfg: Config, st: State)
    ensures |FreeTables(cfg, st)| + |UsedTables(st)| >= STEER_TABLE_SLOTS
  {
    var slots := SlotsAre(SteerBase(cfg), STEER_TABLE_SLOTS);
    var free, used := FreeTables(cfg, st), UsedTables(st);
    assert slots <= free + used;
    Part(slots, free + used);
    assert |free + used| <= |free| + |used|;
  }

  lemma Part(a: set<Table>, b: set<Table>)
    requires a <= b
    ensures |a| <= |b|
  {
    assert b == a + (b - a);
  }

  lemma SufficeIs(cfg: Config, st0: State, desired: Desired, claimed: Claims)
    requires NobodyLeftOut(FreeTables(cfg, st0), desired, claimed)
    ensures TablesSuffice(st0, desired, claimed)
  {
    FreeEnough(cfg, st0);
    hide FreeTables, UsedTables;
  }

  lemma AllVmsRead(cfg: Config, d: Domain, desired: Desired)
    requires IsDesired(cfg, d.locators, d.gateways, d.routes, desired)
    ensures VmsRead(cfg, d, desired)
  {
    hide VmReads, DesiredFor;
    forall p: PortId
      ensures VmReads(cfg, d, p, if p in desired then Some(desired[p]) else None)
    {
      VmIsRead(cfg, d, p);
      assert Steering.Lookup(desired, p) == DesiredFor(cfg, d.locators, d.gateways, d.routes, p);
    }
  }

  // ------------------------------------------------------------------
  // A full sync
  // ------------------------------------------------------------------
  lemma SyncedReads(cfg: Config, d: Domain, st0: State, st: State, desired: Desired, claimed: Claims)
    requires ValidDomain(d) && DesiredOk(d.f, desired) && claimed.Keys <= desired.Keys
    requires Synced(cfg, d, st0, st, desired, claimed)
    requires IsDesired(cfg, d.locators, d.gateways, d.routes, desired)
    requires NobodyLeftOut(FreeTables(cfg, st0), desired, claimed)
    ensures KernelReads(cfg, d, st0, st, desired, claimed)
  {
    SyncedRules(cfg, d, st0, st, desired, claimed);
    SyncedVrf(cfg, d, st0, st, desired, claimed);
    SyncedTables(cfg, d, st0, st, desired, claimed);
    AllVmsRead(cfg, d, desired);
    SufficeIs(cfg, st0, desired, claimed);
    hide Synced, RulesRead, VrfReads, TablesRead, VmsRead, TablesSuffice, IsDesired, NobodyLeftOut;
  }

  lemma SyncReadsPayload(cfg: Config, d: Domain, st0: State, st: State, trace: seq<State>, n: nat, desired: Desired,
                         claimed: Claims)
    requires ValidDomain(d) && FullSync(cfg, d, st0, st, trace, n, desired, claimed)
    ensures KernelReads(cfg, d, st0, st, desired, claimed)
  {
    hide KernelReads, NobodyLeftOut, Synced, StepsSafe, ClaimsOk, Reclaims, IsDesired, DesiredOk, ValidDomain;
    SyncedReads(cfg, d, st0, st, desired, claimed);
  }

  lemma SyncedRules(cfg: Config, d: Domain, st0: State, st: State, desired: Desired, claimed: Claims)
    requires ValidDomain(d) && DesiredOk(d.f, desired) && claimed.Keys <= desired.Keys
    requires Synced(cfg, d, st0, st, desired, claimed)
    ensures RulesRead(cfg, d, st, desired, claimed.Keys)
  {
    hide RoutesIn, Installed, Kept, Wanted, SteerRoutes, RuleSids, AllSteerSids, OwnRule, OwnTables, MustReach, DesiredOk, ValidDomain;
    forall a: Address
      ensures (d.f, a) in st.sidRules <==> MustReach(cfg, d, desired, claimed.Keys, a)
    {
      NeededIff(cfg, d, desired, claimed.Keys, a);
    }
  }

  lemma SyncedVrf(cfg: Config, d: Domain, st0: State, st: State, desired: Desired, claimed: Claims)
    requires ValidDomain(d) && DesiredOk(d.f, desired) && claimed.Keys <= desired.Keys
    requires Synced(cfg, d, st0, st, desired, claimed)
    ensures VrfReads(cfg, d, st)
  {
    VrfIs(cfg, d, st0, st, desired, claimed);
    ValidParts(d);
    hide Sends, IsLast, HasDevice, HoldsRoute, Synced, Installed, Wanted, DesiredOk, ValidDomain, RoutesIn;
    var vrf, m := VrfTable(cfg, d.f), Installed(cfg, d.f, d.locators, d.routes);
    forall i: nat, locator, transit | IsLast(cfg, d, i) && Sends(cfg, d, d.routes[i], locator, transit)
                                    && HasDevice(cfg, d.f, locator, transit)
      ensures HoldsRoute(cfg, st, d.f, vrf, d.routes[i].prefix, locator, transit)
    {
      hide *;
      LastIsInstalled(cfg, d, i, locator, transit);
      TableHolds(cfg, st, d.f, vrf, d.routes[i].prefix, locator, transit);
    }
    forall x | (vrf, x) in st.routes
      ensures exists i :: 0 <= i < |d.routes| && d.routes[i].host != cfg.local && d.routes[i].host in d.locators
                       && d.routes[i].prefix == x
    {
      RouteIsIn(st, vrf, x);
      WantedIs(cfg, d, x);
    }
  }

  lemma RouteIsIn(st: State, t: Table, x: Dest)
    requires (t, x) in st.routes
    ensures x in RoutesIn(st, t)
  {
  }

  lemma WantedIs(cfg: Config, d: Domain, x: Dest)
    requires x in Wanted(cfg, d.locators, d.routes)
    ensures exists i :: 0 <= i < |d.routes| && d.routes[i].host != cfg.local && d.routes[i].host in d.locators
                     && d.routes[i].prefix == x
  {
  }

  lemma VrfIs(cfg: Config, d: Domain, st0: State, st: State, desired: Desired, claimed: Claims)
    requires ValidDomain(d) && DesiredOk(d.f, desired) && claimed.Keys <= desired.Keys
    requires Synced(cfg, d, st0, st, desired, claimed)
    ensures var m, now := Installed(cfg, d.f, d.locators, d.routes), RoutesIn(st, VrfTable(cfg, d.f));
            && (forall x | x in m && x in Wanted(cfg, d.locators, d.routes) :: x in now && now[x] == m[x])
            && (forall x | x in now :: x in Wanted(cfg, d.locators, d.routes))
  {
    hide RoutesIn, Installed, Wanted, SteerRoutes, NeededSids, OwnRule, OwnTables, DesiredOk, ValidDomain;
  }

  lemma SyncedTables(cfg: Config, d: Domain, st0: State, st: State, desired: Desired, claimed: Claims)
    requires ValidDomain(d) && DesiredOk(d.f, desired) && claimed.Keys <= desired.Keys
    requires Synced(cfg, d, st0, st, desired, claimed)
    ensures TablesRead(cfg, d, st, desired, claimed)
  {
    assert forall p | p in claimed :: RoutesIn(st, claimed[p]) == SteerRoutes(cfg, d.f, desired[p]);
    hide Synced, DesiredOk, ValidDomain, SteerRoutes;
    forall p, x, locator, transit | p in claimed && Steers(desired, p, x, locator, transit)
                                  && HasDevice(cfg, d.f, locator, transit)
      ensures HoldsRoute(cfg, st, d.f, claimed[p], x, locator, transit)
    {
      hide *;
      SteeredIsRouted(cfg, d.f, desired, p, x, locator, transit);
      TableHolds(cfg, st, d.f, claimed[p], x, locator, transit);
    }
    forall p, x | p in claimed && (claimed[p], x) in st.routes
      ensures exists locator, transit :: Steers(desired, p, x, locator, transit) && HasDevice(cfg, d.f, locator, transit)
    {
      assert x in RoutesIn(st, claimed[p]);
      hide RoutesIn, HasDevice;
      RoutedIsSteered(cfg, d.f, desired, p, x);
    }
    hide Steers, HasDevice, HoldsRoute, RoutesIn;
  }

  lemma RoutedIsSteered(cfg: Config, f: nat, desired: Desired, p: PortId, x: Dest)
    requires DesiredOk(f, desired) && p in desired && DesiredEncodable(f, desired[p]) && x in SteerRoutes(cfg, f, desired[p])
    ensures exists locator, transit :: Steers(desired, p, x, locator, transit) && HasDevice(cfg, f, locator, transit)
  {
    var locator, transit := desired[p].routes[x].0, desired[p].routes[x].1;
    assert Steers(desired, p, x, locator, transit);
    hide DesiredOk, SteerRoutes, HasDevice;
    SteeredIsRouted(cfg, f, desired, p, x, locator, transit);
  }

  // ------------------------------------------------------------------
  // An addition
  // ------------------------------------------------------------------
  // Prefixes named as this node's own have no route; of the others the last
  // remote route named holds if a device leads to it, and what is not named
  // stays as it was. Rules are only added, those for what is named.
  ghost predicate AddReads(cfg: Config, d: Domain, st0: State, st: State, desired: Desired, claimed: Claims) {
    && VmsRead(cfg, d, desired) && TablesSuffice(st0, desired, claimed)
    && (forall a: Address :: (d.f, a) in st.sidRules <==>
          (d.f, a) in st0.sidRules || MustReach(cfg, d, desired, claimed.Keys, a))
    && (forall x: Dest | NamedLocal(cfg, d, x) :: (VrfTable(cfg, d.f), x) !in st.routes)
    && (forall i: nat, locator, transit | IsLast(cfg, d, i) && Sends(cfg, d, d.routes[i], locator, transit)
                                        && HasDevice(cfg, d.f, locator, transit) && !NamedLocal(cfg, d, d.routes[i].prefix) ::
          HoldsRoute(cfg, st, d.f, VrfTable(cfg, d.f), d.routes[i].prefix, locator, transit))
    && (forall p, x, locator, transit | p in claimed && Steers(desired, p, x, locator, transit)
                                     && HasDevice(cfg, d.f, locator, transit) ::
          HoldsRoute(cfg, st, d.f, claimed[p], x, locator, transit))
  }

  predicate NamedLocal(cfg: Config, d: Domain, x: Dest) {
    exists i :: 0 <= i < |d.routes| && d.routes[i].host == cfg.local && d.routes[i].prefix == x
  }

  lemma AddedReads(cfg: Config, d: Domain, st0: State, st: State, desired: Desired, claimed: Claims)
    requires ValidDomain(d) && DesiredOk(d.f, desired) && claimed.Keys <= desired.Keys
    requires Added(cfg, d, st0, st, desired, claimed) && IsDesired(cfg, d.locators, d.gateways, d.routes, desired)
    requires NobodyLeftOut(FreeTables(cfg, st0), desired, claimed)
    ensures AddReads(cfg, d, st0, st, desired, claimed)
  {
    hide *;
    AllVmsRead(cfg, d, desired);
    SufficeIs(cfg, st0, desired, claimed);
    AddedRules(cfg, d, st0, st, desired, claimed);
    AddedVrf(cfg, d, st0, st, desired, claimed);
    AddedTables(cfg, d, st0, st, desired, claimed);
    AddReadsFrom(cfg, d, st0, st, desired, claimed);
  }

  lemma AddReadsPayload(cfg: Config, d: Domain, st0: State, st: State, trace: seq<State>, n: nat, desired: Desired,
                        claimed: Claims)
    requires ValidDomain(d) && FullAdd(cfg, d, st0, st, trace, n, desired, claimed)
    ensures AddReads(cfg, d, st0, st, desired, claimed)
  {
    hide AddReads, NobodyLeftOut, FreeTables, TablesOf, Reclaims, Added, AddStepsSafe, ClaimsOk, IsDesired, DesiredOk, ValidDomain, VrfsSafe;
    AddedReads(cfg, d, st0, st, desired, claimed);
  }

  lemma AddReadsFrom(cfg: Config, d: Domain, st0: State, st: State, desired: Desired, claimed: Claims)
    requires VmsRead(cfg, d, desired) && TablesSuffice(st0, desired, claimed)
    requires forall a: Address :: (d.f, a) in st.sidRules <==>
               (d.f, a) in st0.sidRules || MustReach(cfg, d, desired, claimed.Keys, a)
    requires forall x: Dest | NamedLocal(cfg, d, x) :: (VrfTable(cfg, d.f), x) !in st.routes
    requires forall i: nat, locator, transit | IsLast(cfg, d, i) && Sends(cfg, d, d.routes[i], locator, transit)
                                             && HasDevice(cfg, d.f, locator, transit) && !NamedLocal(cfg, d, d.routes[i].prefix) ::
               HoldsRoute(cfg, st, d.f, VrfTable(cfg, d.f), d.routes[i].prefix, locator, transit)
    requires forall p, x, locator, transit | p in claimed && Steers(desired, p, x, locator, transit)
                                           && HasDevice(cfg, d.f, locator, transit) ::
               HoldsRoute(cfg, st, d.f, claimed[p], x, locator, transit)
    ensures AddReads(cfg, d, st0, st, desired, claimed)
  {
    hide VmsRead, TablesSuffice, MustReach, NamedLocal, IsLast, Sends, HasDevice, HoldsRoute, Steers;
  }

  lemma AddedRules(cfg: Config, d: Domain, st0: State, st: State, desired: Desired, claimed: Claims)
    requires ValidDomain(d) && DesiredOk(d.f, desired) && claimed.Keys <= desired.Keys
    requires Added(cfg, d, st0, st, desired, claimed)
    ensures forall a: Address :: (d.f, a) in st.sidRules <==>
              (d.f, a) in st0.sidRules || MustReach(cfg, d, desired, claimed.Keys, a)
  {
    hide RoutesIn, Installed, Kept, LocalPrefixes, SteerRoutes, RuleSids, AllSteerSids, OwnRule, MustReach, DesiredOk, ValidDomain;
    forall a: Address
      ensures (d.f, a) in st.sidRules <==> (d.f, a) in st0.sidRules || MustReach(cfg, d, desired, claimed.Keys, a)
    {
      NeededIff(cfg, d, desired, claimed.Keys, a);
    }
  }

  lemma AddedVrfIs(cfg: Config, d: Domain, st0: State, st: State, desired: Desired, claimed: Claims)
    requires ValidDomain(d) && DesiredOk(d.f, desired) && claimed.Keys <= desired.Keys
    requires Added(cfg, d, st0, st, desired, claimed)
    ensures var m, now := Installed(cfg, d.f, d.locators, d.routes), RoutesIn(st, VrfTable(cfg, d.f));
            && (forall x | x in m && x !in LocalPrefixes(cfg, d.routes) :: x in now && now[x] == m[x])
            && (forall x | x in now :: x !in LocalPrefixes(cfg, d.routes))
  {
    hide RoutesIn, Installed, LocalPrefixes, SteerRoutes, RuleSids, AllSteerSids, OwnRule, DesiredOk, ValidDomain;
  }

  lemma LocalIs(cfg: Config, d: Domain, x: Dest)
    ensures x in LocalPrefixes(cfg, d.routes) <==> NamedLocal(cfg, d, x)
  {
  }

  lemma AddedVrf(cfg: Config, d: Domain, st0: State, st: State, desired: Desired, claimed: Claims)
    requires ValidDomain(d) && DesiredOk(d.f, desired) && claimed.Keys <= desired.Keys
    requires Added(cfg, d, st0, st, desired, claimed)
    ensures forall x: Dest | NamedLocal(cfg, d, x) :: (VrfTable(cfg, d.f), x) !in st.routes
    ensures forall i: nat, locator, transit | IsLast(cfg, d, i) && Sends(cfg, d, d.routes[i], locator, transit)
                                            && HasDevice(cfg, d.f, locator, transit) && !NamedLocal(cfg, d, d.routes[i].prefix) ::
              HoldsRoute(cfg, st, d.f, VrfTable(cfg, d.f), d.routes[i].prefix, locator, transit)
  {
    AddedVrfIs(cfg, d, st0, st, desired, claimed);
    ValidParts(d);
    hide Sends, IsLast, HasDevice, HoldsRoute, Added, Installed, LocalPrefixes, NamedLocal, DesiredOk, ValidDomain, RoutesIn;
    var vrf := VrfTable(cfg, d.f);
    forall x: Dest | NamedLocal(cfg, d, x)
      ensures (vrf, x) !in st.routes
    {
      LocalIs(cfg, d, x);
      if (vrf, x) in st.routes {
        RouteIsIn(st, vrf, x);
      }
    }
    forall i: nat, locator, transit | IsLast(cfg, d, i) && Sends(cfg, d, d.routes[i], locator, transit)
                                    && HasDevice(cfg, d.f, locator, transit) && !NamedLocal(cfg, d, d.routes[i].prefix)
      ensures HoldsRoute(cfg, st, d.f, vrf, d.routes[i].prefix, locator, transit)
    {
      hide *;
      LocalIs(cfg, d, d.routes[i].prefix);
      LastIsInstalled(cfg, d, i, locator, transit);
      TableHolds(cfg, st, d.f, vrf, d.routes[i].prefix, locator, transit);
    }
  }

  lemma AddedTables(cfg: Config, d: Domain, st0: State, st: State, desired: Desired, claimed: Claims)
    requires ValidDomain(d) && DesiredOk(d.f, desired) && claimed.Keys <= desired.Keys
    requires Added(cfg, d, st0, st, desired, claimed)
    ensures forall p, x, locator, transit | p in claimed && Steers(desired, p, x, locator, transit)
                                          && HasDevice(cfg, d.f, locator, transit) ::
              HoldsRoute(cfg, st, d.f, claimed[p], x, locator, transit)
  {
    assert forall p | p in claimed :: RoutesIn(st, claimed[p]) == RoutesIn(st0, claimed[p]) + SteerRoutes(cfg, d.f, desired[p]);
    hide Added, DesiredOk, ValidDomain, SteerRoutes;
    forall p, x, locator, transit | p in claimed && Steers(desired, p, x, locator, transit)
                                  && HasDevice(cfg, d.f, locator, transit)
      ensures HoldsRoute(cfg, st, d.f, claimed[p], x, locator, transit)
    {
      hide *;
      SteeredIsRouted(cfg, d.f, desired, p, x, locator, transit);
      TableHolds(cfg, st, d.f, claimed[p], x, locator, transit);
    }
  }
}
