// The route a VM's packet takes out of its node once the node is in sync.

module RouteLookup {
  import opened Wrappers
  import opened Csid
  import opened Payload
  import opened Kernel
  import opened EncapRoutes
  import opened Steering
  import opened Sync
  import opened SyncReads
  import opened TeRows
  import opened TePaths

  // A packet from src through gateway port iif: the tables of the steer rules
  // that match it, and where none has a route, the VRF.
  ghost predicate Takes(cfg: Config, st: State, iif: Gateway, src: Dest, dst: Dest, e: EncapRoute) {
    || (exists r :: r in st.steerRules && r.prefix == src && r.iif == iif && HasRoute(st, r.table, dst, e))
    || ((forall r | r in st.steerRules && r.prefix == src && r.iif == iif :: dst !in RoutesIn(st, r.table))
        && HasRoute(st, VrfTable(cfg, iif.f), dst, e))
  }

  ghost predicate HasRoute(st: State, t: Table, dst: Dest, e: EncapRoute) {
    dst in RoutesIn(st, t) && RoutesIn(st, t)[dst] == e
  }

  // The payload: one route for each address, and one description of the VM.
  ghost predicate OneRouteEach(routes: seq<Route>) {
    forall i, j | 0 <= i < |routes| && 0 <= j < |routes| && routes[i].prefix == routes[j].prefix :: i == j
  }

  ghost predicate Describes(routes: seq<Route>, v: PortId, info: PortInfo) {
    forall i | 0 <= i < |routes| && v in routes[i].bySourcePort :: Fits(routes[i].bySourcePort[v], info)
  }

  predicate Fits(vm: Vm, info: PortInfo) {
    info.host == Some(vm.host) && info.network == vm.network && info.prefixes == vm.prefixes
  }

  // What a VM's entry holds after all the routes.
  ghost predicate EntryHolds(cfg: Config, locators: Locators, gateways: Gateways, routes: seq<Route>, v: PortId,
                             info: PortInfo, e: Steered)
    requires info.network in gateways
  {
    && e.iif == gateways[info.network] && e.prefixes == info.prefixes
    && (forall i | 0 <= i < |routes| && SteersHere(cfg, locators, gateways, routes[i], v) ::
          routes[i].prefix in e.routes
          && e.routes[routes[i].prefix] == (locators[routes[i].host], routes[i].bySourcePort[v].segments))
    && forall x | x in e.routes ::
         exists i :: 0 <= i < |routes| && SteersHere(cfg, locators, gateways, routes[i], v) && routes[i].prefix == x
  }

  lemma {:induction false} DesiredHolds(cfg: Config, locators: Locators, gateways: Gateways, routes: seq<Route>,
                                        v: PortId, info: PortInfo)
    requires OneRouteEach(routes) && Describes(routes, v, info) && info.network in gateways
    ensures Holds(cfg, locators, gateways, routes, v, info, DesiredFor(cfg, locators, gateways, routes, v))
  {
    if routes != [] {
      var n := |routes| - 1;
      var front, r := routes[..n], routes[n];
      assert forall i | 0 <= i < n :: front[i] == routes[i];
      DesiredHolds(cfg, locators, gateways, front, v, info);
      DesiredStep(cfg, locators, gateways, routes, v, info);
    }
  }

  lemma DesiredStep(cfg: Config, locators: Locators, gateways: Gateways, routes: seq<Route>, v: PortId, info: PortInfo)
    requires routes != [] && OneRouteEach(routes) && Describes(routes, v, info) && info.network in gateways
    requires Holds(cfg, locators, gateways, routes[..|routes| - 1], v, info, DesiredFor(cfg, locators, gateways, routes[..|routes| - 1], v))
    ensures Holds(cfg, locators, gateways, routes, v, info, DesiredFor(cfg, locators, gateways, routes, v))
  {
    var n := |routes| - 1;
    var before := DesiredFor(cfg, locators, gateways, routes[..n], v);
    if SteersHere(cfg, locators, gateways, routes[n], v) {
      assert Fits(routes[n].bySourcePort[v], info);
      hide DesiredFor;
      StepSteers(cfg, locators, gateways, routes, v, info, before);
    } else {
      hide DesiredFor;
      StepSkips(cfg, locators, gateways, routes, v, info, before);
    }
  }

  ghost predicate Holds(cfg: Config, locators: Locators, gateways: Gateways, routes: seq<Route>, v: PortId,
                        info: PortInfo, e: Option<Steered>)
    requires info.network in gateways
  {
    && (e.None? ==> forall i | 0 <= i < |routes| :: !SteersHere(cfg, locators, gateways, routes[i], v))
    && (e.Some? ==> EntryHolds(cfg, locators, gateways, routes, v, info, e.value))
  }

  lemma StepSkips(cfg: Config, locators: Locators, gateways: Gateways, routes: seq<Route>, v: PortId, info: PortInfo,
                  e: Option<Steered>)
    requires routes != [] && info.network in gateways
    requires Holds(cfg, locators, gateways, routes[..|routes| - 1], v, info, e)
    requires !SteersHere(cfg, locators, gateways, routes[|routes| - 1], v)
    ensures Holds(cfg, locators, gateways, routes, v, info, e)
  {
    hide SteersHere;
    var n := |routes| - 1;
    var front := routes[..n];
    assert forall i | 0 <= i < n :: front[i] == routes[i];
    if e.Some? {
      forall x | x in e.value.routes
        ensures exists i :: 0 <= i < |routes| && SteersHere(cfg, locators, gateways, routes[i], v) && routes[i].prefix == x
      {
        var i :| 0 <= i < n && SteersHere(cfg, locators, gateways, front[i], v) && front[i].prefix == x;
        assert routes[i].prefix == x;
      }
    }
  }

  lemma StepSteers(cfg: Config, locators: Locators, gateways: Gateways, routes: seq<Route>, v: PortId, info: PortInfo,
                   e: Option<Steered>)
    requires routes != [] && OneRouteEach(routes) && info.network in gateways
    requires Holds(cfg, locators, gateways, routes[..|routes| - 1], v, info, e)
    requires SteersHere(cfg, locators, gateways, routes[|routes| - 1], v)
    requires Fits(routes[|routes| - 1].bySourcePort[v], info)
    ensures Holds(cfg, locators, gateways, routes, v, info, Some(AddDestination(e, routes[|routes| - 1], v, locators, gateways)))
  {
    hide Holds, EntryHolds, OneRouteEach, AddDestination, Fits;
    var n := |routes| - 1;
    var front, r := routes[..n], routes[n];
    AddedIs(cfg, locators, gateways, front, r, v, info, e);
    var after := AddDestination(e, r, v, locators, gateways);
    forall i | 0 <= i < |routes| && SteersHere(cfg, locators, gateways, routes[i], v)
      ensures routes[i].prefix in after.routes
      ensures after.routes[routes[i].prefix] == (locators[routes[i].host], routes[i].bySourcePort[v].segments)
    {
      if i < n {
        assert front[i] == routes[i];
        HeldBefore(cfg, locators, gateways, front, v, info, e, i);
        OtherPrefix(routes, i, n);
      }
    }
    forall x | x in after.routes
      ensures exists i :: 0 <= i < |routes| && SteersHere(cfg, locators, gateways, routes[i], v) && routes[i].prefix == x
    {
      if x == r.prefix {
        assert routes[n].prefix == x;
      } else {
        var i := SteeredBefore(cfg, locators, gateways, front, v, info, e, x);
        assert front[i] == routes[i];
      }
    }
    EntryFrom(cfg, locators, gateways, routes, v, info, after);
    HoldsFrom(cfg, locators, gateways, routes, v, info, after);
  }

  lemma OtherPrefix(routes: seq<Route>, i: nat, n: nat)
    requires OneRouteEach(routes) && i < n < |routes|
    ensures routes[i].prefix != routes[n].prefix
  {
  }

  lemma HeldBefore(cfg: Config, locators: Locators, gateways: Gateways, front: seq<Route>, v: PortId, info: PortInfo,
                   e: Option<Steered>, i: nat)
    requires info.network in gateways && Holds(cfg, locators, gateways, front, v, info, e)
    requires i < |front| && SteersHere(cfg, locators, gateways, front[i], v)
    ensures e.Some? && front[i].prefix in e.value.routes
    ensures e.value.routes[front[i].prefix] == (locators[front[i].host], front[i].bySourcePort[v].segments)
  {
    hide SteersHere;
  }

  lemma SteeredBefore(cfg: Config, locators: Locators, gateways: Gateways, front: seq<Route>, v: PortId, info: PortInfo,
                      e: Option<Steered>, x: Dest) returns (i: nat)
    requires info.network in gateways && Holds(cfg, locators, gateways, front, v, info, e)
    requires e.Some? && x in e.value.routes
    ensures i < |front| && SteersHere(cfg, locators, gateways, front[i], v) && front[i].prefix == x
  {
    hide SteersHere;
    i :| 0 <= i < |front| && SteersHere(cfg, locators, gateways, front[i], v) && front[i].prefix == x;
  }

  lemma AddedIs(cfg: Config, locators: Locators, gateways: Gateways, front: seq<Route>, r: Route, v: PortId, info: PortInfo,
                e: Option<Steered>)
    requires info.network in gateways && Holds(cfg, locators, gateways, front, v, info, e)
    requires SteersHere(cfg, locators, gateways, r, v) && Fits(r.bySourcePort[v], info)
    ensures var after, before := AddDestination(e, r, v, locators, gateways), if e.Some? then e.value.routes else map[];
            && after.iif == gateways[info.network] && after.prefixes == info.prefixes
            && after.routes == before[r.prefix := (locators[r.host], r.bySourcePort[v].segments)]
  {
  }

  lemma EntryFrom(cfg: Config, locators: Locators, gateways: Gateways, routes: seq<Route>, v: PortId, info: PortInfo, e: Steered)
    requires info.network in gateways && e.iif == gateways[info.network] && e.prefixes == info.prefixes
    requires forall i | 0 <= i < |routes| && SteersHere(cfg, locators, gateways, routes[i], v) ::
               routes[i].prefix in e.routes
               && e.routes[routes[i].prefix] == (locators[routes[i].host], routes[i].bySourcePort[v].segments)
    requires forall x | x in e.routes ::
               exists i :: 0 <= i < |routes| && SteersHere(cfg, locators, gateways, routes[i], v) && routes[i].prefix == x
    ensures EntryHolds(cfg, locators, gateways, routes, v, info, e)
  {
  }

  lemma HoldsFrom(cfg: Config, locators: Locators, gateways: Gateways, routes: seq<Route>, v: PortId, info: PortInfo, e: Steered)
    requires info.network in gateways && EntryHolds(cfg, locators, gateways, routes, v, info, e)
    ensures Holds(cfg, locators, gateways, routes, v, info, Some(e))
  {
    hide EntryHolds;
  }

  // ------------------------------------------------------------------
  // The lookup after a sync
  // ------------------------------------------------------------------
  // v sits behind this node: its network has a gateway port here, src is an
  // address of it, and no other steered VM behind that gateway has src.
  ghost predicate Behind(d: Domain, desired: Desired, v: PortId, info: PortInfo, src: Dest) {
    && info.network in d.gateways && src in info.prefixes
    && forall q | q in desired && desired[q].iif == d.gateways[info.network] && src in desired[q].prefixes :: q == v
  }

  ghost predicate InSync(cfg: Config, d: Domain, st0: State, st: State, desired: Desired, claimed: Claims) {
    && ValidDomain(d) && Asked(cfg, d, desired) && claimed.Keys == desired.Keys
    && Synced(cfg, d, st0, st, desired, claimed) && OneRouteEach(d.routes)
  }

  // A rule that matches v's traffic is one of v's own, on v's table.
  lemma OnlyOwnRules(cfg: Config, d: Domain, st0: State, st: State, desired: Desired, claimed: Claims,
                     v: PortId, info: PortInfo, src: Dest, r: SteerRule)
    requires InSync(cfg, d, st0, st, desired, claimed) && Behind(d, desired, v, info, src)
    requires r in st.steerRules && r.prefix == src && r.iif == d.gateways[info.network]
    ensures v in desired && r.table == claimed[v]
  {
    assert r.iif.f == d.f;
    hide RoutesIn, SteerRoutes, NeededSids, Kept, Installed, Wanted, DesiredEncodable, IsDesired;
    var p :| p in claimed.Keys && p in claimed && p in desired && r in SteerRulesOf(desired[p], claimed[p]);
    WantedRulesHold(desired[p], claimed[p], r);
  }

  // A steered VM's rule is there.
  lemma OwnRuleIsThere(cfg: Config, d: Domain, st0: State, st: State, desired: Desired, claimed: Claims,
                       v: PortId, src: Dest)
    requires InSync(cfg, d, st0, st, desired, claimed) && v in desired && src in desired[v].prefixes
    ensures SteerRule(src, desired[v].iif, claimed[v]) in st.steerRules
    ensures RoutesIn(st, claimed[v]) == SteerRoutes(cfg, d.f, desired[v])
  {
    hide RoutesIn, SteerRoutes, NeededSids, Kept, Installed, Wanted, DesiredEncodable, IsDesired;
    assert OwnRule(desired, claimed, claimed.Keys, SteerRule(src, desired[v].iif, claimed[v]));
  }

  lemma TransitMatches(cfg: Config, d: Domain, desired: Desired, v: PortId, info: PortInfo, i: nat)
    requires ValidDomain(d) && Asked(cfg, d, desired) && OneRouteEach(d.routes)
    requires Describes(d.routes, v, info) && info.network in d.gateways && info.host == Some(cfg.local)
    requires i < |d.routes| && IsRemote(cfg, d.locators, d.routes[i])
    ensures v in desired ==> desired[v].iif == d.gateways[info.network] && desired[v].prefixes == info.prefixes
    ensures v in d.routes[i].bySourcePort <==> v in desired && d.routes[i].prefix in desired[v].routes
    ensures v in desired && d.routes[i].prefix in desired[v].routes ==>
              desired[v].routes[d.routes[i].prefix] == (d.locators[d.routes[i].host], TransitFor(d.routes[i], cfg.local, v))
    ensures v !in desired || d.routes[i].prefix !in desired[v].routes ==>
              TransitFor(d.routes[i], cfg.local, v) == SegmentsFor(d.routes[i], cfg.local)
  {
    DesiredHolds(cfg, d.locators, d.gateways, d.routes, v, info);
    assert Steering.Lookup(desired, v) == DesiredFor(cfg, d.locators, d.gateways, d.routes, v);
    hide DesiredFor;
    var r := d.routes[i];
    if v in r.bySourcePort {
      assert Fits(r.bySourcePort[v], info);
      assert SteersHere(cfg, d.locators, d.gateways, r, v);
    }
  }

  ghost function Expected(cfg: Config, d: Domain, r: Route, transit: seq<Address>): Encap
    requires ValidDomain(d) && IsRemote(cfg, d.locators, r)
  {
    assert Encodable(d.f, d.locators[r.host]);
    EncapOf(cfg, d.f, d.locators[r.host], transit)
  }

  ghost predicate IsRouteOf(e: EncapRoute, w: Encap) {
    w.dev.Some? && e == AsRoute(w)
  }

  lemma SteeredRoute(cfg: Config, d: Domain, desired: Desired, v: PortId, r: Route, transit: seq<Address>)
    requires ValidDomain(d) && DesiredOk(d.f, desired) && AllKnown(cfg, d, desired) && IsRemote(cfg, d.locators, r)
    requires v in desired && r.prefix in desired[v].routes && desired[v].routes[r.prefix] == (d.locators[r.host], transit)
    ensures var w := Expected(cfg, d, r, transit);
            w.dev.Some? && r.prefix in SteerRoutes(cfg, d.f, desired[v]) && SteerRoutes(cfg, d.f, desired[v])[r.prefix] == AsRoute(w)
  {
    DestinationEncodable(cfg, d.f, desired[v], r.prefix);
    hide EncapOf, DevicesKnown;
  }

  lemma VrfRoute(cfg: Config, d: Domain, st0: State, st: State, desired: Desired, claimed: Claims, i: nat)
    requires InSync(cfg, d, st0, st, desired, claimed) && AllDevicesKnown(cfg, d)
    requires i < |d.routes| && IsRemote(cfg, d.locators, d.routes[i])
    ensures var w := Expected(cfg, d, d.routes[i], SegmentsFor(d.routes[i], cfg.local));
            w.dev.Some? && HasRoute(st, VrfTable(cfg, d.f), d.routes[i].prefix, AsRoute(w))
  {
    HistoryIndependent(cfg, d, st0, st, desired, claimed);
    RemoteIs(cfg, d.f, d.locators, d.routes[i]);
    hide Synced, RoutesIn, SteerRoutes, NeededSids, EncapOf, EncapFor, SegmentsFor, Installed, IsRemotePrefix, Asked;
    InstalledIsEncoding(cfg, d.f, d.locators, d.routes, i);
  }

  lemma NotSteered(cfg: Config, f: nat, desired: Desired, v: PortId, x: Dest)
    requires DesiredOk(f, desired) && v in desired && x !in desired[v].routes
    ensures x !in SteerRoutes(cfg, f, desired[v])
  {
  }

  lemma TakesSteered(cfg: Config, st: State, iif: Gateway, src: Dest, dst: Dest, t: Table, e: EncapRoute, w: EncapRoute)
    requires forall s | s in st.steerRules && s.prefix == src && s.iif == iif :: s.table == t
    requires SteerRule(src, iif, t) in st.steerRules && HasRoute(st, t, dst, w)
    ensures Takes(cfg, st, iif, src, dst, e) <==> e == w
  {
    hide RoutesIn;
    var own := SteerRule(src, iif, t);
    assert own in st.steerRules && own.prefix == src && own.iif == iif;
  }

  lemma TakesVrf(cfg: Config, st: State, iif: Gateway, src: Dest, dst: Dest, e: EncapRoute, w: EncapRoute)
    requires forall s | s in st.steerRules && s.prefix == src && s.iif == iif :: dst !in RoutesIn(st, s.table)
    requires HasRoute(st, VrfTable(cfg, iif.f), dst, w)
    ensures Takes(cfg, st, iif, src, dst, e) <==> e == w
  {
    hide RoutesIn;
  }

  // A VM steered towards the prefix: its table has the route.
  lemma SteeredLookup(cfg: Config, d: Domain, st0: State, st: State, desired: Desired, claimed: Claims,
                      v: PortId, info: PortInfo, src: Dest, r: Route, transit: seq<Address>, e: EncapRoute)
    requires InSync(cfg, d, st0, st, desired, claimed) && AllKnown(cfg, d, desired) && IsRemote(cfg, d.locators, r)
    requires Behind(d, desired, v, info, src)
    requires v in desired && desired[v].iif == d.gateways[info.network] && desired[v].prefixes == info.prefixes
    requires r.prefix in desired[v].routes && desired[v].routes[r.prefix] == (d.locators[r.host], transit)
    ensures var w := Expected(cfg, d, r, transit);
            w.dev.Some? && (Takes(cfg, st, d.gateways[info.network], src, r.prefix, e) <==> IsRouteOf(e, w))
  {
    var iif := d.gateways[info.network];
    OwnRuleIsThere(cfg, d, st0, st, desired, claimed, v, src);
    SteeredRoute(cfg, d, desired, v, r, transit);
    forall s | s in st.steerRules && s.prefix == src && s.iif == iif
      ensures s.table == claimed[v]
    {
      OnlyOwnRules(cfg, d, st0, st, desired, claimed, v, info, src, s);
    }
    var w := AsRoute(Expected(cfg, d, r, transit));
    assert HasRoute(st, claimed[v], r.prefix, w) by {
      hide RoutesIn, SteerRoutes, InSync, AllKnown, Behind, Expected;
    }
    hide *;
    TakesSteered(cfg, st, iif, src, r.prefix, claimed[v], e, w);
    IsRouteOfIs(e, Expected(cfg, d, r, transit));
  }

  lemma IsRouteOfIs(e: EncapRoute, w: Encap)
    requires w.dev.Some?
    ensures IsRouteOf(e, w) <==> e == AsRoute(w)
  {
  }

  lemma VrfLookup(cfg: Config, d: Domain, st0: State, st: State, desired: Desired, claimed: Claims,
                  v: PortId, info: PortInfo, src: Dest, i: nat, e: EncapRoute)
    requires InSync(cfg, d, st0, st, desired, claimed) && AllKnown(cfg, d, desired)
    requires Behind(d, desired, v, info, src) && i < |d.routes| && IsRemote(cfg, d.locators, d.routes[i])
    requires v in desired ==> d.routes[i].prefix !in desired[v].routes
    requires v in desired ==> desired[v].iif == d.gateways[info.network] && desired[v].prefixes == info.prefixes
    ensures var w := Expected(cfg, d, d.routes[i], SegmentsFor(d.routes[i], cfg.local));
            w.dev.Some? && (Takes(cfg, st, d.gateways[info.network], src, d.routes[i].prefix, e) <==> IsRouteOf(e, w))
  {
    var r, iif := d.routes[i], d.gateways[info.network];
    VrfRoute(cfg, d, st0, st, desired, claimed, i);
    assert iif.f == d.f;
    if v in desired {
      OwnRuleIsThere(cfg, d, st0, st, desired, claimed, v, src);
      NotSteered(cfg, d.f, desired, v, r.prefix);
    }
    forall s | s in st.steerRules && s.prefix == src && s.iif == iif
      ensures r.prefix !in RoutesIn(st, s.table)
    {
      OnlyOwnRules(cfg, d, st0, st, desired, claimed, v, info, src, s);
      hide RoutesIn, SteerRoutes, InSync, AllKnown, Behind;
    }
    var w := Expected(cfg, d, r, SegmentsFor(r, cfg.local));
    hide *;
    TakesVrf(cfg, st, iif, src, r.prefix, e, AsRoute(w));
    IsRouteOfIs(e, w);
  }

  // The packet takes one route, and it is the encoding of what the payload
  // says for this node and this VM.
  lemma LookupIsRight(cfg: Config, d: Domain, st0: State, st: State, desired: Desired, claimed: Claims,
                      v: PortId, info: PortInfo, src: Dest, i: nat, e: EncapRoute)
    requires InSync(cfg, d, st0, st, desired, claimed) && AllKnown(cfg, d, desired)
    requires Behind(d, desired, v, info, src) && Describes(d.routes, v, info) && info.host == Some(cfg.local)
    requires i < |d.routes| && IsRemote(cfg, d.locators, d.routes[i])
    ensures var w := Expected(cfg, d, d.routes[i], TransitFor(d.routes[i], cfg.local, v));
            w.dev.Some? && (Takes(cfg, st, d.gateways[info.network], src, d.routes[i].prefix, e) <==> IsRouteOf(e, w))
  {
    var r := d.routes[i];
    assert Asked(cfg, d, desired) && OneRouteEach(d.routes) && info.network in d.gateways;
    hide *;
    TransitMatches(cfg, d, desired, v, info, i);
    if v in desired && r.prefix in desired[v].routes {
      SteeredLookup(cfg, d, st0, st, desired, claimed, v, info, src, r, TransitFor(r, cfg.local, v), e);
    } else {
      VrfLookup(cfg, d, st0, st, desired, claimed, v, info, src, i, e);
    }
  }

  lemma VmsDescribed(g: Nodes, ports: Ports, m: PathMaps, bare: seq<Route>, routes: seq<Route>, v: Port)
    requires |bare| == |routes| && forall j | 0 <= j < |bare| :: routes[j] == Attached(g, ports, m, bare[j])
    requires v in ports
    ensures Describes(routes, v, ports[v])
  {
    hide RouteTransit;
    forall j | 0 <= j < |routes| && v in routes[j].bySourcePort
      ensures Fits(routes[j].bySourcePort[v], ports[v])
    {
      assert routes[j] == Attached(g, ports, m, bare[j]);
    }
  }

  lemma ExpectedIs(cfg: Config, d: Domain, r: Route, transit: seq<Address>, e: EncapRoute)
    requires ValidDomain(d) && IsRemote(cfg, d.locators, r)
    ensures Encodable(d.f, d.locators[r.host])
    ensures IsRouteOf(e, Expected(cfg, d, r, transit)) <==> IsEncapOf(cfg, d.f, d.locators[r.host], transit, e)
  {
    EncapIs(cfg, d.f, d.locators[r.host], transit);
    hide EncapOf, Pushed, IsDirect, Encodable;
  }

  // The packet takes e, which sends it over the waypoints of `row` if they
  // can all be used, and else direct.
  ghost predicate TakesRowOf(g: Nodes, cfg: Config, d: Domain, r: Route, row: TePath, e: EncapRoute)
    requires r.host in d.locators && Encodable(d.f, d.locators[r.host])
  {
    exists transit :: Resolves(g, cfg.local, row, transit) && IsEncapOf(cfg, d.f, d.locators[r.host], transit, e)
  }

  lemma TakesRowOfIs(g: Nodes, cfg: Config, d: Domain, r: Route, row: TePath, transit: seq<Address>, e: EncapRoute)
    requires r.host in d.locators && Encodable(d.f, d.locators[r.host]) && Resolves(g, cfg.local, row, transit)
    ensures TakesRowOf(g, cfg, d, r, row, e) <==> IsEncapOf(cfg, d.f, d.locators[r.host], transit, e)
  {
    hide Resolves, IsEncapOf, Encodable;
    if TakesRowOf(g, cfg, d, r, row, e) {
      var t :| Resolves(g, cfg.local, row, t) && IsEncapOf(cfg, d.f, d.locators[r.host], t, e);
      ResolvesOnce(g, cfg.local, row, t, transit);
    }
  }

  // From the stored paths to the packet: the winner of the promised order
  // decides the route, and with no path at all the packet goes direct.
  lemma EndToEnd(rows: seq<TePath>, domain: nat, m: PathMaps, g: Nodes, ports: Ports, bare: seq<Route>,
                 cfg: Config, d: Domain, st0: State, st: State, desired: Desired, claimed: Claims,
                 v: PortId, src: Dest, i: nat, e: EncapRoute)
    requires Filed(rows, domain, m) && d.locators == g.locators
    requires |bare| == |d.routes| && forall j | 0 <= j < |bare| :: d.routes[j] == Attached(g, ports, m, bare[j])
    requires InSync(cfg, d, st0, st, desired, claimed) && AllKnown(cfg, d, desired)
    requires v in ports && ports[v].host == Some(cfg.local) && Behind(d, desired, v, ports[v], src)
    requires i < |bare| && IsRemote(cfg, d.locators, d.routes[i])
    ensures Encodable(d.f, d.locators[d.routes[i].host])
    ensures var ranks, takes := Ranks(g, cfg.local, v, bare[i]), Takes(cfg, st, d.gateways[ports[v].network], src, d.routes[i].prefix, e);
            && (forall row | Wins(rows, domain, ranks, row) :: takes <==> TakesRowOf(g, cfg, d, d.routes[i], row, e))
            && ((forall k | 0 <= k < |ranks| :: !RankTaken(rows, domain, ranks[k])) ==>
                  (takes <==> IsEncapOf(cfg, d.f, d.locators[d.routes[i].host], [], e)))
  {
    assert d.routes[i].host == bare[i].host;
    var transit := TransitFor(Attached(g, ports, m, bare[i]), cfg.local, v);
    Precedence(rows, domain, m, g, ports, bare[i], cfg.local, v);
    VmsDescribed(g, ports, m, bare, d.routes, v);
    LookupIsRight(cfg, d, st0, st, desired, claimed, v, ports[v], src, i, e);
    assert ValidDomain(d);
    hide *;
    ExpectedIs(cfg, d, d.routes[i], transit, e);
    forall row | Wins(rows, domain, Ranks(g, cfg.local, v, bare[i]), row)
      ensures Takes(cfg, st, d.gateways[ports[v].network], src, d.routes[i].prefix, e) <==> TakesRowOf(g, cfg, d, d.routes[i], row, e)
    {
      TakesRowOfIs(g, cfg, d, d.routes[i], row, transit, e);
    }
  }
}
