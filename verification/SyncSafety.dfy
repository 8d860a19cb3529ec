// Between calls: what keeps the steer tables reachable, and when a full sync
// leaves a VRF that is not.

module SyncSafety {
  import opened Wrappers
  import opened Csid
  import opened Sid
  import opened Payload
  import opened Kernel
  import opened EncapRoutes
  import opened Steering
  import opened Sync
  import opened Updates

  // ------------------------------------------------------------------
  // Steer tables
  // ------------------------------------------------------------------
  // Every route of a steer table is under a rule, and the domain of that rule
  // reaches its first segment unless it is sealed.
  ghost predicate SteerSafe(cfg: Config, st: State) {
    forall k | k in st.routes && IsSteerTable(cfg, k.0) :: UnderRule(st, k.0, st.routes[k])
  }

  ghost predicate UnderRule(st: State, t: Table, r: EncapRoute) {
    exists x :: x in st.steerRules && x.table == t && Reachable(st, x.iif.f, r)
  }

  // A VM with no address gets a table and no rule.
  ghost predicate HaveAddresses(desired: Desired) {
    forall p | p in desired :: desired[p].prefixes != {}
  }

  lemma SteeredReachable(cfg: Config, f: nat, st: State, e: Steered, x: Dest)
    requires DesiredEncodable(f, e) && x in SteerRoutes(cfg, f, e)
    requires forall a | a in SteerSids(cfg, f, e) :: (f, a) in st.sidRules
    ensures Reachable(st, f, SteerRoutes(cfg, f, e)[x])
  {
    DestinationEncodable(cfg, f, e, x);
    hide EncapOf;
  }

  // The rules of a claimed VM are on its table.
  lemma OwnRuleOn(desired: Desired, claimed: Claims, p: PortId) returns (r: SteerRule)
    requires p in claimed && p in desired && desired[p].prefixes != {}
    ensures OwnRule(desired, claimed, claimed.Keys, r) && r.table == claimed[p] && r.iif == desired[p].iif
  {
    var x :| x in desired[p].prefixes;
    r := SteerRule(x, desired[p].iif, claimed[p]);
    WantedRulesHold(desired[p], claimed[p], r);
    assert (r.prefix, r.iif) in Wanting(desired[p]);
  }

  lemma InTable(st: State, k: (Table, Dest))
    ensures k in st.routes <==> k.1 in RoutesIn(st, k.0)
    ensures k in st.routes ==> RoutesIn(st, k.0)[k.1] == st.routes[k]
  {
    assert k == (k.0, k.1);
  }

  // A route of a table the call did not claim stays under its rule.
  lemma StaysUnderRule(cfg: Config, d: Domain, st0: State, st: State, desired: Desired, claimed: Claims, k: (Table, Dest))
    requires SteerSafe(cfg, st0) && k in st0.routes && IsSteerTable(cfg, k.0) && k.0 !in OwnTables(st0, d.f)
    requires forall r | r in st0.steerRules && r.iif.f != d.f :: r in st.steerRules
    requires forall f, a | f != d.f && (f, a) in st0.sidRules :: (f, a) in st.sidRules
    ensures UnderRule(st, k.0, st0.routes[k])
  {
    var x :| x in st0.steerRules && x.table == k.0 && Reachable(st0, x.iif.f, st0.routes[k]);
    assert x.iif.f != d.f;
    assert Reachable(st, x.iif.f, st0.routes[k]);
  }

  // After a full sync.
  lemma SyncKeepsSteerSafe(cfg: Config, d: Domain, st0: State, st: State, desired: Desired, claimed: Claims)
    requires ValidDomain(d) && DesiredOk(d.f, desired) && claimed.Keys <= desired.Keys && HaveAddresses(desired)
    requires Synced(cfg, d, st0, st, desired, claimed) && SteerSafe(cfg, st0)
    ensures SteerSafe(cfg, st)
  {
    forall k | k in st.routes && IsSteerTable(cfg, k.0)
      ensures UnderRule(st, k.0, st.routes[k])
    {
      InTable(st, k);
      InTable(st0, k);
      if k.0 in claimed.Values {
        var p :| p in claimed && claimed[p] == k.0;
        ClaimedIsUnderRule(cfg, d, st0, st, desired, claimed, p, k.1);
      } else {
        SyncedElsewhere(cfg, d, st0, st, desired, claimed, k.0);
        StaysUnderRule(cfg, d, st0, st, desired, claimed, k);
      }
    }
  }

  lemma SyncedElsewhere(cfg: Config, d: Domain, st0: State, st: State, desired: Desired, claimed: Claims, t: Table)
    requires ValidDomain(d) && DesiredOk(d.f, desired) && claimed.Keys <= desired.Keys
    requires Synced(cfg, d, st0, st, desired, claimed) && IsSteerTable(cfg, t) && t !in claimed.Values
    ensures if t in OwnTables(st0, d.f) then RoutesIn(st, t) == map[] else RoutesIn(st, t) == RoutesIn(st0, t)
    ensures forall r | r in st0.steerRules && r.iif.f != d.f :: r in st.steerRules
    ensures forall f, a | f != d.f && (f, a) in st0.sidRules :: (f, a) in st.sidRules
  {
    hide RoutesIn, Kept, Installed, Wanted, NeededSids, OwnRule, SteerRoutes, DesiredOk, OwnTables;
  }

  lemma ClaimedIsUnderRule(cfg: Config, d: Domain, st0: State, st: State, desired: Desired, claimed: Claims, p: PortId, x: Dest)
    requires ValidDomain(d) && DesiredOk(d.f, desired) && claimed.Keys <= desired.Keys && HaveAddresses(desired)
    requires Synced(cfg, d, st0, st, desired, claimed) && p in claimed && x in RoutesIn(st, claimed[p])
    ensures UnderRule(st, claimed[p], RoutesIn(st, claimed[p])[x])
  {
    var r := OwnRuleOn(desired, claimed, p);
    ClaimedParts(cfg, d, st0, st, desired, claimed, p);
    SteeredReachable(cfg, d.f, st, desired[p], x);
    hide RoutesIn, SteerRoutes, SteerSids, Synced, OwnRule, Reachable;
    assert r in st.steerRules && r.table == claimed[p] && r.iif.f == d.f;
  }

  lemma ClaimedParts(cfg: Config, d: Domain, st0: State, st: State, desired: Desired, claimed: Claims, p: PortId)
    requires ValidDomain(d) && DesiredOk(d.f, desired) && claimed.Keys <= desired.Keys && p in claimed
    requires Synced(cfg, d, st0, st, desired, claimed)
    ensures DesiredEncodable(d.f, desired[p]) && RoutesIn(st, claimed[p]) == SteerRoutes(cfg, d.f, desired[p])
    ensures forall a | a in SteerSids(cfg, d.f, desired[p]) :: (d.f, a) in st.sidRules
    ensures forall r | OwnRule(desired, claimed, claimed.Keys, r) :: r in st.steerRules
  {
    hide RoutesIn, Kept, Installed, Wanted, OwnRule, SteerRoutes, OwnTables, RuleSids, DesiredEncodable, SteerSids;
    forall a | a in SteerSids(cfg, d.f, desired[p])
      ensures (d.f, a) in st.sidRules
    {
      assert a in AllSteerSids(cfg, d.f, desired, claimed.Keys);
    }
  }

  // After routes were added.
  lemma AddKeepsSteerSafe(cfg: Config, d: Domain, st0: State, st: State, desired: Desired, claimed: Claims)
    requires ValidDomain(d) && DesiredOk(d.f, desired) && claimed.Keys <= desired.Keys && HaveAddresses(desired)
    requires SteerRulesOk(cfg, st0) && ClaimsOk(cfg, st0, d.f, desired, claimed)
    requires Added(cfg, d, st0, st, desired, claimed) && SteerSafe(cfg, st0)
    ensures SteerSafe(cfg, st)
  {
    forall k | k in st.routes && IsSteerTable(cfg, k.0)
      ensures UnderRule(st, k.0, st.routes[k])
    {
      InTable(st, k);
      InTable(st0, k);
      if k in st0.routes && st.routes[k] == st0.routes[k] {
        AddedKeeps(cfg, d, st0, st, desired, claimed);
        var x :| x in st0.steerRules && x.table == k.0 && Reachable(st0, x.iif.f, st0.routes[k]);
        assert Reachable(st, x.iif.f, st.routes[k]);
      } else {
        var p := AddedIsNew(cfg, d, st0, st, desired, claimed, k);
        AddedIsUnderRule(cfg, d, st0, st, desired, claimed, p, k.1);
      }
    }
  }

  lemma AddedKeeps(cfg: Config, d: Domain, st0: State, st: State, desired: Desired, claimed: Claims)
    requires ValidDomain(d) && DesiredOk(d.f, desired) && claimed.Keys <= desired.Keys
    requires Added(cfg, d, st0, st, desired, claimed)
    ensures st0.sidRules <= st.sidRules && st0.steerRules <= st.steerRules
  {
    hide RoutesIn, Kept, Installed, RuleSids, OwnRule, SteerRoutes, DesiredOk, AllSteerSids, LocalPrefixes;
  }

  lemma AddedIsNew(cfg: Config, d: Domain, st0: State, st: State, desired: Desired, claimed: Claims, k: (Table, Dest))
    returns (p: PortId)
    requires ValidDomain(d) && DesiredOk(d.f, desired) && claimed.Keys <= desired.Keys
    requires Added(cfg, d, st0, st, desired, claimed) && IsSteerTable(cfg, k.0) && k.1 in RoutesIn(st, k.0)
    requires k.1 !in RoutesIn(st0, k.0) || RoutesIn(st, k.0)[k.1] != RoutesIn(st0, k.0)[k.1]
    ensures p in claimed && claimed[p] == k.0 && p in desired && DesiredEncodable(d.f, desired[p])
    ensures k.1 in SteerRoutes(cfg, d.f, desired[p]) && RoutesIn(st, k.0)[k.1] == SteerRoutes(cfg, d.f, desired[p])[k.1]
  {
    hide RoutesIn, Kept, Installed, RuleSids, OwnRule, SteerRoutes, AllSteerSids, LocalPrefixes, DesiredEncodable;
    assert k.0 in claimed.Values;
    p :| p in claimed && claimed[p] == k.0;
  }

  lemma AddedIsUnderRule(cfg: Config, d: Domain, st0: State, st: State, desired: Desired, claimed: Claims, p: PortId, x: Dest)
    requires ValidDomain(d) && DesiredOk(d.f, desired) && claimed.Keys <= desired.Keys && HaveAddresses(desired)
    requires Added(cfg, d, st0, st, desired, claimed) && p in claimed && x in SteerRoutes(cfg, d.f, desired[p])
    ensures UnderRule(st, claimed[p], SteerRoutes(cfg, d.f, desired[p])[x])
  {
    var r := OwnRuleOn(desired, claimed, p);
    AddedParts(cfg, d, st0, st, desired, claimed, p);
    SteeredReachable(cfg, d.f, st, desired[p], x);
    hide RoutesIn, SteerRoutes, SteerSids, Added, OwnRule, Reachable;
    assert r in st.steerRules && r.table == claimed[p] && r.iif.f == d.f;
  }

  lemma AddedParts(cfg: Config, d: Domain, st0: State, st: State, desired: Desired, claimed: Claims, p: PortId)
    requires ValidDomain(d) && DesiredOk(d.f, desired) && claimed.Keys <= desired.Keys && p in claimed
    requires Added(cfg, d, st0, st, desired, claimed)
    ensures forall a | a in SteerSids(cfg, d.f, desired[p]) :: (d.f, a) in st.sidRules
    ensures forall r | OwnRule(desired, claimed, claimed.Keys, r) :: r in st.steerRules
  {
    hide RoutesIn, Kept, Installed, OwnRule, SteerRoutes, RuleSids, DesiredEncodable, SteerSids, LocalPrefixes;
    forall a | a in SteerSids(cfg, d.f, desired[p])
      ensures (d.f, a) in st.sidRules
    {
      assert a in AllSteerSids(cfg, d.f, desired, claimed.Keys);
    }
  }

  // After routes were withdrawn, and after a domain went.
  lemma RemoveKeepsSteerSafe(cfg: Config, f: nat, routes: seq<Route>, st0: State, st: State)
    requires f < STEER_TABLE_OFFSET && Removed(cfg, f, routes, st0, st) && SteerSafe(cfg, st0)
    ensures SteerSafe(cfg, st)
  {
    forall k | k in st.routes && IsSteerTable(cfg, k.0)
      ensures UnderRule(st, k.0, st.routes[k])
    {
      InTable(st, k);
      InTable(st0, k);
      assert k.0 != VrfTable(cfg, f);
      var x :| x in st0.steerRules && x.table == k.0 && Reachable(st0, x.iif.f, st0.routes[k]);
      assert Reachable(st, x.iif.f, st.routes[k]);
    }
  }

  lemma GoneKeepsSteerSafe(cfg: Config, f: nat, st0: State, st: State)
    requires f < STEER_TABLE_OFFSET && Gone(cfg, f, st0, st) && SteerSafe(cfg, st0)
    ensures SteerSafe(cfg, st)
  {
    forall k | k in st.routes && IsSteerTable(cfg, k.0)
      ensures UnderRule(st, k.0, st.routes[k])
    {
      InTable(st, k);
      InTable(st0, k);
      assert k.0 != VrfTable(cfg, f) && k.0 !in OwnTables(st0, f);
      StaysUnderRule(cfg, Domain(f, map[], map[], []), st0, st, map[], map[], k);
    }
  }

  // ------------------------------------------------------------------
  // Over runs of messages
  // ------------------------------------------------------------------
  // No VM in a message is without an address.
  ghost predicate VmsHaveAddresses(routes: seq<Route>) {
    forall i, p | 0 <= i < |routes| && p in routes[i].bySourcePort :: routes[i].bySourcePort[p].prefixes != {}
  }

  lemma {:induction false} AskedHaveAddresses(cfg: Config, locators: Locators, gateways: Gateways, routes: seq<Route>, p: PortId)
    requires VmsHaveAddresses(routes)
    ensures var e := DesiredFor(cfg, locators, gateways, routes, p); e.Some? ==> e.value.prefixes != {}
  {
    if routes != [] {
      AskedHaveAddresses(cfg, locators, gateways, routes[..|routes| - 1], p);
      assert p in routes[|routes| - 1].bySourcePort ==> routes[|routes| - 1].bySourcePort[p].prefixes != {};
    }
  }

  lemma AskedAreThere(cfg: Config, d: Domain, desired: Desired)
    requires Asked(cfg, d, desired) && VmsHaveAddresses(d.routes)
    ensures HaveAddresses(desired)
  {
    hide VmsHaveAddresses, DesiredFor, DesiredOk;
    forall p | p in desired
      ensures desired[p].prefixes != {}
    {
      assert Lookup(desired, p) == DesiredFor(cfg, d.locators, d.gateways, d.routes, p);
      AskedHaveAddresses(cfg, d.locators, d.gateways, d.routes, p);
    }
  }

  lemma CallKeepsSteerSafe(cfg: Config, domains: map<DomainId, nat>, op: Op, trace: seq<State>, c: Call)
    requires CallOk(cfg, domains, op, trace, c) && SteerRulesOk(cfg, c.st0) && SteerSafe(cfg, c.st0)
    requires VmsHaveAddresses(op.routes) && forall id | id in domains :: domains[id] < STEER_TABLE_OFFSET
    ensures SteerSafe(cfg, c.st1)
  {
    hide SteerSafe, SteerRulesOk, VmsHaveAddresses, Synced, Added, ClaimsOk, StepsSafe, AddStepsSafe, Asked, DesiredOk, ValidDomain,
      Removed, Reclaims, FreeTables, NobodyLeftOut, TablesOf, VrfsSafe;
    if op.id in domains {
      var d := DomainOf(domains[op.id], op);
      match op {
        case AddOp(_, _, _, _) =>
          AskedParts0(cfg, d, c.desired);
          AskedAreThere(cfg, d, c.desired);
          AddKeepsSteerSafe(cfg, d, c.st0, c.st1, c.desired, c.claimed);
        case RemoveOp(_, routes) =>
          RemoveKeepsSteerSafe(cfg, d.f, routes, c.st0, c.st1);
        case SyncOp(_, _, _, _) =>
          AskedParts0(cfg, d, c.desired);
          AskedAreThere(cfg, d, c.desired);
          SyncKeepsSteerSafe(cfg, d, c.st0, c.st1, c.desired, c.claimed);
      }
    }
  }

  lemma CallKeepsRules(cfg: Config, domains: map<DomainId, nat>, op: Op, trace: seq<State>, c: Call)
    requires CallOk(cfg, domains, op, trace, c) && SteerRulesOk(cfg, c.st0)
    ensures SteerRulesOk(cfg, c.st1)
  {
    hide SteerRulesOk, Synced, Added, ClaimsOk, StepsSafe, AddStepsSafe, Asked, DesiredOk, ValidDomain, Removed, Reclaims,
      FreeTables, NobodyLeftOut, TablesOf, VrfsSafe;
    if op.id in domains {
      var d := DomainOf(domains[op.id], op);
      match op {
        case AddOp(_, _, _, _) =>
          AskedParts0(cfg, d, c.desired);
          AddKeepsRules(cfg, d, c.st0, c.st1, c.desired, c.claimed);
        case RemoveOp(_, routes) =>
          RemoveKeepsRules(cfg, d.f, routes, c.st0, c.st1);
        case SyncOp(_, _, _, _) =>
          AskedParts0(cfg, d, c.desired);
          SyncKeepsRules(cfg, d, c.st0, c.st1, c.desired, c.claimed);
      }
    }
  }

  lemma AskedParts0(cfg: Config, d: Domain, desired: Desired)
    requires Asked(cfg, d, desired)
    ensures DesiredOk(d.f, desired)
  {
    hide DesiredOk, IsDesired;
  }

  lemma RemoveKeepsRules(cfg: Config, f: nat, routes: seq<Route>, st0: State, st: State)
    requires Removed(cfg, f, routes, st0, st) && SteerRulesOk(cfg, st0)
    ensures SteerRulesOk(cfg, st)
  {
    hide RoutesIn;
  }

  lemma SyncKeepsRules(cfg: Config, d: Domain, st0: State, st: State, desired: Desired, claimed: Claims)
    requires ValidDomain(d) && DesiredOk(d.f, desired) && SteerRulesOk(cfg, st0) && ClaimsOk(cfg, st0, d.f, desired, claimed)
    requires claimed.Keys <= desired.Keys && Synced(cfg, d, st0, st, desired, claimed)
    ensures SteerRulesOk(cfg, st)
  {
    hide RoutesIn, Kept, Installed, Wanted, NeededSids, OwnRule, SteerRoutes, DesiredOk, OwnTables, SteerRulesOk, ClaimsOk;
    RulesStayOk(cfg, d.f, st0, st, desired, claimed);
  }

  lemma AddKeepsRules(cfg: Config, d: Domain, st0: State, st: State, desired: Desired, claimed: Claims)
    requires ValidDomain(d) && DesiredOk(d.f, desired) && SteerRulesOk(cfg, st0) && ClaimsOk(cfg, st0, d.f, desired, claimed)
    requires claimed.Keys <= desired.Keys && Added(cfg, d, st0, st, desired, claimed)
    ensures SteerRulesOk(cfg, st)
  {
    hide RoutesIn, Kept, Installed, RuleSids, OwnRule, SteerRoutes, DesiredOk, AllSteerSids, LocalPrefixes, SteerRulesOk, ClaimsOk;
    RulesStayOk(cfg, d.f, st0, st, desired, claimed);
  }

  // Between the calls of any run, every unsealed route of a steer table may
  // reach its first segment.
  lemma {:induction false} CallsKeepSteerSafe(cfg: Config, domains: map<DomainId, nat>, ops: seq<Op>, st0: State, st: State,
                                              trace: seq<State>, n: nat, calls: seq<Call>, k: nat)
    requires CallsOk(cfg, domains, ops, st0, st, trace, n, calls) && k < |calls|
    requires SteerRulesOk(cfg, st0) && SteerSafe(cfg, st0)
    requires forall i | 0 <= i < |ops| :: VmsHaveAddresses(ops[i].routes)
    requires forall id | id in domains :: domains[id] < STEER_TABLE_OFFSET
    ensures SteerSafe(cfg, calls[k].st1) && SteerRulesOk(cfg, calls[k].st1)
  {
    hide SteerSafe, SteerRulesOk, VmsHaveAddresses, CallOk;
    if k > 0 {
      CallsKeepSteerSafe(cfg, domains, ops, st0, st, trace, n, calls, k - 1);
    }
    CallKeepsSteerSafe(cfg, domains, ops[k], trace, calls[k]);
    CallKeepsRules(cfg, domains, ops[k], trace, calls[k]);
  }

  // ------------------------------------------------------------------
  // A full sync with a device unknown
  // ------------------------------------------------------------------
  // A prefix that is wanted but could not be rewritten keeps its old route;
  // the SID rule of that route stays only if the new payload needs it too.
  ghost predicate OldRoutesNeeded(cfg: Config, d: Domain, st0: State, desired: Desired, vms: set<PortId>)
    requires ValidDomain(d) && DesiredOk(d.f, desired) && vms <= desired.Keys
  {
    var before := RoutesIn(st0, VrfTable(cfg, d.f));
    forall x | x in Wanted(cfg, d.locators, d.routes) && x !in Installed(cfg, d.f, d.locators, d.routes)
            && x in before && before[x].segments != [] && !before[x].sealed ::
      before[x].segments[0] in NeededSids(cfg, d, desired, vms)
  }

  // A full sync of a safe kernel leaves it safe if and only if no wanted
  // prefix it could not install has an old unsealed route towards a SID the
  // payload does not need.
  lemma SyncSafeIff(cfg: Config, d: Domain, st0: State, st: State, desired: Desired, claimed: Claims)
    requires ValidDomain(d) && DesiredOk(d.f, desired) && claimed.Keys <= desired.Keys
    requires SteerRulesOk(cfg, st0) && ClaimsOk(cfg, st0, d.f, desired, claimed)
    requires Synced(cfg, d, st0, st, desired, claimed) && VrfsSafe(cfg, st0)
    ensures VrfsSafe(cfg, st) <==> OldRoutesNeeded(cfg, d, st0, desired, claimed.Keys)
  {
    hide Synced, RoutesIn, Wanted, Installed, NeededSids, DesiredOk, ClaimsOk, SteerRulesOk;
    var vrf := VrfTable(cfg, d.f);
    if VrfsSafe(cfg, st) {
      forall x | x in Wanted(cfg, d.locators, d.routes) && x !in Installed(cfg, d.f, d.locators, d.routes)
              && x in RoutesIn(st0, vrf) && RoutesIn(st0, vrf)[x].segments != [] && !RoutesIn(st0, vrf)[x].sealed
        ensures RoutesIn(st0, vrf)[x].segments[0] in NeededSids(cfg, d, desired, claimed.Keys)
      {
        OldRouteStays(cfg, d, st0, st, desired, claimed, x);
      }
    }
    if OldRoutesNeeded(cfg, d, st0, desired, claimed.Keys) {
      forall k | k in st.routes && IsVrfTable(cfg, k.0)
        ensures Reachable(st, k.0 - cfg.base, st.routes[k])
      {
        RouteIsReachable(cfg, d, st0, st, desired, claimed, k);
      }
    }
  }

  lemma SyncedVrf(cfg: Config, d: Domain, st0: State, st: State, desired: Desired, claimed: Claims)
    requires ValidDomain(d) && DesiredOk(d.f, desired) && claimed.Keys <= desired.Keys
    requires Synced(cfg, d, st0, st, desired, claimed)
    ensures RoutesIn(st, VrfTable(cfg, d.f)) == Kept(RoutesIn(st0, VrfTable(cfg, d.f)) + Installed(cfg, d.f, d.locators, d.routes),
                                                     Unwanted(Wanted(cfg, d.locators, d.routes)))
    ensures forall t | t != VrfTable(cfg, d.f) && t !in OwnTables(st0, d.f) && t !in claimed.Values :: RoutesIn(st, t) == RoutesIn(st0, t)
    ensures forall f, a :: (f, a) in st.sidRules <==> if f == d.f then a in NeededSids(cfg, d, desired, claimed.Keys)
                                                      else (f, a) in st0.sidRules
  {
    hide RoutesIn, Kept, Installed, Wanted, NeededSids, OwnRule, SteerRoutes, DesiredOk, OwnTables;
  }

  lemma OldRouteStays(cfg: Config, d: Domain, st0: State, st: State, desired: Desired, claimed: Claims, x: Dest)
    requires ValidDomain(d) && DesiredOk(d.f, desired) && claimed.Keys <= desired.Keys
    requires Synced(cfg, d, st0, st, desired, claimed) && VrfsSafe(cfg, st)
    requires x in Wanted(cfg, d.locators, d.routes) && x !in Installed(cfg, d.f, d.locators, d.routes)
    requires x in RoutesIn(st0, VrfTable(cfg, d.f)) && RoutesIn(st0, VrfTable(cfg, d.f))[x].segments != []
    requires !RoutesIn(st0, VrfTable(cfg, d.f))[x].sealed
    ensures RoutesIn(st0, VrfTable(cfg, d.f))[x].segments[0] in NeededSids(cfg, d, desired, claimed.Keys)
  {
    SyncedVrf(cfg, d, st0, st, desired, claimed);
    hide Synced, Installed, Wanted, NeededSids, OwnTables, DesiredOk;
    var k: (Table, Dest) := (VrfTable(cfg, d.f), x);
    InTable(st, k);
    hide RoutesIn;
    assert Reachable(st, k.0 - cfg.base, st.routes[k]);
  }

  lemma RouteIsReachable(cfg: Config, d: Domain, st0: State, st: State, desired: Desired, claimed: Claims, k: (Table, Dest))
    requires ValidDomain(d) && DesiredOk(d.f, desired) && claimed.Keys <= desired.Keys
    requires SteerRulesOk(cfg, st0) && ClaimsOk(cfg, st0, d.f, desired, claimed)
    requires Synced(cfg, d, st0, st, desired, claimed) && VrfsSafe(cfg, st0)
    requires OldRoutesNeeded(cfg, d, st0, desired, claimed.Keys) && k in st.routes && IsVrfTable(cfg, k.0)
    ensures Reachable(st, k.0 - cfg.base, st.routes[k])
  {
    hide *;
    SyncedVrf(cfg, d, st0, st, desired, claimed);
    NoVrfIsClaimed(cfg, d.f, st0, desired, claimed, k.0);
    InTable(st, k);
    InTable(st0, k);
    if k.0 == VrfTable(cfg, d.f) {
      OwnRouteIsReachable(cfg, d, st0, st, desired, claimed, k.1);
      VrfOf(cfg, d.f);
    } else {
      OtherRouteIsReachable(cfg, d, st0, st, k);
    }
  }

  lemma VrfOf(cfg: Config, f: nat)
    ensures VrfTable(cfg, f) - cfg.base == f
  {
  }

  lemma OtherRouteIsReachable(cfg: Config, d: Domain, st0: State, st: State, k: (Table, Dest))
    requires VrfsSafe(cfg, st0) && k in st0.routes && k in st.routes && st.routes[k] == st0.routes[k]
    requires IsVrfTable(cfg, k.0) && k.0 != VrfTable(cfg, d.f)
    requires forall f, a | f != d.f :: (f, a) in st.sidRules <==> (f, a) in st0.sidRules
    ensures Reachable(st, k.0 - cfg.base, st.routes[k])
  {
    assert Reachable(st0, k.0 - cfg.base, st0.routes[k]);
  }

  lemma OwnRouteIsReachable(cfg: Config, d: Domain, st0: State, st: State, desired: Desired, claimed: Claims, x: Dest)
    requires ValidDomain(d) && DesiredOk(d.f, desired) && claimed.Keys <= desired.Keys
    requires Synced(cfg, d, st0, st, desired, claimed) && VrfsSafe(cfg, st0)
    requires OldRoutesNeeded(cfg, d, st0, desired, claimed.Keys) && x in RoutesIn(st, VrfTable(cfg, d.f))
    ensures Reachable(st, d.f, RoutesIn(st, VrfTable(cfg, d.f))[x])
  {
    ValidParts(d);
    hide *;
    var before, m, wanted := RoutesIn(st0, VrfTable(cfg, d.f)), Installed(cfg, d.f, d.locators, d.routes),
                             Wanted(cfg, d.locators, d.routes);
    SyncedVrf(cfg, d, st0, st, desired, claimed);
    KeptAre(before, m, wanted, x);
    if x in m {
      NewRouteIsReachable(cfg, d, st, desired, claimed.Keys, x);
    } else {
      var k: (Table, Dest) := (VrfTable(cfg, d.f), x);
      InTable(st0, k);
      OldRouteIsNeeded(cfg, d, st0, st, desired, claimed.Keys, k);
    }
  }

  lemma KeptAre(before: map<Dest, EncapRoute>, m: map<Dest, EncapRoute>, wanted: set<Dest>, x: Dest)
    requires x in Kept(before + m, Unwanted(wanted))
    ensures x in wanted && (x in m ==> Kept(before + m, Unwanted(wanted))[x] == m[x])
    ensures x !in m ==> x in before && Kept(before + m, Unwanted(wanted))[x] == before[x]
  {
  }

  lemma NewRouteIsReachable(cfg: Config, d: Domain, st: State, desired: Desired, vms: set<PortId>, x: Dest)
    requires ValidDomain(d) && DesiredOk(d.f, desired) && vms <= desired.Keys
    requires x in Installed(cfg, d.f, d.locators, d.routes)
    requires forall a | a in NeededSids(cfg, d, desired, vms) :: (d.f, a) in st.sidRules
    ensures Reachable(st, d.f, Installed(cfg, d.f, d.locators, d.routes)[x])
  {
    InstalledFacts(cfg, d.f, d.locators, d.routes);
    hide Installed, RuleSids, AllSteerSids, Wanted, DesiredOk, ValidDomain, DevicesKnown;
  }

  lemma OldRouteIsNeeded(cfg: Config, d: Domain, st0: State, st: State, desired: Desired, vms: set<PortId>, k: (Table, Dest))
    requires ValidDomain(d) && DesiredOk(d.f, desired) && vms <= desired.Keys && VrfsSafe(cfg, st0)
    requires OldRoutesNeeded(cfg, d, st0, desired, vms) && k in st0.routes && k.0 == VrfTable(cfg, d.f)
    requires k.1 in Wanted(cfg, d.locators, d.routes) && k.1 !in Installed(cfg, d.f, d.locators, d.routes)
    requires forall a | a in NeededSids(cfg, d, desired, vms) :: (d.f, a) in st.sidRules
    ensures Reachable(st, d.f, st0.routes[k])
  {
    hide Installed, Wanted, DesiredOk, NeededSids;
    InTable(st0, k);
    hide RoutesIn;
    assert Reachable(st0, k.0 - cfg.base, st0.routes[k]);
  }

  lemma NoVrfIsClaimed(cfg: Config, f: nat, st: State, desired: Desired, claimed: Claims, t: Table)
    requires SteerRulesOk(cfg, st) && ClaimsOk(cfg, st, f, desired, claimed) && IsVrfTable(cfg, t)
    ensures t !in OwnTables(st, f) && t !in claimed.Values
  {
  }

  // No device is known, so the payload's one route is not installed: the old
  // one stays, towards a SID the sync takes the rule of away.
  lemma SyncMayStrand() returns (cfg: Config, d: Domain, st0: State, st: State)
    ensures ValidDomain(d) && DesiredOk(d.f, map[]) && Asked(cfg, d, map[])
    ensures SteerRulesOk(cfg, st0) && ClaimsOk(cfg, st0, d.f, map[], map[]) && VrfsSafe(cfg, st0)
    ensures Synced(cfg, d, st0, st, map[], map[]) && !VrfsSafe(cfg, st)
  {
    cfg := Config(1, 0, false, 1000, a => false, a => None);
    var locator, route := Prefix(0, 48), Route(7, 2, 0, None, map[], map[]);
    d := Domain(1, map[2 := locator], map[], [route]);
    FunctionFits(locator);
    var sid := SidFor(locator, 1).value;
    st0 := State(map[(1001, 7) := EncapRoute([sid + 1], 0, false)], {(1, sid + 1)}, {});
    st := st0.(sidRules := {(1, sid)});
    hide *;
    OneRouteAsks(cfg, d, locator, route, sid);
    NothingSteered(cfg, d, route);
    StrandedState(cfg, st0, sid);
    OneSidNeeded(cfg, d, sid);
    StrandedSync(cfg, d, st0, st, sid);
    NothingClaimed(cfg, d.f, st0);
  }

  lemma NothingClaimed(cfg: Config, f: nat, st: State)
    ensures ClaimsOk(cfg, st, f, map[], map[])
  {
  }

  lemma StrandedSync(cfg: Config, d: Domain, st0: State, st: State, sid: Address)
    requires cfg.base == 1000 && d.f == 1 && ValidDomain(d) && DesiredOk(d.f, map[])
    requires st0 == State(map[(1001, 7) := EncapRoute([sid + 1], 0, false)], {(1, sid + 1)}, {}) && st == st0.(sidRules := {(1, sid)})
    requires Wanted(cfg, d.locators, d.routes) == {7} && Installed(cfg, d.f, d.locators, d.routes) == map[]
    requires NeededSids(cfg, d, map[], {}) == {sid} && forall f :: OwnTables(st0, f) == {}
    ensures Synced(cfg, d, st0, st, map[], map[]) && !VrfsSafe(cfg, st)
  {
    hide Wanted, Installed, NeededSids, ValidDomain, DesiredOk, OwnTables;
    var none: Claims, nobody: Desired := map[], map[];
    assert none.Keys == {} && none.Values == {};
    assert !Reachable(st, 1, st.routes[(1001, 7)]);
    RoutesAlike(st0, st);
    StrandedTable(st0, sid);
    assert forall r :: !OwnRule(nobody, none, none.Keys, r);
    hide RoutesIn, OwnRule;
  }

  lemma RoutesAlike(a: State, b: State)
    requires a.routes == b.routes
    ensures forall t :: RoutesIn(a, t) == RoutesIn(b, t)
  {
  }

  lemma StrandedTable(st0: State, sid: Address)
    requires st0.routes == map[(1001, 7) := EncapRoute([sid + 1], 0, false)]
    ensures RoutesIn(st0, 1001) == map[7 := EncapRoute([sid + 1], 0, false)]
    ensures Kept(RoutesIn(st0, 1001) + map[], Unwanted({7})) == RoutesIn(st0, 1001)
  {
    assert RoutesIn(st0, 1001) == map[7 := EncapRoute([sid + 1], 0, false)];
  }

  lemma OneRouteAsks(cfg: Config, d: Domain, locator: Prefix, route: Route, sid: Address)
    requires d == Domain(1, map[2 := locator], map[], [route]) && SidFor(locator, 1) == Some(sid)
    requires cfg.local == 1 && !cfg.usid && (forall a :: cfg.devOf(a) == None)
    requires route == Route(7, 2, 0, None, map[], map[])
    ensures ValidDomain(d) && Wanted(cfg, d.locators, d.routes) == {7}
    ensures Installed(cfg, 1, d.locators, d.routes) == map[] && RuleSids(cfg, 1, d.locators, d.routes) == {sid}
  {
    hide SidFor;
    assert Encodable(1, locator);
    assert IsRemote(cfg, d.locators, route);
    var e := EncapFor(cfg, 1, d.locators, route);
    assert e.segments == [sid] && !e.sealed && e.dev == None;
    hide EncapFor, EncapOf;
    assert d.routes[..0] == [] && d.routes[0] == route;
    assert Installed(cfg, 1, d.locators, []) == map[];
    assert RuleSids(cfg, 1, d.locators, d.routes) == {sid};
    assert d.routes[0].prefix in Wanted(cfg, d.locators, d.routes);
  }

  lemma NothingSteered(cfg: Config, d: Domain, route: Route)
    requires d.routes == [route] && route.bySourcePort == map[]
    ensures DesiredOk(d.f, map[]) && Asked(cfg, d, map[])
  {
    forall p: PortId
      ensures DesiredFor(cfg, d.locators, d.gateways, d.routes, p) == None
    {
      assert d.routes[..0] == [];
      assert DesiredFor(cfg, d.locators, d.gateways, [], p) == None;
    }
  }

  lemma StrandedState(cfg: Config, st0: State, sid: Address)
    requires cfg.base == 1000 && st0 == State(map[(1001, 7) := EncapRoute([sid + 1], 0, false)], {(1, sid + 1)}, {})
    ensures SteerRulesOk(cfg, st0) && VrfsSafe(cfg, st0)
    ensures forall f :: OwnTables(st0, f) == {}
  {
    assert Reachable(st0, 1, EncapRoute([sid + 1], 0, false));
  }

  lemma OneSidNeeded(cfg: Config, d: Domain, sid: Address)
    requires ValidDomain(d) && DesiredOk(d.f, map[]) && RuleSids(cfg, d.f, d.locators, d.routes) == {sid}
    ensures NeededSids(cfg, d, map[], {}) == {sid}
  {
    hide RuleSids;
    assert AllSteerSids(cfg, d.f, map[], {}) == {};
  }

  // The same condition decides for every step of the sync.
  lemma SyncStepsIff(cfg: Config, d: Domain, st0: State, st: State, trace: seq<State>, n: nat, desired: Desired, claimed: Claims)
    requires ValidDomain(d) && FullSync(cfg, d, st0, st, trace, n, desired, claimed)
    requires SteerRulesOk(cfg, st0) && VrfsSafe(cfg, st0)
    ensures SafeSince(cfg, trace, n) && VrfsSafe(cfg, st) <==> OldRoutesNeeded(cfg, d, st0, desired, claimed.Keys)
  {
    hide VrfsSafe, NewTablesReady, Asked, Synced, ClaimsOk, DesiredOk, Reclaims, TablesOf, FreeTables, NobodyLeftOut, SteerRulesOk,
      OldRoutesNeeded, ValidDomain;
    AskedParts0(cfg, d, desired);
    SyncSafeIff(cfg, d, st0, st, desired, claimed);
  }

  // With every device known there is no such prefix.
  lemma KnownAreNeeded(cfg: Config, d: Domain, st0: State, desired: Desired, vms: set<PortId>)
    requires ValidDomain(d) && DesiredOk(d.f, desired) && vms <= desired.Keys && AllDevicesKnown(cfg, d)
    ensures OldRoutesNeeded(cfg, d, st0, desired, vms)
  {
    InstalledFacts(cfg, d.f, d.locators, d.routes);
    hide Installed, RuleSids, Wanted, DesiredOk, RoutesIn, NeededSids;
  }

  // ------------------------------------------------------------------
  // Runs with devices unknown
  // ------------------------------------------------------------------
  // If the call is a full sync, it met that condition.
  ghost predicate CallKeeps(cfg: Config, domains: map<DomainId, nat>, op: Op, c: Call) {
    op.SyncOp? && op.id in domains ==>
      var d := DomainOf(domains[op.id], op);
      && ValidDomain(d) && DesiredOk(d.f, c.desired) && c.claimed.Keys <= c.desired.Keys
      && OldRoutesNeeded(cfg, d, c.st0, c.desired, c.claimed.Keys)
  }

  lemma CallSafeIff(cfg: Config, domains: map<DomainId, nat>, op: Op, trace: seq<State>, c: Call)
    requires CallOk(cfg, domains, op, trace, c) && SteerRulesOk(cfg, c.st0) && VrfsSafe(cfg, c.st0)
    ensures SafeBetween(cfg, trace, c.from_, c.to) <==> CallKeeps(cfg, domains, op, c)
    ensures SafeBetween(cfg, trace, c.from_, c.to) ==> VrfsSafe(cfg, c.st1)
  {
    hide VrfsSafe, FullSync, FullAdd, OldRoutesNeeded, ValidDomain, DesiredOk, Removed, SteerRulesOk;
    if op.id in domains {
      var d := DomainOf(domains[op.id], op);
      TakenSteps(cfg, trace, c.from_, c.to);
      if op.SyncOp? {
        SyncStepsIff(cfg, d, c.st0, c.st1, trace[..c.to], c.from_, c.desired, c.claimed);
        FullSyncParts(cfg, d, c.st0, c.st1, trace[..c.to], c.from_, c.desired, c.claimed);
      } else if op.AddOp? {
        AddedSteps(cfg, d, c.st0, c.st1, trace[..c.to], c.from_, c.desired, c.claimed);
      }
    }
  }

  lemma TakenSteps(cfg: Config, trace: seq<State>, from_: nat, to: nat)
    requires from_ <= to <= |trace|
    ensures SafeSince(cfg, trace[..to], from_) <==> SafeBetween(cfg, trace, from_, to)
  {
    hide VrfsSafe;
    forall i | from_ <= i < to
      ensures trace[..to][i] == trace[i]
    {
    }
  }

  lemma FullSyncParts(cfg: Config, d: Domain, st0: State, st: State, trace: seq<State>, n: nat, desired: Desired, claimed: Claims)
    requires ValidDomain(d) && FullSync(cfg, d, st0, st, trace, n, desired, claimed)
    ensures DesiredOk(d.f, desired) && claimed.Keys <= desired.Keys
  {
    hide VrfsSafe, NewTablesReady, Synced, ClaimsOk, DesiredOk, Reclaims, TablesOf, FreeTables, NobodyLeftOut, IsDesired;
  }

  lemma AddedSteps(cfg: Config, d: Domain, st0: State, st: State, trace: seq<State>, n: nat, desired: Desired, claimed: Claims)
    requires ValidDomain(d) && FullAdd(cfg, d, st0, st, trace, n, desired, claimed) && VrfsSafe(cfg, st0)
    ensures SafeSince(cfg, trace, n) && VrfsSafe(cfg, st)
  {
    hide VrfsSafe, NewTablesReady, Asked, Added, ClaimsOk, DesiredOk;
  }

  // The run up to call k.
  lemma {:induction false} SafeUpTo(cfg: Config, domains: map<DomainId, nat>, ops: seq<Op>, st0: State, st: State,
                                    trace: seq<State>, n: nat, calls: seq<Call>, k: nat)
    requires CallsOk(cfg, domains, ops, st0, st, trace, n, calls) && k < |calls|
    requires SteerRulesOk(cfg, st0) && VrfsSafe(cfg, st0)
    ensures SteerRulesOk(cfg, calls[k].st1) && n <= calls[k].from_ <= calls[k].to <= |trace|
    ensures SafeBetween(cfg, trace, n, calls[k].to) <==> forall j | 0 <= j <= k :: CallKeeps(cfg, domains, ops[j], calls[j])
    ensures SafeBetween(cfg, trace, n, calls[k].to) ==> VrfsSafe(cfg, calls[k].st1)
  {
    hide VrfsSafe, SteerRulesOk, CallKeeps, CallOk;
    CallIsTraced(cfg, domains, ops[k], trace, calls[k]);
    if k > 0 {
      SafeUpTo(cfg, domains, ops, st0, st, trace, n, calls, k - 1);
    }
    CallKeepsRules(cfg, domains, ops[k], trace, calls[k]);
    if k == 0 || SafeBetween(cfg, trace, n, calls[k].from_) {
      CallSafeIff(cfg, domains, ops[k], trace, calls[k]);
    }
  }

  lemma CallIsTraced(cfg: Config, domains: map<DomainId, nat>, op: Op, trace: seq<State>, c: Call)
    requires CallOk(cfg, domains, op, trace, c)
    ensures IsTraced(trace, c)
  {
    hide FullSync, FullAdd, Removed, VrfsSafe, ValidDomain;
  }

  // From a safe kernel, every state a run of messages goes through is safe if
  // and only if each of its full syncs met the condition.
  lemma RunSafeIff(cfg: Config, domains: map<DomainId, nat>, ops: seq<Op>, st0: State, st: State, trace: seq<State>, n: nat,
                   calls: seq<Call>)
    requires CallsOk(cfg, domains, ops, st0, st, trace, n, calls)
    requires SteerRulesOk(cfg, st0) && VrfsSafe(cfg, st0)
    ensures SafeSince(cfg, trace, n) <==> forall k | 0 <= k < |calls| :: CallKeeps(cfg, domains, ops[k], calls[k])
    ensures SafeSince(cfg, trace, n) ==> VrfsSafe(cfg, st)
  {
    hide VrfsSafe, SteerRulesOk, CallKeeps, CallOk;
    if calls != [] {
      SafeUpTo(cfg, domains, ops, st0, st, trace, n, calls, |calls| - 1);
    }
  }

  // So it is for a run whose full syncs know all their devices.
  lemma KnownRunIsSafe(cfg: Config, domains: map<DomainId, nat>, ops: seq<Op>, st0: State, st: State, trace: seq<State>, n: nat,
                       calls: seq<Call>)
    requires CallsOk(cfg, domains, ops, st0, st, trace, n, calls)
    requires SteerRulesOk(cfg, st0) && VrfsSafe(cfg, st0)
    requires forall k | 0 <= k < |ops| :: KnowsDevices(cfg, domains, ops[k])
    ensures SafeSince(cfg, trace, n) && VrfsSafe(cfg, st)
  {
    hide VrfsSafe, SteerRulesOk, CallKeeps, CallOk, KnowsDevices;
    forall k | 0 <= k < |calls|
      ensures CallKeeps(cfg, domains, ops[k], calls[k])
    {
      KnownCallKeeps(cfg, domains, ops[k], trace, calls[k]);
    }
    RunSafeIff(cfg, domains, ops, st0, st, trace, n, calls);
  }

  ghost predicate KnowsDevices(cfg: Config, domains: map<DomainId, nat>, op: Op) {
    op.SyncOp? && op.id in domains ==>
      var d := DomainOf(domains[op.id], op);
      ValidDomain(d) && AllDevicesKnown(cfg, d)
  }

  lemma KnownCallKeeps(cfg: Config, domains: map<DomainId, nat>, op: Op, trace: seq<State>, c: Call)
    requires CallOk(cfg, domains, op, trace, c) && KnowsDevices(cfg, domains, op)
    ensures CallKeeps(cfg, domains, op, c)
  {
    hide FullSync, FullAdd, Removed, VrfsSafe, ValidDomain, DesiredOk, OldRoutesNeeded, AllDevicesKnown;
    if op.SyncOp? && op.id in domains {
      var d := DomainOf(domains[op.id], op);
      FullSyncParts(cfg, d, c.st0, c.st1, trace[..c.to], c.from_, c.desired, c.claimed);
      KnownAreNeeded(cfg, d, c.st0, c.desired, c.claimed.Keys);
    }
  }

  // ------------------------------------------------------------------
  // Which SID rules a full sync keeps
  // ------------------------------------------------------------------
  // A route of the domain's VRF or of a table it claimed.
  ghost predicate HoldsRoute(cfg: Config, f: nat, st: State, claimed: Claims, r: EncapRoute) {
    || (exists x :: x in RoutesIn(st, VrfTable(cfg, f)) && RoutesIn(st, VrfTable(cfg, f))[x] == r)
    || exists p, x :: p in claimed && x in RoutesIn(st, claimed[p]) && RoutesIn(st, claimed[p])[x] == r
  }

  // With every device known and one route for each prefix, a SID rule of the
  // domain is there exactly if an unsealed route of its VRF or of a claimed
  // table starts with its SID.
  lemma SidRuleIff(cfg: Config, d: Domain, st0: State, st: State, desired: Desired, claimed: Claims, a: Address)
    requires ValidDomain(d) && DesiredOk(d.f, desired) && claimed.Keys <= desired.Keys
    requires AllKnown(cfg, d, desired) && DistinctPrefixes(cfg, d) && Synced(cfg, d, st0, st, desired, claimed)
    ensures (d.f, a) in st.sidRules <==>
              exists r :: HoldsRoute(cfg, d.f, st, claimed, r) && !r.sealed && [a] <= r.segments
  {
    SyncedVrf(cfg, d, st0, st, desired, claimed);
    NoIdleSidRule(cfg, d, a);
    InstalledFacts(cfg, d.f, d.locators, d.routes);
    KeptInstalled(RoutesIn(st0, VrfTable(cfg, d.f)), Installed(cfg, d.f, d.locators, d.routes), Wanted(cfg, d.locators, d.routes));
    var m := Installed(cfg, d.f, d.locators, d.routes);
    hide Installed, RuleSids, Wanted, DistinctPrefixes, DevicesKnown, RoutesIn, Kept;
    if (d.f, a) in st.sidRules {
      if a in RuleSids(cfg, d.f, d.locators, d.routes) {
        var x :| x in m && !m[x].sealed && [a] <= m[x].segments;
        hide Synced, AllKnown;
        assert HoldsRoute(cfg, d.f, st, claimed, m[x]);
      } else {
        var p :| p in claimed.Keys && a in SteerSids(cfg, d.f, desired[p]);
        var r := SteerSidHasRoute(cfg, d, st0, st, desired, claimed, a, p);
      }
    }
    if r :| HoldsRoute(cfg, d.f, st, claimed, r) && !r.sealed && [a] <= r.segments {
      RouteHasSidRule(cfg, d, st0, st, desired, claimed, a, r);
    }
  }

  lemma SteerSidHasRoute(cfg: Config, d: Domain, st0: State, st: State, desired: Desired, claimed: Claims, a: Address, p: PortId)
    returns (r: EncapRoute)
    requires ValidDomain(d) && DesiredOk(d.f, desired) && claimed.Keys <= desired.Keys
    requires AllKnown(cfg, d, desired) && Synced(cfg, d, st0, st, desired, claimed)
    requires p in claimed && a in SteerSids(cfg, d.f, desired[p])
    ensures HoldsRoute(cfg, d.f, st, claimed, r) && !r.sealed && [a] <= r.segments
  {
    hide *;
    ClaimedParts(cfg, d, st0, st, desired, claimed, p);
    KnownFor(cfg, d, desired, p);
    var x := SteerSidRoute(cfg, d.f, desired[p], a);
    r := SteerRoutes(cfg, d.f, desired[p])[x];
    OnClaimed(cfg, d.f, st, claimed, p, x);
  }

  lemma KnownFor(cfg: Config, d: Domain, desired: Desired, p: PortId)
    requires ValidDomain(d) && DesiredOk(d.f, desired) && AllKnown(cfg, d, desired) && p in desired
    ensures DesiredEncodable(d.f, desired[p])
    ensures forall x | x in desired[p].routes :: SteerEncap(cfg, d.f, desired[p], x).dev.Some?
  {
    hide DesiredEncodable, SteerEncap, DevicesKnown;
  }

  lemma SteerSidRoute(cfg: Config, f: nat, e: Steered, a: Address) returns (x: Dest)
    requires DesiredEncodable(f, e) && a in SteerSids(cfg, f, e)
    requires forall y | y in e.routes :: SteerEncap(cfg, f, e, y).dev.Some?
    ensures x in SteerRoutes(cfg, f, e) && !SteerRoutes(cfg, f, e)[x].sealed && [a] <= SteerRoutes(cfg, f, e)[x].segments
  {
    x :| x in e.routes && !SteerEncap(cfg, f, e, x).sealed && SteerEncap(cfg, f, e, x).segments[0] == a;
    DestinationEncodable(cfg, f, e, x);
    hide EncapOf, SteerEncap;
  }

  lemma OnClaimed(cfg: Config, f: nat, st: State, claimed: Claims, p: PortId, x: Dest)
    requires p in claimed && x in RoutesIn(st, claimed[p])
    ensures HoldsRoute(cfg, f, st, claimed, RoutesIn(st, claimed[p])[x])
  {
    hide RoutesIn;
  }

  lemma RouteHasSidRule(cfg: Config, d: Domain, st0: State, st: State, desired: Desired, claimed: Claims, a: Address, r: EncapRoute)
    requires ValidDomain(d) && DesiredOk(d.f, desired) && claimed.Keys <= desired.Keys
    requires AllDevicesKnown(cfg, d) && Synced(cfg, d, st0, st, desired, claimed)
    requires HoldsRoute(cfg, d.f, st, claimed, r) && !r.sealed && [a] <= r.segments
    ensures (d.f, a) in st.sidRules
  {
    hide *;
    assert r.segments[0] == a;
    var steered, p, x := WhichRoute(cfg, d.f, st, claimed, r);
    if steered {
      ClaimedParts(cfg, d, st0, st, desired, claimed, p);
      SteeredReachable(cfg, d.f, st, desired[p], x);
      ReachableMeans(st, d.f, r);
    } else {
      VrfRouteHasSidRule(cfg, d, st0, st, desired, claimed, x);
    }
  }

  lemma ReachableMeans(st: State, f: nat, r: EncapRoute)
    requires Reachable(st, f, r) && !r.sealed
    ensures r.segments != [] && (f, r.segments[0]) in st.sidRules
  {
  }

  lemma WhichRoute(cfg: Config, f: nat, st: State, claimed: Claims, r: EncapRoute) returns (steered: bool, p: PortId, x: Dest)
    requires HoldsRoute(cfg, f, st, claimed, r)
    ensures steered ==> p in claimed && x in RoutesIn(st, claimed[p]) && RoutesIn(st, claimed[p])[x] == r
    ensures !steered ==> x in RoutesIn(st, VrfTable(cfg, f)) && RoutesIn(st, VrfTable(cfg, f))[x] == r
  {
    hide RoutesIn;
    steered, p := false, 0;
    if y :| y in RoutesIn(st, VrfTable(cfg, f)) && RoutesIn(st, VrfTable(cfg, f))[y] == r {
      x := y;
    } else {
      steered := true;
      p, x :| p in claimed && x in RoutesIn(st, claimed[p]) && RoutesIn(st, claimed[p])[x] == r;
    }
  }

  lemma VrfRouteHasSidRule(cfg: Config, d: Domain, st0: State, st: State, desired: Desired, claimed: Claims, x: Dest)
    requires ValidDomain(d) && DesiredOk(d.f, desired) && claimed.Keys <= desired.Keys
    requires AllDevicesKnown(cfg, d) && Synced(cfg, d, st0, st, desired, claimed)
    requires x in RoutesIn(st, VrfTable(cfg, d.f)) && !RoutesIn(st, VrfTable(cfg, d.f))[x].sealed
    ensures var r := RoutesIn(st, VrfTable(cfg, d.f))[x]; r.segments != [] && (d.f, r.segments[0]) in st.sidRules
  {
    SyncedVrf(cfg, d, st0, st, desired, claimed);
    InstalledFacts(cfg, d.f, d.locators, d.routes);
    KeptInstalled(RoutesIn(st0, VrfTable(cfg, d.f)), Installed(cfg, d.f, d.locators, d.routes), Wanted(cfg, d.locators, d.routes));
    hide Installed, RuleSids, Wanted, DevicesKnown, RoutesIn, Kept, Synced, AllSteerSids;
  }
}
