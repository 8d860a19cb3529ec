// What a full sync of one domain amounts to, whatever the kernel held before.

module Sync {
  import opened Csid
  import opened Payload
  import opened Kernel
  import opened EncapRoutes
  import opened Steering

  // A domain as the payload describes it, encoded for this node.
  datatype Domain = Domain(f: nat, locators: Locators, gateways: Gateways, routes: seq<Route>)

  ghost predicate ValidDomain(d: Domain) {
    && d.f < STEER_TABLE_OFFSET && AllEncodable(d.f, d.locators)
    && forall n | n in d.gateways :: d.gateways[n].f == d.f
  }

  ghost predicate AllDevicesKnown(cfg: Config, d: Domain)
    requires ValidDomain(d)
  {
    DevicesKnown(cfg, d.f, d.locators, d.routes)
  }

  // And those of its steer routes.
  ghost predicate AllKnown(cfg: Config, d: Domain, desired: Desired)
    requires ValidDomain(d) && DesiredOk(d.f, desired)
  {
    && AllDevicesKnown(cfg, d)
    && forall p, x | p in desired && x in desired[p].routes :: SteerEncap(cfg, d.f, desired[p], x).dev.Some?
  }

  ghost predicate Asked(cfg: Config, d: Domain, desired: Desired) {
    IsDesired(cfg, d.locators, d.gateways, d.routes, desired) && DesiredOk(d.f, desired)
  }

  function Unwanted(wanted: set<Dest>): Dest -> bool {
    (x: Dest) => x !in wanted
  }

  // The kernel after a full sync.
  ghost predicate Synced(cfg: Config, d: Domain, st0: State, st: State, desired: Desired, claimed: Claims)
    requires ValidDomain(d) && DesiredOk(d.f, desired) && claimed.Keys <= desired.Keys
  {
    var vrf := VrfTable(cfg, d.f);
    && RoutesIn(st, vrf) == Kept(RoutesIn(st0, vrf) + Installed(cfg, d.f, d.locators, d.routes),
                                 Unwanted(Wanted(cfg, d.locators, d.routes)))
    && (forall p | p in claimed :: RoutesIn(st, claimed[p]) == SteerRoutes(cfg, d.f, desired[p]))
    && (forall t | t in OwnTables(st0, d.f) && t !in claimed.Values :: RoutesIn(st, t) == map[])
    && (forall t | t != vrf && t !in OwnTables(st0, d.f) && t !in claimed.Values :: RoutesIn(st, t) == RoutesIn(st0, t))
    && (forall f, a :: (f, a) in st.sidRules <==> if f == d.f then a in NeededSids(cfg, d, desired, claimed.Keys)
                                                  else (f, a) in st0.sidRules)
    && (forall r :: r in st.steerRules <==>
          (r in st0.steerRules && r.iif.f != d.f) || OwnRule(desired, claimed, claimed.Keys, r))
  }

  // The SIDs the domain's VRF routes and steer routes start with.
  ghost function NeededSids(cfg: Config, d: Domain, desired: Desired, vms: set<PortId>): set<Address>
    requires ValidDomain(d) && DesiredOk(d.f, desired) && vms <= desired.Keys
  {
    RuleSids(cfg, d.f, d.locators, d.routes) + AllSteerSids(cfg, d.f, desired, vms)
  }

  // ------------------------------------------------------------------
  // The four phases add up
  // ------------------------------------------------------------------
  // Routes in, unwanted routes out.
  ghost predicate VrfSynced(cfg: Config, d: Domain, st0: State, st: State)
    requires ValidDomain(d)
  {
    var vrf := VrfTable(cfg, d.f);
    && RoutesIn(st, vrf) == Kept(RoutesIn(st0, vrf) + Installed(cfg, d.f, d.locators, d.routes),
                                 Unwanted(Wanted(cfg, d.locators, d.routes)))
    && (forall t | t != vrf :: RoutesIn(st, t) == RoutesIn(st0, t))
    && st.sidRules == st0.sidRules + RulesFor(d.f, RuleSids(cfg, d.f, d.locators, d.routes))
    && st.steerRules == st0.steerRules
  }

  lemma VrfPhases(cfg: Config, d: Domain, st0: State, st1: State, st2: State)
    requires ValidDomain(d)
    requires VrfGrown(cfg, d.f, st0, st1, Installed(cfg, d.f, d.locators, d.routes), RuleSids(cfg, d.f, d.locators, d.routes))
    requires TablePruned(VrfTable(cfg, d.f), st1, st2, Unwanted(Wanted(cfg, d.locators, d.routes)))
    ensures VrfSynced(cfg, d, st0, st2)
  {
    hide RoutesIn, Installed, RuleSids, RulesFor, Kept, Wanted;
  }

  lemma PhasesAddUp(cfg: Config, d: Domain, st0: State, st2: State, st3: State, st: State, desired: Desired, claimed: Claims)
    requires ValidDomain(d) && DesiredOk(d.f, desired)
    requires SteerRulesOk(cfg, st0) && VrfSynced(cfg, d, st0, st2)
    requires ClaimsOk(cfg, st2, d.f, desired, claimed) && claimed.Keys <= desired.Keys
    requires SteeringDone(cfg, st2, st3, d.f, desired, claimed)
    requires st == st3.(sidRules := set r | r in st3.sidRules && (r.0 == d.f ==> r.1 in NeededSids(cfg, d, desired, claimed.Keys)))
    ensures Synced(cfg, d, st0, st, desired, claimed)
  {
    VrfIsNoSteerTable(cfg, d.f, st2, desired, claimed);
    SameOwnTables(st0, st2, d.f);
    PhaseSids(cfg, d, st0, st2, st3, st, desired, claimed);
    RulesOnlyDiffer(st3, st);
    hide RoutesIn, Installed, RuleSids, RulesFor, Kept, Wanted, AllSteerSids, OwnTables, OwnRule, SteerRoutes, NeededSids;
  }

  lemma SameOwnTables(st0: State, st2: State, f: nat)
    requires st0.steerRules == st2.steerRules
    ensures OwnTables(st0, f) == OwnTables(st2, f) && UsedTables(st0) == UsedTables(st2)
  {
  }

  lemma RulesOnlyDiffer(st3: State, st: State)
    requires st == st3.(sidRules := st.sidRules)
    ensures forall t :: RoutesIn(st, t) == RoutesIn(st3, t)
  {
  }

  lemma VrfIsNoSteerTable(cfg: Config, f: nat, st: State, desired: Desired, claimed: Claims)
    requires f < STEER_TABLE_OFFSET && SteerRulesOk(cfg, st) && ClaimsOk(cfg, st, f, desired, claimed)
    ensures VrfTable(cfg, f) !in OwnTables(st, f) && VrfTable(cfg, f) !in claimed.Values
  {
  }

  lemma PhaseSids(cfg: Config, d: Domain, st0: State, st2: State, st3: State, st: State, desired: Desired, claimed: Claims)
    requires ValidDomain(d) && DesiredOk(d.f, desired) && claimed.Keys <= desired.Keys
    requires st2.sidRules == st0.sidRules + RulesFor(d.f, RuleSids(cfg, d.f, d.locators, d.routes))
    requires st3.sidRules == st2.sidRules + RulesFor(d.f, AllSteerSids(cfg, d.f, desired, claimed.Keys))
    requires st.sidRules == set r | r in st3.sidRules && (r.0 == d.f ==> r.1 in NeededSids(cfg, d, desired, claimed.Keys))
    ensures forall f, a :: (f, a) in st.sidRules <==> if f == d.f then a in NeededSids(cfg, d, desired, claimed.Keys)
                                                      else (f, a) in st0.sidRules
  {
    hide RuleSids, AllSteerSids;
  }

  // ------------------------------------------------------------------
  // Make before break, at every kernel step
  // ------------------------------------------------------------------
  // The step to s on the way from st0 to st opened no table that is not
  // ready; and if the sync leaves the VRFs safe, so did this step.
  ghost predicate StepSafe(cfg: Config, d: Domain, st0: State, st: State, s: State, desired: Desired)
    requires DesiredOk(d.f, desired)
  {
    && NewTablesReady(cfg, st0, s, d.f, desired)
    && (VrfsSafe(cfg, st0) && VrfsSafe(cfg, st) ==> VrfsSafe(cfg, s))
  }

  ghost predicate StepsSafe(cfg: Config, d: Domain, st0: State, st: State, trace: seq<State>, n: nat, desired: Desired)
    requires ValidDomain(d) && DesiredOk(d.f, desired)
  {
    forall i | n <= i < |trace| :: StepSafe(cfg, d, st0, st, trace[i], desired)
  }

  // A full sync from st0: which VMs it was asked to steer and into which
  // tables, the kernel it leaves, and its steps, the newest states of `trace`.
  ghost predicate FullSync(cfg: Config, d: Domain, st0: State, st: State, trace: seq<State>, n: nat,
                           desired: Desired, claimed: Claims)
    requires ValidDomain(d)
  {
    && Asked(cfg, d, desired)
    && ClaimsOk(cfg, st0, d.f, desired, claimed)
    && Reclaims(desired, TablesOf(st0, d.f), claimed)
    && NobodyLeftOut(FreeTables(cfg, st0), desired, claimed)
    && claimed.Keys <= desired.Keys
    && Synced(cfg, d, st0, st, desired, claimed)
    && StepsSafe(cfg, d, st0, st, trace, n, desired)
  }

  // Deleting only SIDs nobody needs keeps every table ready, and until the
  // last is gone no route is worse off than then.
  lemma PruningSidsIsSafe(cfg: Config, d: Domain, st0: State, st2: State, st3: State, s: State, st: State, desired: Desired,
                          claimed: Claims)
    requires ValidDomain(d) && DesiredOk(d.f, desired)
    requires VrfSynced(cfg, d, st0, st2) && claimed.Keys <= desired.Keys
    requires SteeringDone(cfg, st2, st3, d.f, desired, claimed)
    requires RulesBetween(st3, s, d.f, NeededSids(cfg, d, desired, claimed.Keys))
    requires st == st3.(sidRules := st.sidRules) && st.sidRules <= s.sidRules
    ensures StepSafe(cfg, d, st0, st, s, desired)
  {
    SameOwnTables(st0, st2, d.f);
    SidsStayReady(cfg, d, st2, st3, s, desired, claimed);
    SameUsed(cfg, st0, st2, s, d.f, desired);
    MoreRulesAreSafe(cfg, st, s);
  }

  lemma MoreRulesAreSafe(cfg: Config, st: State, s: State)
    requires s.routes == st.routes && st.sidRules <= s.sidRules
    ensures VrfsSafe(cfg, st) ==> VrfsSafe(cfg, s)
  {
  }

  lemma SameUsed(cfg: Config, st0: State, st2: State, s: State, f: nat, desired: Desired)
    requires DesiredOk(f, desired) && UsedTables(st0) == UsedTables(st2)
    ensures NewTablesReady(cfg, st0, s, f, desired) == NewTablesReady(cfg, st2, s, f, desired)
  {
    hide UsedTables, RuleIsReady;
  }

  lemma SidsStayReady(cfg: Config, d: Domain, st2: State, st3: State, s: State, desired: Desired, claimed: Claims)
    requires ValidDomain(d) && DesiredOk(d.f, desired) && claimed.Keys <= desired.Keys
    requires SteeringDone(cfg, st2, st3, d.f, desired, claimed)
    requires RulesBetween(st3, s, d.f, NeededSids(cfg, d, desired, claimed.Keys))
    ensures NewTablesReady(cfg, st2, s, d.f, desired)
  {
    RulesOnlyDiffer(st3, s);
    forall r | r in s.steerRules && r.table !in UsedTables(st2)
      ensures RuleIsReady(cfg, s, d.f, desired, r)
    {
      assert r in st3.steerRules && r !in st2.steerRules;
      assert OwnRule(desired, claimed, claimed.Keys, r);
      var p :| p in claimed.Keys && p in claimed && p in desired && r in SteerRulesOf(desired[p], claimed[p]);
      WantedRulesHold(desired[p], claimed[p], r);
      SidsKept(cfg, d, st2, st3, s, desired, claimed, p);
      hide RoutesIn, SteerRoutes, SteerSids, RulesFor;
      assert Ready(cfg, s, d.f, r.table, desired[p]);
    }
  }

  lemma SidsKept(cfg: Config, d: Domain, st2: State, st3: State, s: State, desired: Desired, claimed: Claims, p: PortId)
    requires ValidDomain(d) && DesiredOk(d.f, desired) && claimed.Keys <= desired.Keys && p in claimed
    requires st3.sidRules == st2.sidRules + RulesFor(d.f, AllSteerSids(cfg, d.f, desired, claimed.Keys))
    requires RulesBetween(st3, s, d.f, NeededSids(cfg, d, desired, claimed.Keys))
    ensures RulesFor(d.f, SteerSids(cfg, d.f, desired[p])) <= s.sidRules
  {
    hide SteerSids, RuleSids;
    forall a | a in SteerSids(cfg, d.f, desired[p])
      ensures (d.f, a) in s.sidRules
    {
      assert a in AllSteerSids(cfg, d.f, desired, claimed.Keys);
    }
  }

  lemma KeptInstalled(old_: map<Dest, EncapRoute>, installed: map<Dest, EncapRoute>, wanted: set<Dest>)
    requires installed.Keys == wanted
    ensures Kept(old_ + installed, Unwanted(wanted)) == installed
  {
  }

  // ------------------------------------------------------------------
  // Steer rules stay on steer tables, one domain a table
  // ------------------------------------------------------------------
  lemma OwnRuleIs(desired: Desired, claimed: Claims, vms: set<PortId>, r: SteerRule) returns (p: PortId)
    requires OwnRule(desired, claimed, vms, r)
    ensures p in vms && p in claimed && p in desired && r.table == claimed[p] && r.iif == desired[p].iif
  {
    p :| p in vms && p in claimed && p in desired && r in SteerRulesOf(desired[p], claimed[p]);
    WantedRulesHold(desired[p], claimed[p], r);
  }

  lemma RulesStayOk(cfg: Config, f: nat, st0: State, st: State, desired: Desired, claimed: Claims)
    requires DesiredOk(f, desired) && SteerRulesOk(cfg, st0) && ClaimsOk(cfg, st0, f, desired, claimed)
    requires forall r | r in st.steerRules :: r in st0.steerRules || OwnRule(desired, claimed, claimed.Keys, r)
    ensures SteerRulesOk(cfg, st)
  {
    hide DesiredEncodable, Injective, OwnRule, SteerRulesOf;
    forall r | r in st.steerRules
      ensures IsSteerTable(cfg, r.table)
    {
      if r !in st0.steerRules {
        var p := OwnRuleIs(desired, claimed, claimed.Keys, r);
      }
    }
    forall r, s | r in st.steerRules && s in st.steerRules && r.table == s.table
      ensures r.iif.f == s.iif.f
    {
      SameDomain(cfg, f, st0, st, desired, claimed, r, s);
      SameDomain(cfg, f, st0, st, desired, claimed, s, r);
    }
  }

  lemma SameDomain(cfg: Config, f: nat, st0: State, st: State, desired: Desired, claimed: Claims, r: SteerRule, s: SteerRule)
    requires DesiredOk(f, desired) && SteerRulesOk(cfg, st0) && ClaimsOk(cfg, st0, f, desired, claimed)
    requires forall x | x in st.steerRules :: x in st0.steerRules || OwnRule(desired, claimed, claimed.Keys, x)
    requires r in st.steerRules && s in st.steerRules && r.table == s.table
    ensures r !in st0.steerRules ==> r.iif.f == s.iif.f
    ensures r in st0.steerRules && s in st0.steerRules ==> r.iif.f == s.iif.f
  {
    hide DesiredEncodable, Injective, OwnRule, SteerRulesOf;
    if r !in st0.steerRules {
      var p := OwnRuleIs(desired, claimed, claimed.Keys, r);
      if s in st0.steerRules {
        assert s.table in UsedTables(st0);
        assert claimed[p] in OwnTables(st0, f);
      } else {
        var q := OwnRuleIs(desired, claimed, claimed.Keys, s);
      }
    }
  }

  // ------------------------------------------------------------------
  // History independence
  // ------------------------------------------------------------------
  ghost predicate IsRemotePrefix(cfg: Config, d: Domain, x: Dest) {
    exists i :: 0 <= i < |d.routes| && IsRemote(cfg, d.locators, d.routes[i]) && d.routes[i].prefix == x
  }

  ghost predicate DistinctPrefixes(cfg: Config, d: Domain) {
    forall i, j | 0 <= i < |d.routes| && 0 <= j < |d.routes|
               && IsRemote(cfg, d.locators, d.routes[i]) && IsRemote(cfg, d.locators, d.routes[j])
               && d.routes[i].prefix == d.routes[j].prefix :: i == j
  }

  // Whatever the kernel held before, the VRF holds exactly one encap route
  // per remote prefix of the payload, its SID rules are those the routes
  // need, and each steered VM's table holds exactly its routes.
  lemma HistoryIndependent(cfg: Config, d: Domain, st0: State, st: State, desired: Desired, claimed: Claims)
    requires ValidDomain(d) && DesiredOk(d.f, desired) && claimed.Keys == desired.Keys
    requires Synced(cfg, d, st0, st, desired, claimed) && AllDevicesKnown(cfg, d)
    ensures RoutesIn(st, VrfTable(cfg, d.f)) == Installed(cfg, d.f, d.locators, d.routes)
    ensures forall x :: x in RoutesIn(st, VrfTable(cfg, d.f)) <==> IsRemotePrefix(cfg, d, x)
    ensures forall a :: (d.f, a) in st.sidRules <==> a in NeededSids(cfg, d, desired, desired.Keys)
    ensures forall p | p in desired :: RoutesIn(st, claimed[p]) == SteerRoutes(cfg, d.f, desired[p])
  {
    InstalledFacts(cfg, d.f, d.locators, d.routes);
    KeptInstalled(RoutesIn(st0, VrfTable(cfg, d.f)), Installed(cfg, d.f, d.locators, d.routes), Wanted(cfg, d.locators, d.routes));
    forall x
      ensures x in Wanted(cfg, d.locators, d.routes) <==> IsRemotePrefix(cfg, d, x)
    {
    }
    hide RoutesIn, Installed, Kept, Wanted, NeededSids, SteerRoutes, OwnTables, OwnRule, IsRemotePrefix, DevicesKnown;
  }

  // One encap route per remote prefix: the encoding of that prefix's route.
  lemma {:induction false} InstalledIsEncoding(cfg: Config, f: nat, locators: Locators, routes: seq<Route>, i: nat)
    requires AllEncodable(f, locators) && i < |routes| && IsRemote(cfg, locators, routes[i])
    requires EncapFor(cfg, f, locators, routes[i]).dev.Some?
    requires forall j | i < j < |routes| && IsRemote(cfg, locators, routes[j]) :: routes[j].prefix != routes[i].prefix
    ensures var m := Installed(cfg, f, locators, routes);
            routes[i].prefix in m && m[routes[i].prefix] == AsRoute(EncapFor(cfg, f, locators, routes[i]))
  {
    hide EncapFor;
    var n := |routes| - 1;
    if i < n {
      assert routes[..n][i] == routes[i];
      InstalledIsEncoding(cfg, f, locators, routes[..n], i);
    }
  }

  // No SID rule is left without a route that starts with its SID.
  lemma NoIdleSidRule(cfg: Config, d: Domain, a: Address)
    requires ValidDomain(d) && AllDevicesKnown(cfg, d) && DistinctPrefixes(cfg, d)
    ensures a in RuleSids(cfg, d.f, d.locators, d.routes) <==>
              exists x :: x in Installed(cfg, d.f, d.locators, d.routes)
                       && !Installed(cfg, d.f, d.locators, d.routes)[x].sealed
                       && [a] <= Installed(cfg, d.f, d.locators, d.routes)[x].segments
  {
    var m := Installed(cfg, d.f, d.locators, d.routes);
    InstalledFacts(cfg, d.f, d.locators, d.routes);
    if a in RuleSids(cfg, d.f, d.locators, d.routes) {
      var x := RouteOfSid(cfg, d, a);
    }
    hide *;
    if x :| x in m && !m[x].sealed && [a] <= m[x].segments {
      assert m[x].segments[0] == a;
    }
  }

  lemma RouteOfSid(cfg: Config, d: Domain, a: Address) returns (x: Dest)
    requires ValidDomain(d) && AllDevicesKnown(cfg, d) && DistinctPrefixes(cfg, d)
    requires a in RuleSids(cfg, d.f, d.locators, d.routes)
    ensures var m := Installed(cfg, d.f, d.locators, d.routes); x in m && !m[x].sealed && [a] <= m[x].segments
  {
    hide EncapFor;
    InstalledFacts(cfg, d.f, d.locators, d.routes);
    var i :| 0 <= i < |d.routes| && IsRemote(cfg, d.locators, d.routes[i])
          && !EncapFor(cfg, d.f, d.locators, d.routes[i]).sealed
          && EncapFor(cfg, d.f, d.locators, d.routes[i]).segments[0] == a;
    InstalledIsEncoding(cfg, d.f, d.locators, d.routes, i);
    x := d.routes[i].prefix;
  }

  // ------------------------------------------------------------------
  // A second sync changes nothing
  // ------------------------------------------------------------------
  ghost predicate OwnAddresses(desired: Desired) {
    && (forall p | p in desired :: desired[p].prefixes != {})
    && forall p, q | p in desired && q in desired && p != q && desired[p].iif == desired[q].iif ::
         desired[p].prefixes !! desired[q].prefixes
  }

  // The rules on a claimed table are its VM's, one per address.
  lemma ClaimedSelectors(cfg: Config, d: Domain, st0: State, st: State, desired: Desired, claimed: Claims, p: PortId)
    requires ValidDomain(d) && DesiredOk(d.f, desired) && claimed.Keys <= desired.Keys && Injective(claimed)
    requires Synced(cfg, d, st0, st, desired, claimed) && p in claimed
    ensures SelectorsOf(st, d.f, claimed[p]) == Wanting(desired[p])
  {
    hide RoutesIn, SteerRoutes, NeededSids, Kept, Installed, Wanted, DesiredEncodable;
    forall x
      ensures x in SelectorsOf(st, d.f, claimed[p]) <==> x in Wanting(desired[p])
    {
      var r := SteerRule(x.0, x.1, claimed[p]);
      SelectorsHold(st, d.f, claimed[p], x.0, x.1);
      WantedRulesHold(desired[p], claimed[p], r);
      if OwnRule(desired, claimed, claimed.Keys, r) {
        var q := OwnRuleIs(desired, claimed, claimed.Keys, r);
        assert q == p;
        OwnRuleOf(desired, claimed, r, p);
      }
      if r in SteerRulesOf(desired[p], claimed[p]) {
        assert OwnRule(desired, claimed, claimed.Keys, r);
      }
    }
  }

  lemma OwnRuleOf(desired: Desired, claimed: Claims, r: SteerRule, p: PortId)
    requires Injective(claimed) && p in claimed && p in desired && r.table == claimed[p]
    requires OwnRule(desired, claimed, claimed.Keys, r)
    ensures r in SteerRulesOf(desired[p], claimed[p])
  {
    var q :| q in claimed.Keys && q in claimed && q in desired && r in SteerRulesOf(desired[q], claimed[q]);
    WantedRulesHold(desired[q], claimed[q], r);
  }

  lemma MatchesOwn(e: Steered, e': Steered)
    requires e'.prefixes != {}
    ensures Matches(e, Wanting(e')) <==> e.iif == e'.iif && e.prefixes * e'.prefixes != {}
  {
    var w := Wanting(e');
    assert (set x | x in w :: x.1) == {e'.iif} by {
      var q :| q in e'.prefixes;
      assert (q, e'.iif) in w;
    }
    forall q
      ensures q in (set x | x in w :: x.0) <==> q in e'.prefixes
    {
      if q in e'.prefixes {
        assert (q, e'.iif) in w;
      }
    }
    hide Wanting;
    if e.prefixes * e'.prefixes != {} {
      var q :| q in e.prefixes * e'.prefixes;
      assert q in (set x | x in w :: x.0) * e.prefixes;
    }
    if (set x | x in w :: x.0) * e.prefixes != {} {
      var q :| q in (set x | x in w :: x.0) * e.prefixes;
      assert q in e.prefixes * e'.prefixes;
    }
  }

  // Every VM's own table is the only one it matches, and it matches nobody else's.
  lemma OwnTableMatches(cfg: Config, d: Domain, st0: State, st: State, desired: Desired, claimed: Claims, p: PortId)
    requires ValidDomain(d) && DesiredOk(d.f, desired) && claimed.Keys == desired.Keys && Injective(claimed)
    requires Synced(cfg, d, st0, st, desired, claimed) && OwnAddresses(desired) && p in desired
    ensures OnlyMatch(desired, TablesOf(st, d.f), p, claimed[p])
  {
    hide Synced, DesiredOk, Matches, ValidDomain, Wanting;
    forall q | q in desired
      ensures claimed[q] in OwnTables(st, d.f) && SelectorsOf(st, d.f, claimed[q]) == Wanting(desired[q])
    {
      TableIsUsed(cfg, d, st0, st, desired, claimed, q);
    }
    forall u | u in OwnTables(st, d.f)
      ensures exists q :: q in desired && claimed[q] == u
    {
      UsedIsClaimed(cfg, d, st0, st, desired, claimed, u);
    }
    forall q, q' | q in desired && q' in desired
      ensures Matches(desired[q], Wanting(desired[q'])) <==> q == q'
    {
      MatchesOwn(desired[q], desired[q']);
      if q != q' && desired[q].iif == desired[q'].iif {
        assert desired[q].prefixes !! desired[q'].prefixes;
      }
    }
    hide OwnTables, SelectorsOf, OwnAddresses;
  }

  lemma TableIsUsed(cfg: Config, d: Domain, st0: State, st: State, desired: Desired, claimed: Claims, q: PortId)
    requires ValidDomain(d) && DesiredOk(d.f, desired) && claimed.Keys == desired.Keys && Injective(claimed)
    requires Synced(cfg, d, st0, st, desired, claimed) && OwnAddresses(desired) && q in desired
    ensures claimed[q] in OwnTables(st, d.f) && SelectorsOf(st, d.f, claimed[q]) == Wanting(desired[q])
  {
    ClaimedSelectors(cfg, d, st0, st, desired, claimed, q);
    hide Synced, Wanting, DesiredOk;
    var x :| x in desired[q].prefixes;
    WantedRulesHold(desired[q], claimed[q], SteerRule(x, desired[q].iif, claimed[q]));
    SelectorsHold(st, d.f, claimed[q], x, desired[q].iif);
    var r := SteerRule(x, desired[q].iif, claimed[q]);
    assert r in st.steerRules && r.iif.f == d.f && r.table == claimed[q];
  }

  lemma UsedIsClaimed(cfg: Config, d: Domain, st0: State, st: State, desired: Desired, claimed: Claims, u: Table)
    requires ValidDomain(d) && DesiredOk(d.f, desired) && claimed.Keys == desired.Keys
    requires Synced(cfg, d, st0, st, desired, claimed) && u in OwnTables(st, d.f)
    ensures exists q :: q in desired && claimed[q] == u
  {
    hide RoutesIn, SteerRoutes, NeededSids, Kept, Installed, Wanted, DesiredEncodable;
    var r :| r in st.steerRules && r.iif.f == d.f && r.table == u;
    assert OwnRule(desired, claimed, claimed.Keys, r);
    var q := OwnRuleIs(desired, claimed, claimed.Keys, r);
  }

  // With addresses of its own behind each gateway, every VM gets its table
  // back, and the kernel is left as it was.
  lemma SecondSyncChangesNothing(cfg: Config, d: Domain, st0: State, st1: State, st2: State, desired: Desired,
                                 claimed1: Claims, claimed2: Claims)
    requires ValidDomain(d) && DesiredOk(d.f, desired)
    requires claimed1.Keys == desired.Keys && claimed2.Keys <= desired.Keys
    requires Injective(claimed1) && OwnAddresses(desired)
    requires Synced(cfg, d, st0, st1, desired, claimed1) && Synced(cfg, d, st1, st2, desired, claimed2)
    requires Reclaims(desired, TablesOf(st1, d.f), claimed2)
    ensures claimed2 == claimed1 && st2 == st1
  {
    hide *;
    EveryTableReclaimed(cfg, d, st0, st1, desired, claimed1, claimed2);
    SameTables(cfg, d, st0, st1, st2, desired, claimed1);
    SameRuleSets(cfg, d, st0, st1, st2, desired, claimed1);
    SameRoutes(st1, st2);
  }

  lemma EveryTableReclaimed(cfg: Config, d: Domain, st0: State, st1: State, desired: Desired, claimed1: Claims,
                            claimed2: Claims)
    requires ValidDomain(d) && DesiredOk(d.f, desired) && claimed1.Keys == desired.Keys
    requires Injective(claimed1) && OwnAddresses(desired) && Synced(cfg, d, st0, st1, desired, claimed1)
    requires Reclaims(desired, TablesOf(st1, d.f), claimed2) && claimed2.Keys <= desired.Keys
    ensures claimed2 == claimed1
  {
    hide Synced, OnlyMatch, OwnAddresses, TablesOf, DesiredOk, ValidDomain;
    forall p: PortId | p in desired
      ensures p in claimed2 && claimed2[p] == claimed1[p]
    {
      OwnTableMatches(cfg, d, st0, st1, desired, claimed1, p);
    }
  }

  lemma SameRoutes(st: State, st': State)
    requires forall t :: RoutesIn(st, t) == RoutesIn(st', t)
    ensures st.routes == st'.routes
  {
    forall k
      ensures k in st.routes <==> k in st'.routes
      ensures k in st.routes && k in st'.routes ==> st.routes[k] == st'.routes[k]
    {
      assert k == (k.0, k.1);
      assert k in st.routes <==> k.1 in RoutesIn(st, k.0);
      assert k in st'.routes <==> k.1 in RoutesIn(st', k.0);
      assert k in st.routes ==> RoutesIn(st, k.0)[k.1] == st.routes[k];
      assert k in st'.routes ==> RoutesIn(st', k.0)[k.1] == st'.routes[k];
    }
  }

  // Installing and pruning once more leaves a table as it is.
  lemma KeptTwice(before: map<Dest, EncapRoute>, installed: map<Dest, EncapRoute>, doomed: Dest -> bool)
    ensures Kept(Kept(before + installed, doomed) + installed, doomed) == Kept(before + installed, doomed)
  {
  }

  lemma SameTables(cfg: Config, d: Domain, st0: State, st1: State, st2: State, desired: Desired, claimed: Claims)
    requires ValidDomain(d) && DesiredOk(d.f, desired) && claimed.Keys == desired.Keys
    requires Synced(cfg, d, st0, st1, desired, claimed) && Synced(cfg, d, st1, st2, desired, claimed)
    ensures forall t :: RoutesIn(st1, t) == RoutesIn(st2, t)
  {
    KeptTwice(RoutesIn(st0, VrfTable(cfg, d.f)), Installed(cfg, d.f, d.locators, d.routes), Unwanted(Wanted(cfg, d.locators, d.routes)));
    forall u | u in OwnTables(st1, d.f)
      ensures u in claimed.Values
    {
      UsedIsClaimed(cfg, d, st0, st1, desired, claimed, u);
    }
    hide RoutesIn, SteerRoutes, NeededSids, Kept, Installed, Wanted, DesiredOk, OwnRule, OwnTables, IsRemotePrefix, DevicesKnown;
  }

  lemma SameRuleSets(cfg: Config, d: Domain, st0: State, st1: State, st2: State, desired: Desired, claimed: Claims)
    requires ValidDomain(d) && DesiredOk(d.f, desired) && claimed.Keys == desired.Keys
    requires Synced(cfg, d, st0, st1, desired, claimed) && Synced(cfg, d, st1, st2, desired, claimed)
    ensures st1.sidRules == st2.sidRules && st1.steerRules == st2.steerRules
  {
    forall r | OwnRule(desired, claimed, claimed.Keys, r)
      ensures r.iif.f == d.f
    {
      var p := OwnRuleIs(desired, claimed, claimed.Keys, r);
    }
    hide RoutesIn, SteerRoutes, NeededSids, Kept, Installed, Wanted, DesiredOk, OwnRule, OwnTables;
    forall r
      ensures r in st1.sidRules <==> r in st2.sidRules
    {
      assert r == (r.0, r.1);
    }
  }

  // ------------------------------------------------------------------
  // Glue for the full sync
  // ------------------------------------------------------------------
  lemma ValidParts(d: Domain)
    requires ValidDomain(d)
    ensures d.f < STEER_TABLE_OFFSET && AllEncodable(d.f, d.locators)
    ensures forall n | n in d.gateways :: d.gateways[n].f == d.f
  {
  }

  lemma AskedParts(cfg: Config, d: Domain, desired: Desired)
    requires IsDesired(cfg, d.locators, d.gateways, d.routes, desired) && DesiredOk(d.f, desired)
    ensures Asked(cfg, d, desired)
  {
    hide IsDesired, DesiredOk;
  }

  lemma VrfPhasesOk(cfg: Config, d: Domain, st0: State, st2: State)
    requires ValidDomain(d) && VrfSynced(cfg, d, st0, st2) && SteerRulesOk(cfg, st0)
    ensures SteerRulesOk(cfg, st2) && st2.steerRules == st0.steerRules
  {
    hide RoutesIn, Kept, Installed, RuleSids;
  }

  lemma SameForClaims(cfg: Config, d: Domain, st0: State, st2: State, desired: Desired, claimed: Claims)
    requires st0.steerRules == st2.steerRules
    ensures ClaimsOk(cfg, st2, d.f, desired, claimed) == ClaimsOk(cfg, st0, d.f, desired, claimed)
    ensures TablesOf(st2, d.f) == TablesOf(st0, d.f) && FreeTables(cfg, st2) == FreeTables(cfg, st0)
  {
    SameOwnTables(st0, st2, d.f);
    hide OwnTables, UsedTables, Injective;
    forall t
      ensures SelectorsOf(st2, d.f, t) == SelectorsOf(st0, d.f, t)
    {
    }
    hide SelectorsOf;
  }

  lemma NeededAre(cfg: Config, d: Domain, desired: Desired, claimed: Claims, sids: set<Address>, more: set<Address>)
    requires ValidDomain(d) && DesiredOk(d.f, desired) && claimed.Keys <= desired.Keys
    requires sids == RuleSids(cfg, d.f, d.locators, d.routes) && more == AllSteerSids(cfg, d.f, desired, claimed.Keys)
    ensures sids + more == NeededSids(cfg, d, desired, claimed.Keys)
  {
    hide RuleSids, AllSteerSids;
  }

  lemma QuietSteps(cfg: Config, st0: State, s: State, f: nat, desired: Desired)
    requires DesiredOk(f, desired) && s.steerRules == st0.steerRules
    ensures NewTablesReady(cfg, st0, s, f, desired)
  {
    hide RuleIsReady;
  }

  lemma VrfTraced(cfg: Config, d: Domain, st0: State, st1: State, st2: State, trace1: seq<State>, trace2: seq<State>, n: nat)
    requires ValidDomain(d) && Traced(cfg, st0, st1, trace1, n) && trace1 <= trace2
    requires st1.steerRules == st0.steerRules
    requires PruneTraced(cfg, VrfTable(cfg, d.f), st1, trace2, |trace1|, Unwanted(Wanted(cfg, d.locators, d.routes)))
    requires VrfsSafe(cfg, st1) ==> VrfsSafe(cfg, st2)
    ensures Traced(cfg, st0, st2, trace2, n)
  {
    hide VrfsSafe, RoutesIn, Wanted;
    forall i | n <= i < |trace2|
      ensures trace2[i].steerRules == st0.steerRules
      ensures VrfsSafe(cfg, st0) ==> VrfsSafe(cfg, trace2[i])
    {
      if i < |trace1| {
        assert trace2[i] == trace1[i];
      }
    }
  }

  lemma GrownKeepsRules(cfg: Config, f: nat, st0: State, st: State, m: map<Dest, EncapRoute>, sids: set<Address>)
    requires VrfGrown(cfg, f, st0, st, m, sids)
    ensures st.steerRules == st0.steerRules
  {
  }

  lemma SyncIsSafe(cfg: Config, d: Domain, st0: State, st2: State, st3: State, st: State,
                   trace2: seq<State>, trace3: seq<State>, trace: seq<State>, n: nat, desired: Desired, claimed: Claims)
    requires ValidDomain(d) && DesiredOk(d.f, desired) && SteerRulesOk(cfg, st0)
    requires Traced(cfg, st0, st2, trace2, n) && trace2 <= trace3 <= trace
    requires VrfSynced(cfg, d, st0, st2)
    requires ClaimsOk(cfg, st2, d.f, desired, claimed) && claimed.Keys <= desired.Keys
    requires SteeringDone(cfg, st2, st3, d.f, desired, claimed)
    requires SteerTraced(cfg, st2, trace3, |trace2|, d.f, desired)
    requires st == st3.(sidRules := set r | r in st3.sidRules && (r.0 == d.f ==> r.1 in NeededSids(cfg, d, desired, claimed.Keys)))
    requires forall i | |trace3| <= i < |trace| ::
               RulesBetween(st3, trace[i], d.f, NeededSids(cfg, d, desired, claimed.Keys))
    ensures Synced(cfg, d, st0, st, desired, claimed)
    ensures StepsSafe(cfg, d, st0, st, trace, n, desired)
    ensures SteerRulesOk(cfg, st)
  {
    hide *;
    PhasesAddUp(cfg, d, st0, st2, st3, st, desired, claimed);
    VrfPhasesOk(cfg, d, st0, st2);
    SafeThroughSteering(cfg, d, st0, st2, trace2, trace3, n, desired);
    FinalRules(cfg, d, st0, st2, st3, st, desired, claimed);
    forall i | n <= i < |trace|
      ensures StepSafe(cfg, d, st0, st, trace[i], desired)
    {
      if i < |trace3| {
        assert trace[i] == trace3[i];
        AnywaySafe(cfg, d, st0, st, trace[i], desired);
      } else {
        FewestAtTheEnd(cfg, d, st3, trace[i], st, desired, claimed);
        PruningSidsIsSafe(cfg, d, st0, st2, st3, trace[i], st, desired, claimed);
      }
    }
    StepsAre(cfg, d, st0, st, trace, n, desired);
  }

  lemma AnywaySafe(cfg: Config, d: Domain, st0: State, st: State, s: State, desired: Desired)
    requires DesiredOk(d.f, desired) && NewTablesReady(cfg, st0, s, d.f, desired)
    requires VrfsSafe(cfg, st0) ==> VrfsSafe(cfg, s)
    ensures StepSafe(cfg, d, st0, st, s, desired)
  {
    hide NewTablesReady, VrfsSafe;
  }

  lemma StepsAre(cfg: Config, d: Domain, st0: State, st: State, trace: seq<State>, n: nat, desired: Desired)
    requires ValidDomain(d) && DesiredOk(d.f, desired)
    requires forall i | n <= i < |trace| :: StepSafe(cfg, d, st0, st, trace[i], desired)
    ensures StepsSafe(cfg, d, st0, st, trace, n, desired)
  {
    hide StepSafe;
  }

  // The rules left at the end were there throughout the pruning.
  lemma FewestAtTheEnd(cfg: Config, d: Domain, st3: State, s: State, st: State, desired: Desired, claimed: Claims)
    requires ValidDomain(d) && DesiredOk(d.f, desired) && claimed.Keys <= desired.Keys
    requires RulesBetween(st3, s, d.f, NeededSids(cfg, d, desired, claimed.Keys))
    requires st == st3.(sidRules := set r | r in st3.sidRules && (r.0 == d.f ==> r.1 in NeededSids(cfg, d, desired, claimed.Keys)))
    ensures st == st3.(sidRules := st.sidRules) && st.sidRules <= s.sidRules
  {
    hide NeededSids;
  }

  lemma SyncIsFull(cfg: Config, d: Domain, st0: State, st2: State, st: State, trace: seq<State>, n: nat,
                   desired: Desired, claimed: Claims)
    requires ValidDomain(d) && st0.steerRules == st2.steerRules
    requires Asked(cfg, d, desired) && ClaimsOk(cfg, st2, d.f, desired, claimed)
    requires Reclaims(desired, TablesOf(st2, d.f), claimed) && claimed.Keys <= desired.Keys
    requires NobodyLeftOut(FreeTables(cfg, st2), desired, claimed)
    requires Synced(cfg, d, st0, st, desired, claimed) && StepsSafe(cfg, d, st0, st, trace, n, desired)
    ensures FullSync(cfg, d, st0, st, trace, n, desired, claimed)
  {
    SameForClaims(cfg, d, st0, st2, desired, claimed);
    hide Asked, ClaimsOk, Reclaims, TablesOf, FreeTables, NobodyLeftOut, Synced, StepsSafe;
  }

  // The last phase: what the whole sync amounts to.
  lemma SyncEnds(cfg: Config, d: Domain, st0: State, st2: State, st3: State, st: State, trace2: seq<State>, trace3: seq<State>,
                 trace: seq<State>, n: nat, sids: set<Address>, more: set<Address>, desired: Desired, claimed: Claims)
    requires ValidDomain(d) && SteerRulesOk(cfg, st0)
    requires Traced(cfg, st0, st2, trace2, n) && trace2 <= trace3 <= trace
    requires VrfSynced(cfg, d, st0, st2)
    requires IsDesired(cfg, d.locators, d.gateways, d.routes, desired) && DesiredOk(d.f, desired)
    requires ClaimsOk(cfg, st2, d.f, desired, claimed) && claimed.Keys <= desired.Keys
    requires Reclaims(desired, TablesOf(st2, d.f), claimed)
    requires NobodyLeftOut(FreeTables(cfg, st2), desired, claimed)
    requires SteeringDone(cfg, st2, st3, d.f, desired, claimed)
    requires SteerTraced(cfg, st2, trace3, |trace2|, d.f, desired)
    requires sids == RuleSids(cfg, d.f, d.locators, d.routes) && more == AllSteerSids(cfg, d.f, desired, claimed.Keys)
    requires st == st3.(sidRules := set r | r in st3.sidRules && (r.0 == d.f ==> r.1 in sids + more))
    requires forall i | |trace3| <= i < |trace| :: RulesBetween(st3, trace[i], d.f, sids + more)
    ensures FullSync(cfg, d, st0, st, trace, n, desired, claimed) && SteerRulesOk(cfg, st)
  {
    hide *;
    VrfPhasesOk(cfg, d, st0, st2);
    AskedParts(cfg, d, desired);
    NeededAre(cfg, d, desired, claimed, sids, more);
    SyncIsSafe(cfg, d, st0, st2, st3, st, trace2, trace3, trace, n, desired, claimed);
    SyncIsFull(cfg, d, st0, st2, st, trace, n, desired, claimed);
  }

  lemma FinalRules(cfg: Config, d: Domain, st0: State, st2: State, st3: State, st: State, desired: Desired, claimed: Claims)
    requires ValidDomain(d) && DesiredOk(d.f, desired) && SteerRulesOk(cfg, st0) && st2.steerRules == st0.steerRules
    requires ClaimsOk(cfg, st2, d.f, desired, claimed) && claimed.Keys <= desired.Keys
    requires SteeringDone(cfg, st2, st3, d.f, desired, claimed) && st.steerRules == st3.steerRules
    ensures SteerRulesOk(cfg, st)
  {
    hide RoutesIn, OwnRule, SteerRoutes, AllSteerSids, DesiredOk, OwnTables, UsedTables;
    RulesStayOk(cfg, d.f, st2, st, desired, claimed);
  }

  lemma SafeThroughSteering(cfg: Config, d: Domain, st0: State, st2: State, trace2: seq<State>, trace3: seq<State>,
                            n: nat, desired: Desired)
    requires ValidDomain(d) && DesiredOk(d.f, desired)
    requires Traced(cfg, st0, st2, trace2, n) && trace2 <= trace3
    requires st2.steerRules == st0.steerRules
    requires SteerTraced(cfg, st2, trace3, |trace2|, d.f, desired)
    ensures forall i | n <= i < |trace3| ::
              NewTablesReady(cfg, st0, trace3[i], d.f, desired) && (VrfsSafe(cfg, st0) ==> VrfsSafe(cfg, trace3[i]))
  {
    SameOwnTables(st0, st2, d.f);
    hide VrfsSafe, NewTablesReady, RoutesIn, DesiredOk, Wanted, UsedTables;
    forall i | n <= i < |trace3|
      ensures NewTablesReady(cfg, st0, trace3[i], d.f, desired)
      ensures VrfsSafe(cfg, st0) ==> VrfsSafe(cfg, trace3[i])
    {
      if i < |trace2| {
        assert trace3[i] == trace2[i];
        QuietSteps(cfg, st0, trace3[i], d.f, desired);
      } else {
        SameUsed(cfg, st0, st2, trace3[i], d.f, desired);
      }
    }
  }

  // The payload alone says which VMs are steered.
  lemma AskedIsUnique(cfg: Config, d: Domain, desired: Desired, desired': Desired)
    requires Asked(cfg, d, desired) && Asked(cfg, d, desired')
    ensures desired == desired'
  {
    hide DesiredOk, DesiredFor;
    forall p: PortId
      ensures (p in desired <==> p in desired') && (p in desired && p in desired' ==> desired[p] == desired'[p])
    {
      assert Lookup(desired, p) == Lookup(desired', p);
    }
  }

  // Syncing the same payload again, right after every VM got a table, asks
  // for the same VMs, claims the same tables and leaves the kernel as it was.
  lemma ResyncChangesNothing(cfg: Config, d: Domain, st0: State, st1: State, st2: State,
                             trace1: seq<State>, n1: nat, trace2: seq<State>, n2: nat,
                             desired1: Desired, desired2: Desired, claimed1: Claims, claimed2: Claims)
    requires ValidDomain(d) && OwnAddresses(desired1) && claimed1.Keys == desired1.Keys
    requires FullSync(cfg, d, st0, st1, trace1, n1, desired1, claimed1)
    requires FullSync(cfg, d, st1, st2, trace2, n2, desired2, claimed2)
    ensures desired2 == desired1 && claimed2 == claimed1 && st2 == st1
  {
    hide Synced, StepsSafe, OwnAddresses, Reclaims, FreeTables, NobodyLeftOut, TablesOf, ValidDomain;
    AskedIsUnique(cfg, d, desired1, desired2);
    hide IsDesired, DesiredOk;
    SecondSyncChangesNothing(cfg, d, st0, st1, st2, desired1, claimed1, claimed2);
  }
}
