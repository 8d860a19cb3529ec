// Programming a domain on a node: what the kernel holds after every call,
// and at every step in between.

module Dataplane {
  import opened Wrappers
  import opened Csid
  import opened Payload
  import opened Sets
  import opened Kernel
  import opened EncapRoutes
  import opened Steering
  import opened LiveTables
  import opened Sync
  import opened Updates
  import opened SyncReads
  import opened SyncSafety

  class Dataplane {
    const kernel: Kernel
    // Function ids of the domains programmed here.
    var domains: map<DomainId, nat>
    var cfg: Config

    constructor (kernel: Kernel, cfg: Config)
      ensures this.kernel == kernel && this.cfg == cfg && domains == map[]
    {
      this.kernel, this.cfg, this.domains := kernel, cfg, map[];
    }

    // The VRF device, its seal and the decap SID are no part of this kernel's
    // state: here a domain is what is recorded of it.
    method EnsureDomain(id: DomainId, f: nat)
      modifies this`domains
      ensures domains == old(domains)[id := f]
    {
      domains := domains[id := f];
    }

    // Adds the SID rules that are not there yet.
    method EnsureSidRules(f: nat, sids: set<Address>)
      requires kernel.Recorded()
      modifies kernel
      ensures kernel.Recorded()
      ensures kernel.st == old(kernel.st).(sidRules := old(kernel.st).sidRules + RulesFor(f, sids))
      ensures old(kernel.trace) <= kernel.trace
      ensures VrfsSafe(cfg, old(kernel.st)) ==> SafeSince(cfg, kernel.trace, |old(kernel.trace)|)
      ensures forall i | |old(kernel.trace)| <= i < |kernel.trace| ::
                && kernel.trace[i].routes == old(kernel.st).routes
                && kernel.trace[i].steerRules == old(kernel.st).steerRules
                && old(kernel.st).sidRules <= kernel.trace[i].sidRules
    {
      hide VrfsSafe, RoutesIn;
      var todo := set a | a in sids && (f, a) !in kernel.st.sidRules;
      ghost var st0, n := kernel.st, |kernel.trace|;
      while todo != {}
        invariant kernel.Recorded()
        invariant todo <= sids && old(kernel.trace) <= kernel.trace
        invariant st0.routes == kernel.st.routes && st0.steerRules == kernel.st.steerRules
        invariant kernel.st.sidRules == st0.sidRules + RulesFor(f, set a | a in sids && a !in todo && (f, a) !in st0.sidRules)
        invariant VrfsSafe(cfg, st0) ==> VrfsSafe(cfg, kernel.st) && SafeSince(cfg, kernel.trace, n)
        invariant forall i | n <= i < |kernel.trace| ::
                    && kernel.trace[i].routes == st0.routes
                    && kernel.trace[i].steerRules == st0.steerRules
                    && st0.sidRules <= kernel.trace[i].sidRules
      {
        var a :| a in todo;
        todo := todo - {a};
        RulesGrow(cfg, kernel.st, {(f, a)});
        kernel.AddSidRule(f, a);
      }
      assert kernel.st.sidRules == st0.sidRules + RulesFor(f, sids);
    }

    // One route decided: its SID rule goes in before the route does.
    method InstallOne(f: nat, d: Dest, e: Encap, sids0: set<Address>, ghost m: map<Dest, EncapRoute>,
                      ghost st0: State, ghost n: nat) returns (sids: set<Address>)
      requires f < STEER_TABLE_OFFSET && e.segments != []
      requires VrfGrown(cfg, f, st0, kernel.st, m, sids0) && Traced(cfg, st0, kernel.st, kernel.trace, n)
      requires kernel.Recorded()
      modifies kernel
      ensures kernel.Recorded()
      ensures sids == if e.sealed then sids0 else sids0 + {e.segments[0]}
      ensures VrfGrown(cfg, f, st0, kernel.st, if e.dev.Some? then m[d := AsRoute(e)] else m, sids)
      ensures Traced(cfg, st0, kernel.st, kernel.trace, n) && old(kernel.trace) <= kernel.trace
    {
      hide VrfsSafe, RoutesIn, Traced;
      sids := sids0;
      if !e.sealed && e.segments[0] !in sids {
        GrowRules(cfg, f, st0, kernel.st, m, sids, {e.segments[0]});
        ghost var before, trace := kernel.st, kernel.trace;
        sids := sids + {e.segments[0]};
        EnsureSidRules(f, {e.segments[0]});
        TraceRules(cfg, st0, before, kernel.st, trace, kernel.trace, n, f, {e.segments[0]});
      }
      SidIncluded(e, sids0);
      if e.dev.None? {
        return;
      }
      GrowRoutes(cfg, f, st0, kernel.st, m, sids, d, e);
      ghost var before, trace := kernel.st, kernel.trace;
      kernel.ReplaceRoute(VrfTable(cfg, f), d, EncapRoute(e.segments, e.dev.value, e.sealed));
      TraceStep(cfg, st0, before, kernel.st, trace, kernel.trace, n);
    }

    // The route loop.
    method InstallRoutes(f: nat, routes: seq<Route>, locators: Locators) returns (wanted: set<Dest>, sids: set<Address>)
      requires f < STEER_TABLE_OFFSET && AllEncodable(f, locators)
      requires kernel.Recorded()
      modifies kernel
      ensures kernel.Recorded()
      ensures wanted == Wanted(cfg, locators, routes) && sids == RuleSids(cfg, f, locators, routes)
      ensures VrfGrown(cfg, f, old(kernel.st), kernel.st, Installed(cfg, f, locators, routes), sids)
      ensures Traced(cfg, old(kernel.st), kernel.st, kernel.trace, |old(kernel.trace)|)
      ensures old(kernel.trace) <= kernel.trace
    {
      hide *;
      wanted, sids := {}, {};
      ghost var st0, n := kernel.st, |kernel.trace|;
      InstallStarts(cfg, f, locators, routes, st0, kernel.trace);
      for i := 0 to |routes|
        invariant kernel.Recorded()
        invariant Installing(cfg, f, locators, routes[..i], st0, kernel.st, kernel.trace, n, wanted, sids)
        invariant old(kernel.trace) <= kernel.trace
      {
        var route := routes[i];
        InstallStep(cfg, f, locators, routes, i, st0, kernel.st, kernel.trace, n, wanted, sids);
        if route.host == cfg.local || route.host !in locators {
          continue;
        }
        RemoteIs(cfg, f, locators, route);
        wanted := wanted + {route.prefix};
        var e := ComputeEncap(cfg, f, locators[route.host], SegmentsFor(route, cfg.local));
        sids := InstallOne(f, route.prefix, e, sids, Installed(cfg, f, locators, routes[..i]), st0, n);
        InstalledNext(cfg, f, locators, routes, i, st0, kernel.st, kernel.trace, n, wanted, sids);
      }
      InstallEnds(cfg, f, locators, routes, routes[..|routes|], st0, kernel.st, kernel.trace, n, wanted, sids);
    }

    // Deletes the routes of a table that `doomed` names.
    method RemoveEncapRoutes(t: Table, doomed: Dest -> bool)
      requires kernel.Recorded()
      modifies kernel
      ensures kernel.Recorded()
      ensures TablePruned(t, old(kernel.st), kernel.st, doomed)
      ensures PruneTraced(cfg, t, old(kernel.st), kernel.trace, |old(kernel.trace)|, doomed)
      ensures VrfsSafe(cfg, old(kernel.st)) ==> VrfsSafe(cfg, kernel.st)
      ensures old(kernel.trace) <= kernel.trace
    {
      ghost var st0, n := kernel.st, |kernel.trace|;
      var todo := set k | k in kernel.st.routes && k.0 == t && doomed(k.1) :: k.1;
      PruneStarts(cfg, t, st0, kernel.trace, doomed, todo);
      hide *;
      while todo != {}
        invariant kernel.Recorded()
        invariant Pruning(cfg, t, st0, kernel.st, kernel.trace, n, doomed, todo) && old(kernel.trace) <= kernel.trace
      {
        var d :| d in todo;
        PruneStep(cfg, t, st0, kernel.st, kernel.trace, n, doomed, todo, d);
        todo := todo - {d};
        kernel.DeleteRoute(t, d);
      }
      PruneEnds(cfg, t, st0, kernel.st, kernel.trace, n, doomed);
    }

    // Drops the SID rules of a VRF that no route of the domain needs.
    method RemoveUnwantedSidRules(f: nat, wanted: set<Address>)
      requires f < STEER_TABLE_OFFSET
      requires kernel.Recorded()
      modifies kernel
      ensures kernel.Recorded()
      ensures kernel.st == old(kernel.st).(sidRules :=
                set r | r in old(kernel.st).sidRules && (r.0 == f ==> r.1 in wanted))
      ensures old(kernel.trace) <= kernel.trace
      ensures forall i | |old(kernel.trace)| <= i < |kernel.trace| ::
                RulesBetween(old(kernel.st), kernel.trace[i], f, wanted)
    {
      ghost var st0, n := kernel.st, |kernel.trace|;
      var todo := set r | r in kernel.st.sidRules && r.0 == f && r.1 !in wanted :: r.1;
      while todo != {}
        invariant kernel.Recorded()
        invariant old(kernel.trace) <= kernel.trace && RulesBetween(st0, kernel.st, f, wanted)
        invariant forall a :: a in todo <==> (f, a) in kernel.st.sidRules && a !in wanted
        invariant forall i | n <= i < |kernel.trace| :: RulesBetween(st0, kernel.trace[i], f, wanted)
      {
        var a :| a in todo;
        todo := todo - {a};
        kernel.DeleteSidRule(f, a);
      }
      assert forall r | r in kernel.st.sidRules && r.0 == f :: (f, r.1) == r;
    }

    // ----------------------------------------------------------------
    // One steered VM
    // ----------------------------------------------------------------
    method FillTable(f: nat, t: Table, e: Steered, ghost n: nat, ghost before: State)
      returns (wanted: set<Dest>, sids: set<Address>)
      requires IsSteerTable(cfg, t) && DesiredEncodable(f, e)
      requires kernel.st == before && n == |kernel.trace|
      requires kernel.Recorded()
      modifies kernel
      ensures kernel.Recorded()
      ensures wanted == SteerRoutes(cfg, f, e).Keys && sids == SteerSids(cfg, f, e)
      ensures RoutesIn(kernel.st, t) == RoutesIn(before, t) + SteerRoutes(cfg, f, e)
      ensures SameElsewhere(before, kernel.st, t)
      ensures kernel.st.sidRules == before.sidRules && kernel.st.steerRules == before.steerRules
      ensures VrfsSafe(cfg, before) ==> VrfsSafe(cfg, kernel.st)
      ensures SteeringSince(cfg, before, kernel.trace, n, f, t, e) && old(kernel.trace) <= kernel.trace
      ensures WithinSince(cfg, before, kernel.trace, n, f, t, e) && TableWithin(cfg, before, kernel.st, f, t, e)
      ensures WasFilled(cfg, before, kernel.trace, n, f, t, e)
    {
      hide *;
      wanted, sids := {}, {};
      var todo := e.routes.Keys;
      ghost var calls, trace := kernel.calls, kernel.trace;
      RecordedIs();
      FillStarts(cfg, before, kernel.trace, f, t, e);
      NothingSince(cfg, before, kernel.trace, f, t, e);
      while todo != {}
        invariant kernel.Recorded()
        invariant todo <= e.routes.Keys
        invariant Filling(cfg, before, kernel.st, f, t, e, todo, wanted, sids)
        invariant SteeringSince(cfg, before, kernel.trace, n, f, t, e) && old(kernel.trace) <= kernel.trace
        invariant WithinSince(cfg, before, kernel.trace, n, f, t, e)
      {
        var d :| d in todo;
        DestinationEncodable(cfg, f, e, d);
        var x := ComputeEncap(cfg, f, e.routes[d].0, e.routes[d].1);
        FillStep(cfg, before, kernel.st, kernel.trace, n, f, t, e, todo, wanted, sids, d, x);
        if !x.sealed {
          sids := sids + {x.segments[0]};
        }
        if x.dev.Some? {
          wanted := wanted + {d};
          ghost var trace1 := kernel.trace;
          kernel.ReplaceRoute(t, d, EncapRoute(x.segments, x.dev.value, x.sealed));
          FillingIsWithin(cfg, before, kernel.st, f, t, e, todo - {d}, wanted, sids);
          WithinAppend(cfg, before, trace1, kernel.st, n, f, t, e);
        }
        todo := todo - {d};
      }
      FillingIsWithin(cfg, before, kernel.st, f, t, e, todo, wanted, sids);
      FillEnds(cfg, before, kernel.st, f, t, e, wanted, sids);
      RecordedIs();
      FilledNow(cfg, before, kernel.st, calls, trace, kernel.calls, kernel.trace, f, t, e);
    }

    lemma RecordedIs()
      ensures kernel.Recorded() <==> IsHistory(kernel.calls, kernel.trace, kernel.st)
    {
    }

    method DeleteSteerRules(rules: set<SteerRule>)
      requires kernel.Recorded()
      modifies kernel
      ensures kernel.Recorded()
      ensures kernel.st == old(kernel.st).(steerRules := old(kernel.st).steerRules - rules)
      ensures ShrunkSince(old(kernel.st), kernel.trace, |old(kernel.trace)|)
      ensures old(kernel.trace) <= kernel.trace
    {
      var todo := rules;
      ghost var st0, n := kernel.st, |kernel.trace|;
      while todo != {}
        invariant kernel.Recorded()
        invariant todo <= rules && kernel.st == st0.(steerRules := st0.steerRules - (rules - todo))
        invariant ShrunkSince(st0, kernel.trace, n) && old(kernel.trace) <= kernel.trace
      {
        var r :| r in todo;
        todo := todo - {r};
        kernel.DeleteSteerRule(r);
      }
    }

    method AddSteerRules(rules: set<SteerRule>, ghost before: State, ghost n: nat, f: nat, t: Table, e: Steered)
      requires DesiredEncodable(f, e) && rules <= SteerRulesOf(e, t)
      requires SteeringSince(cfg, before, kernel.trace, n, f, t, e) && Open(cfg, before, kernel.st, f, t, e)
      requires kernel.Recorded()
      modifies kernel
      ensures kernel.Recorded()
      ensures kernel.st == old(kernel.st).(steerRules := old(kernel.st).steerRules + rules)
      ensures SteeringSince(cfg, before, kernel.trace, n, f, t, e) && Open(cfg, before, kernel.st, f, t, e)
      ensures old(kernel.trace) <= kernel.trace
      ensures forall i | |old(kernel.trace)| <= i < |kernel.trace| ::
                kernel.trace[i].routes == old(kernel.st).routes && old(kernel.st).sidRules <= kernel.trace[i].sidRules
    {
      hide *;
      var todo := rules;
      ghost var st0 := kernel.st;
      while todo != {}
        invariant kernel.Recorded()
        invariant todo <= rules && kernel.st == st0.(steerRules := st0.steerRules + (rules - todo))
        invariant SteeringSince(cfg, before, kernel.trace, n, f, t, e) && Open(cfg, before, kernel.st, f, t, e)
        invariant old(kernel.trace) <= kernel.trace
        invariant forall i | |old(kernel.trace)| <= i < |kernel.trace| ::
                    kernel.trace[i].routes == st0.routes && st0.sidRules <= kernel.trace[i].sidRules
      {
        var r :| r in todo;
        todo := todo - {r};
        ghost var st, trace := kernel.st, kernel.trace;
        kernel.AddSteerRule(r);
        AddIsOpen(cfg, before, st, r, f, t, e);
        OpenAppend(cfg, before, trace, kernel.st, n, f, t, e);
      }
    }

    // Rules that are no longer the VM's, then routes that are not.
    method PruneTable(t: Table, rules: set<SteerRule>, wanted: set<Dest>, ghost before: State, ghost n: nat, f: nat, e: Steered)
      requires DesiredEncodable(f, e) && Quiet(cfg, before, kernel.st, t) && TableWithin(cfg, before, kernel.st, f, t, e)
      requires SteeringSince(cfg, before, kernel.trace, n, f, t, e) && WithinSince(cfg, before, kernel.trace, n, f, t, e)
      requires kernel.Recorded()
      modifies kernel
      ensures kernel.Recorded()
      ensures TablePruned(t, old(kernel.st).(steerRules := old(kernel.st).steerRules - rules), kernel.st, (d: Dest) => d !in wanted)
      ensures Quiet(cfg, before, kernel.st, t) && TableWithin(cfg, before, kernel.st, f, t, e)
      ensures SteeringSince(cfg, before, kernel.trace, n, f, t, e) && WithinSince(cfg, before, kernel.trace, n, f, t, e)
      ensures old(kernel.trace) <= kernel.trace
    {
      hide *;
      ghost var st0, trace0 := kernel.st, kernel.trace;
      DeleteSteerRules(rules);
      ghost var st1, trace1 := kernel.st, kernel.trace;
      ShrunkOnce(st0, st1, rules);
      ShrinkIsSteering(cfg, before, st0, st1, trace0, trace1, n, f, t, e);
      ShrunkRoutes(st0, st1, trace1, |trace0|);
      WithinSameRoutes(cfg, before, st0, trace0, trace1, n, f, t, e);
      SameRoutesWithin(cfg, before, st0, st1, f, t, e);
      RemoveEncapRoutes(t, (d: Dest) => d !in wanted);
      PrunedIsSteering(cfg, before, st1, kernel.st, trace1, kernel.trace, n, f, t, e, (d: Dest) => d !in wanted);
      WithinPruned(cfg, before, st1, trace1, kernel.trace, n, f, t, e, (d: Dest) => d !in wanted);
      PrunedNow(cfg, before, st1, kernel.st, f, t, e, (d: Dest) => d !in wanted);
    }

    // One VM: its table is filled and its SIDs made reachable before any of
    // its rules is added.
    method SteerVm(f: nat, t: Table, e: Steered, have: Selectors, prune: bool) returns (sids: set<Address>)
      requires IsSteerTable(cfg, t) && DesiredEncodable(f, e) && e.iif.f == f
      requires have == SelectorsOf(kernel.st, f, t)
      requires kernel.Recorded()
      modifies kernel
      ensures kernel.Recorded()
      ensures sids == SteerSids(cfg, f, e)
      ensures IsSteered(cfg, old(kernel.st), kernel.st, f, t, e, prune)
      ensures WhileSteering(cfg, old(kernel.st), kernel.st, f, t, e)
      ensures SteeringSince(cfg, old(kernel.st), kernel.trace, |old(kernel.trace)|, f, t, e)
      ensures old(kernel.trace) <= kernel.trace
      ensures TableSafe(old(kernel.st), f, t) ==>
                ((forall i | |old(kernel.trace)| <= i < |kernel.trace| :: TableSafe(kernel.trace[i], f, t))
                 <==> NewRoutesReachable(cfg, old(kernel.st), f, e))
    {
      ghost var before, n := kernel.st, |kernel.trace|;
      var wanted;
      hide *;
      wanted, sids := FillTable(f, t, e, n, before);
      ghost var filled, trace := kernel.st, kernel.trace;
      EnsureSidRules(f, sids);
      EnsuredIsSteering(cfg, before, filled, kernel.st, trace, kernel.trace, n, f, t, e);
      WithinSameRoutes(cfg, before, filled, trace, kernel.trace, n, f, t, e);
      SameRoutesWithin(cfg, before, filled, kernel.st, f, t, e);
      ghost var ensured := kernel.st;
      var want := Wanting(e);
      if prune {
        PruneTable(t, OnTable(have - want, t), wanted, before, n, f, e);
      }
      ghost var pruned, trace2 := kernel.st, kernel.trace;
      AboutToOpen(cfg, before, ensured, pruned, f, t, e, have, prune, wanted);
      AddSteerRules(OnTable(want - have, t), before, n, f, t, e);
      Opened(cfg, before, ensured, pruned, kernel.st, f, t, e, have, prune, wanted);
      WithinSameRoutes(cfg, before, pruned, trace2, kernel.trace, n, f, t, e);
      WasFilledMore(cfg, before, trace, kernel.trace, n, f, t, e);
      if TableSafe(before, f, t) {
        LiveTableIff(cfg, before, kernel.trace, n, f, t, e);
      }
    }

    // ----------------------------------------------------------------
    // All of a domain's steered VMs
    // ----------------------------------------------------------------
    method ReleaseTable(t: Table, selectors: Selectors)
      requires kernel.Recorded()
      modifies kernel
      ensures kernel.Recorded()
      ensures WhileReleasing(cfg, old(kernel.st), kernel.st, t) && RoutesIn(kernel.st, t) == map[]
      ensures kernel.st.steerRules == old(kernel.st).steerRules - OnTable(selectors, t)
      ensures old(kernel.trace) <= kernel.trace
      ensures forall i | |old(kernel.trace)| <= i < |kernel.trace| ::
                WhileReleasing(cfg, old(kernel.st), kernel.trace[i], t)
      ensures forall i | |old(kernel.trace)| <= i < |kernel.trace| ::
                RulesBeforeRoutes(old(kernel.st), kernel.trace[i], t, OnTable(selectors, t))
    {
      ghost var st0, n := kernel.st, |kernel.trace|;
      hide VrfsSafe, RoutesIn, OnTable, WhileReleasing, IsHistory;
      DeleteSteerRules(OnTable(selectors, t));
      ghost var mid, trace := kernel.st, kernel.trace;
      forall i | n <= i < |trace|
        ensures WhileReleasing(cfg, st0, trace[i], t)
      {
        ReleasingIs(cfg, st0, trace[i], trace[i], t);
      }
      forall i | n <= i < |trace|
        ensures RulesBeforeRoutes(st0, trace[i], t, OnTable(selectors, t))
      {
        SteerRulesOnly(cfg, st0, trace[i].steerRules);
      }
      kernel.FlushTable(t);
      ReleasingIs(cfg, st0, mid, kernel.st, t);
      FlushEmpties(mid, t);
    }

    // The claimed VMs one by one.
    method SteerClaimed(f: nat, desired: Desired, tables: Tables, claimed: Claims, prune: bool) returns (sids: set<Address>)
      requires DesiredOk(f, desired) && ClaimsOk(cfg, kernel.st, f, desired, claimed)
      requires tables == TablesOf(kernel.st, f)
      requires kernel.Recorded()
      modifies kernel
      ensures kernel.Recorded()
      ensures claimed.Keys <= desired.Keys && sids == AllSteerSids(cfg, f, desired, claimed.Keys)
      ensures SteerLoop(cfg, old(kernel.st), kernel.st, kernel.trace, |old(kernel.trace)|, f, desired, claimed, claimed.Keys, prune)
      ensures old(kernel.trace) <= kernel.trace
    {
      hide *;
      ghost var st0, n := kernel.st, |kernel.trace|;
      var todo := claimed.Keys;
      ghost var vms: set<PortId> := {};
      sids := {};
      SteerLoopStarts(cfg, st0, kernel.trace, f, desired, claimed, prune);
      ClaimsWithin(cfg, st0, f, desired, claimed);
      NoSids(cfg, f, desired);
      TablesAre(st0, f, tables);
      while todo != {}
        invariant kernel.Recorded()
        invariant vms !! todo && vms + todo == claimed.Keys
        invariant sids == AllSteerSids(cfg, f, desired, vms)
        invariant SteerLoop(cfg, st0, kernel.st, kernel.trace, n, f, desired, claimed, vms, prune)
        invariant old(kernel.trace) <= kernel.trace
      {
        var p := Least(todo);
        todo := todo - {p};
        var more := SteerNext(f, desired, tables, claimed, prune, p, st0, n, vms);
        SidsOfNext(cfg, f, desired, vms, p);
        sids := sids + more;
        vms := vms + {p};
      }
    }

    method SteerNext(f: nat, desired: Desired, tables: Tables, claimed: Claims, prune: bool, p: PortId,
                     ghost st0: State, ghost n: nat, ghost vms: set<PortId>) returns (sids: set<Address>)
      requires DesiredOk(f, desired) && p in claimed && p !in vms
      requires SteerLoop(cfg, st0, kernel.st, kernel.trace, n, f, desired, claimed, vms, prune)
      requires forall t: Table :: (if t in tables then tables[t] else {}) == SelectorsOf(st0, f, t)
      requires kernel.Recorded()
      modifies kernel
      ensures kernel.Recorded()
      ensures p in desired && DesiredEncodable(f, desired[p]) && sids == SteerSids(cfg, f, desired[p])
      ensures SteerLoop(cfg, st0, kernel.st, kernel.trace, n, f, desired, claimed, vms + {p}, prune)
      ensures old(kernel.trace) <= kernel.trace
    {
      hide *;
      var t := claimed[p];
      var have := if t in tables then tables[t] else {};
      ghost var before, trace := kernel.st, kernel.trace;
      NextVm(cfg, st0, before, trace, n, f, desired, claimed, vms, prune, p);
      sids := SteerVm(f, t, desired[p], have, prune);
      SteerLoopStep(cfg, st0, before, kernel.st, trace, kernel.trace, n, f, desired, claimed, vms, prune, p);
    }

    // The tables nobody claims any more.
    method ReleaseUnclaimed(f: nat, tables: Tables, drop0: set<Table>, ghost desired: Desired, ghost claimed: Claims,
                            ghost st0: State, ghost n: nat)
      requires DesiredOk(f, desired) && tables == TablesOf(st0, f) && drop0 == tables.Keys - claimed.Values
      requires Releasing(cfg, st0, kernel.st, kernel.trace, n, f, desired, claimed, {})
      requires kernel.Recorded()
      modifies kernel
      ensures kernel.Recorded()
      ensures Releasing(cfg, st0, kernel.st, kernel.trace, n, f, desired, claimed, drop0)
      ensures old(kernel.trace) <= kernel.trace
    {
      var drop := drop0;
      ghost var dropped: set<Table> := {};
      TablesAre(st0, f, tables);
      hide *;
      while drop != {}
        invariant kernel.Recorded()
        invariant dropped !! drop && dropped + drop == drop0
        invariant Releasing(cfg, st0, kernel.st, kernel.trace, n, f, desired, claimed, dropped)
        invariant old(kernel.trace) <= kernel.trace
      {
        var t := Least(drop);
        ghost var before, trace := kernel.st, kernel.trace;
        ReleaseTable(t, tables[t]);
        ReleaseStep(cfg, st0, before, kernel.st, trace, kernel.trace, n, f, desired, claimed, dropped, t);
        drop := drop - {t};
        dropped := dropped + {t};
      }
    }

    method SteerAll(f: nat, desired: Desired, tables: Tables, claimed: Claims, prune: bool) returns (sids: set<Address>)
      requires DesiredOk(f, desired) && ClaimsOk(cfg, kernel.st, f, desired, claimed)
      requires tables == TablesOf(kernel.st, f)
      requires kernel.Recorded()
      modifies kernel
      ensures kernel.Recorded()
      ensures claimed.Keys <= desired.Keys && sids == AllSteerSids(cfg, f, desired, claimed.Keys)
      ensures if prune then SteeringDone(cfg, old(kernel.st), kernel.st, f, desired, claimed)
              else AllSteered(cfg, old(kernel.st), kernel.st, f, desired, claimed, claimed.Keys, false)
      ensures NewTablesReady(cfg, old(kernel.st), kernel.st, f, desired)
      ensures VrfsSafe(cfg, old(kernel.st)) ==> VrfsSafe(cfg, kernel.st)
      ensures SteerTraced(cfg, old(kernel.st), kernel.trace, |old(kernel.trace)|, f, desired)
      ensures old(kernel.trace) <= kernel.trace
    {
      ghost var st0, n := kernel.st, |kernel.trace|;
      TablesAre(st0, f, tables);
      hide *;
      sids := SteerClaimed(f, desired, tables, claimed, prune);
      if prune {
        ReleaseStarts(cfg, st0, kernel.st, kernel.trace, n, f, desired, claimed);
        var drop := tables.Keys - claimed.Values;
        ReleaseUnclaimed(f, tables, drop, desired, claimed, st0, n);
        ReleaseEnds(cfg, st0, kernel.st, kernel.trace, n, f, desired, claimed, drop);
      } else {
        SteerLoopEnds(cfg, st0, kernel.st, kernel.trace, n, f, desired, claimed, prune);
      }
    }

    method SyncSteering(f: nat, routes: seq<Route>, locators: Locators, gateways: Gateways, prune: bool)
      returns (sids: set<Address>, ghost desired: Desired, ghost claimed: Claims)
      requires AllEncodable(f, locators) && forall n | n in gateways :: gateways[n].f == f
      requires SteerRulesOk(cfg, kernel.st)
      requires kernel.Recorded()
      modifies kernel
      ensures kernel.Recorded()
      ensures IsDesired(cfg, locators, gateways, routes, desired) && DesiredOk(f, desired)
      ensures ClaimsOk(cfg, old(kernel.st), f, desired, claimed)
      ensures Reclaims(desired, TablesOf(old(kernel.st), f), claimed)
      ensures NobodyLeftOut(FreeTables(cfg, old(kernel.st)), desired, claimed)
      ensures claimed.Keys <= desired.Keys && sids == AllSteerSids(cfg, f, desired, claimed.Keys)
      ensures if prune then SteeringDone(cfg, old(kernel.st), kernel.st, f, desired, claimed)
              else AllSteered(cfg, old(kernel.st), kernel.st, f, desired, claimed, claimed.Keys, false)
      ensures NewTablesReady(cfg, old(kernel.st), kernel.st, f, desired)
      ensures VrfsSafe(cfg, old(kernel.st)) ==> VrfsSafe(cfg, kernel.st)
      ensures SteerTraced(cfg, old(kernel.st), kernel.trace, |old(kernel.trace)|, f, desired)
      ensures old(kernel.trace) <= kernel.trace
    {
      ghost var st0 := kernel.st;
      hide *;
      var wanted := BuildDesired(cfg, locators, gateways, routes);
      DesiredIsOk(cfg, f, locators, gateways, routes, wanted);
      var tables := TablesOf(kernel.st, f);
      var free := FreeTables(cfg, kernel.st);
      FreeIsDisjoint(cfg, st0, f);
      var claims := ClaimTables(wanted, tables, free);
      ClaimedAreOk(cfg, st0, f, wanted, claims);
      desired, claimed := wanted, claims;
      sids := SteerAll(f, wanted, tables, claims, prune);
    }

    // ----------------------------------------------------------------
    // The three messages
    // ----------------------------------------------------------------
    // A full sync: the domain's routes and SID rules become exactly what the
    // payload names. From a safe kernel every step is safe if and only if no
    // wanted prefix whose device is unknown keeps an old route towards a SID
    // the payload does not need.
    method SyncRoutes(id: DomainId, routes: seq<Route>, locators: Locators, gateways: Gateways)
      returns (ghost desired: Desired, ghost claimed: Claims)
      requires id in domains ==> ValidDomain(Domain(domains[id], locators, gateways, routes))
      requires SteerRulesOk(cfg, kernel.st)
      requires kernel.Recorded()
      modifies kernel
      ensures kernel.Recorded()
      ensures id !in domains ==> kernel.st == old(kernel.st) && kernel.trace == old(kernel.trace)
      ensures id in domains ==>
                FullSync(cfg, Domain(domains[id], locators, gateways, routes), old(kernel.st), kernel.st,
                         kernel.trace, |old(kernel.trace)|, desired, claimed)
      ensures id in domains ==>
                KernelReads(cfg, Domain(domains[id], locators, gateways, routes), old(kernel.st), kernel.st, desired, claimed)
      ensures id in domains && VrfsSafe(cfg, old(kernel.st)) ==>
                (SafeSince(cfg, kernel.trace, |old(kernel.trace)|) && VrfsSafe(cfg, kernel.st) <==>
                 OldRoutesNeeded(cfg, Domain(domains[id], locators, gateways, routes), old(kernel.st), desired, claimed.Keys))
      ensures SteerRulesOk(cfg, kernel.st) && old(kernel.trace) <= kernel.trace
    {
      hide *;
      desired, claimed := map[], map[];
      if id in domains {
        ghost var d := Domain(domains[id], locators, gateways, routes);
        ghost var st0, n := kernel.st, |kernel.trace|;
        desired, claimed := SyncDomain(domains[id], routes, locators, gateways, d);
        SyncReadsPayload(cfg, d, st0, kernel.st, kernel.trace, n, desired, claimed);
        if VrfsSafe(cfg, st0) {
          SyncStepsIff(cfg, d, st0, kernel.st, kernel.trace, n, desired, claimed);
        }
      }
    }

    method SyncDomain(f: nat, routes: seq<Route>, locators: Locators, gateways: Gateways, ghost d: Domain)
      returns (ghost desired: Desired, ghost claimed: Claims)
      requires d == Domain(f, locators, gateways, routes) && ValidDomain(d) && SteerRulesOk(cfg, kernel.st)
      requires kernel.Recorded()
      modifies kernel
      ensures kernel.Recorded()
      ensures FullSync(cfg, d, old(kernel.st), kernel.st, kernel.trace, |old(kernel.trace)|, desired, claimed)
      ensures SteerRulesOk(cfg, kernel.st) && old(kernel.trace) <= kernel.trace
    {
      ghost var st0, n, trace0 := kernel.st, |kernel.trace|, kernel.trace;
      ValidParts(d);
      hide *;
      var sids := SyncVrf(f, routes, locators, d);
      ghost var st2, trace2 := kernel.st, kernel.trace;
      VrfPhasesOk(cfg, d, st0, st2);
      var more;
      more, desired, claimed := SyncSteering(f, routes, locators, gateways, true);
      ghost var st3, trace3 := kernel.st, kernel.trace;
      RemoveUnwantedSidRules(f, sids + more);
      StillLonger(trace0, trace2, trace3, kernel.trace);
      SyncEnds(cfg, d, st0, st2, st3, kernel.st, trace2, trace3, kernel.trace, n, sids, more, desired, claimed);
    }

    // The domain's own table: every wanted route in, then every other one out.
    method SyncVrf(f: nat, routes: seq<Route>, locators: Locators, ghost d: Domain) returns (sids: set<Address>)
      requires d.f == f && d.locators == locators && d.routes == routes && ValidDomain(d)
      requires f < STEER_TABLE_OFFSET && AllEncodable(f, locators)
      requires kernel.Recorded()
      modifies kernel
      ensures kernel.Recorded()
      ensures sids == RuleSids(cfg, f, locators, routes) && VrfSynced(cfg, d, old(kernel.st), kernel.st)
      ensures Traced(cfg, old(kernel.st), kernel.st, kernel.trace, |old(kernel.trace)|)
      ensures old(kernel.trace) <= kernel.trace
    {
      ghost var st0, n := kernel.st, |kernel.trace|;
      hide *;
      var wanted;
      wanted, sids := InstallRoutes(f, routes, locators);
      ghost var st1, trace1 := kernel.st, kernel.trace;
      RemoveEncapRoutes(VrfTable(cfg, f), Unwanted(wanted));
      VrfPhases(cfg, d, st0, st1, kernel.st);
      GrownKeepsRules(cfg, f, st0, st1, Installed(cfg, f, locators, routes), sids);
      VrfTraced(cfg, d, st0, st1, kernel.st, trace1, kernel.trace, n);
    }

    // New routes: each SID rule before its route, each steer table before its
    // rules; then the routes of prefixes that are local now go.
    method AddRoutes(id: DomainId, routes: seq<Route>, locators: Locators, gateways: Gateways)
      returns (wanted: set<Dest>, ghost desired: Desired, ghost claimed: Claims)
      requires id in domains ==> ValidDomain(Domain(domains[id], locators, gateways, routes))
      requires SteerRulesOk(cfg, kernel.st)
      requires kernel.Recorded()
      modifies kernel
      ensures kernel.Recorded()
      ensures id !in domains ==> wanted == {} && kernel.st == old(kernel.st) && kernel.trace == old(kernel.trace)
      ensures id in domains ==>
                && wanted == Wanted(cfg, locators, routes)
                && FullAdd(cfg, Domain(domains[id], locators, gateways, routes), old(kernel.st), kernel.st,
                           kernel.trace, |old(kernel.trace)|, desired, claimed)
                && AddReads(cfg, Domain(domains[id], locators, gateways, routes), old(kernel.st), kernel.st, desired, claimed)
      ensures SteerRulesOk(cfg, kernel.st) && old(kernel.trace) <= kernel.trace
    {
      hide *;
      wanted, desired, claimed := {}, map[], map[];
      if id in domains {
        ghost var d := Domain(domains[id], locators, gateways, routes);
        ghost var st0, n := kernel.st, |kernel.trace|;
        wanted, desired, claimed := AddToDomain(domains[id], routes, locators, gateways, d);
        AddReadsPayload(cfg, d, st0, kernel.st, kernel.trace, n, desired, claimed);
      }
    }

    method AddToDomain(f: nat, routes: seq<Route>, locators: Locators, gateways: Gateways, ghost d: Domain)
      returns (wanted: set<Dest>, ghost desired: Desired, ghost claimed: Claims)
      requires d == Domain(f, locators, gateways, routes) && ValidDomain(d) && SteerRulesOk(cfg, kernel.st)
      requires kernel.Recorded()
      modifies kernel
      ensures kernel.Recorded()
      ensures wanted == Wanted(cfg, locators, routes)
      ensures FullAdd(cfg, d, old(kernel.st), kernel.st, kernel.trace, |old(kernel.trace)|, desired, claimed)
      ensures SteerRulesOk(cfg, kernel.st) && old(kernel.trace) <= kernel.trace
    {
      ghost var st0, n, trace0 := kernel.st, |kernel.trace|, kernel.trace;
      ValidParts(d);
      hide *;
      var sids, more;
      wanted, sids := InstallRoutes(f, routes, locators);
      ghost var st1, trace1 := kernel.st, kernel.trace;
      VrfGrownParts(cfg, d, st0, st1);
      more, desired, claimed := SyncSteering(f, routes, locators, gateways, false);
      ghost var st2, trace2 := kernel.st, kernel.trace;
      RemoveEncapRoutes(VrfTable(cfg, f), IsIn(LocalPrefixes(cfg, routes)));
      StillLonger(trace0, trace1, trace2, kernel.trace);
      AddEnds(cfg, d, st0, st1, st2, kernel.st, trace1, trace2, kernel.trace, n, desired, claimed);
    }

    // Withdrawn routes leave the domain's table one by one.
    method RemoveRoutes(id: DomainId, routes: seq<Route>)
      requires kernel.Recorded()
      modifies kernel
      ensures kernel.Recorded()
      ensures id !in domains ==> kernel.st == old(kernel.st) && kernel.trace == old(kernel.trace)
      ensures id in domains ==> Removed(cfg, domains[id], routes, old(kernel.st), kernel.st)
      ensures VrfsSafe(cfg, old(kernel.st)) ==>
                VrfsSafe(cfg, kernel.st) && SafeSince(cfg, kernel.trace, |old(kernel.trace)|)
      ensures kernel.st.steerRules == old(kernel.st).steerRules && old(kernel.trace) <= kernel.trace
      ensures forall i | |old(kernel.trace)| <= i < |kernel.trace| :: kernel.trace[i].steerRules == old(kernel.st).steerRules
    {
      if id !in domains {
        return;
      }
      var f := domains[id];
      ghost var st0, n := kernel.st, |kernel.trace|;
      RemoveStarts(cfg, f, routes, st0);
      hide VrfsSafe, RoutesIn, Removed;
      for i := 0 to |routes|
        invariant kernel.Recorded()
        invariant Removed(cfg, f, routes[..i], st0, kernel.st) && kernel.st.steerRules == st0.steerRules
        invariant VrfsSafe(cfg, st0) ==> VrfsSafe(cfg, kernel.st) && SafeSince(cfg, kernel.trace, n)
        invariant old(kernel.trace) <= kernel.trace
        invariant forall j | n <= j < |kernel.trace| :: kernel.trace[j].steerRules == st0.steerRules
      {
        RemoveStep(cfg, f, routes, i, st0, kernel.st);
        kernel.DeleteRoute(VrfTable(cfg, f), routes[i].prefix);
      }
      assert routes[..|routes|] == routes;
    }

    // The domain goes: its steer tables, its SID rules, its VRF. The function
    // id recorded for it is torn down, the caller's only if none is.
    method DeleteDomain(id: Option<DomainId>, known: Option<nat>)
      requires forall d | d in domains :: domains[d] < STEER_TABLE_OFFSET
      requires known.Some? ==> known.value < STEER_TABLE_OFFSET
      requires kernel.Recorded()
      modifies kernel, this`domains
      ensures kernel.Recorded()
      ensures domains == if id.Some? then old(domains) - {id.value} else old(domains)
      ensures var f := if id.Some? && id.value in old(domains) then Some(old(domains)[id.value]) else known;
              if f.Some? then Gone(cfg, f.value, old(kernel.st), kernel.st) else kernel.st == old(kernel.st)
      ensures old(kernel.trace) <= kernel.trace
    {
      var f := known;
      if id.Some? {
        if id.value in domains {
          f := Some(domains[id.value]);
        }
        domains := domains - {id.value};
      }
      if f.Some? {
        TearDown(f.value);
      }
    }

    method TearDown(f: nat)
      requires f < STEER_TABLE_OFFSET
      requires kernel.Recorded()
      modifies kernel
      ensures kernel.Recorded()
      ensures Gone(cfg, f, old(kernel.st), kernel.st) && old(kernel.trace) <= kernel.trace
    {
      ghost var st0, n := kernel.st, |kernel.trace|;
      var tables := TablesOf(kernel.st, f);
      ghost var nobody: Desired, none: Claims := map[], map[];
      NobodySteered(cfg, f, st0, kernel.trace, nobody, none);
      TablesAre(st0, f, tables);
      assert tables.Keys == tables.Keys - none.Values;
      hide *;
      ReleaseUnclaimed(f, tables, tables.Keys, nobody, none, st0, n);
      ghost var st1, trace1 := kernel.st, kernel.trace;
      RemoveUnwantedSidRules(f, {});
      ghost var st2 := kernel.st;
      kernel.FlushTable(VrfTable(cfg, f));
      AllGone(cfg, f, st0, st1, st2, kernel.st, trace1, n, nobody, none);
    }

    // Any run of messages, for any domains: each call does what its message
    // asks. From a safe kernel, no VRF holds at any step of the run an
    // unsealed route whose first segment it may not reach if and only if
    // every full sync of the run met the condition above.
    method Perform(ops: seq<Op>) returns (ghost calls: seq<Call>)
      requires forall i | 0 <= i < |ops| :: ValidOp(domains, ops[i])
      requires SteerRulesOk(cfg, kernel.st)
      requires kernel.Recorded()
      modifies kernel
      ensures kernel.Recorded()
      ensures SteerRulesOk(cfg, kernel.st) && old(kernel.trace) <= kernel.trace
      ensures |calls| == |ops|
      ensures CallsOk(cfg, domains, ops, old(kernel.st), kernel.st, kernel.trace, |old(kernel.trace)|, calls)
      ensures VrfsSafe(cfg, old(kernel.st)) ==>
                (SafeSince(cfg, kernel.trace, |old(kernel.trace)|) <==>
                 forall k | 0 <= k < |calls| :: CallKeeps(cfg, domains, ops[k], calls[k]))
      ensures VrfsSafe(cfg, old(kernel.st)) && (forall k | 0 <= k < |ops| :: KnowsDevices(cfg, domains, ops[k])) ==>
                SafeSince(cfg, kernel.trace, |old(kernel.trace)|) && VrfsSafe(cfg, kernel.st)
    {
      hide *;
      calls := [];
      ghost var st0, n := kernel.st, |kernel.trace|;
      NoCalls(cfg, domains, ops, kernel.st, kernel.trace);
      for i := 0 to |ops|
        invariant kernel.Recorded()
        invariant SteerRulesOk(cfg, kernel.st) && old(kernel.trace) <= kernel.trace
        invariant |calls| == i && CallsOk(cfg, domains, ops, st0, kernel.st, kernel.trace, n, calls)
      {
        ghost var st, trace := kernel.st, kernel.trace;
        ghost var c := PerformOne(ops[i]);
        CallsStep(cfg, domains, ops, st0, st, kernel.st, trace, kernel.trace, n, calls, c);
        calls := calls + [c];
      }
      if VrfsSafe(cfg, st0) {
        RunSafeIff(cfg, domains, ops, st0, kernel.st, kernel.trace, n, calls);
        if forall k | 0 <= k < |ops| :: KnowsDevices(cfg, domains, ops[k]) {
          KnownRunIsSafe(cfg, domains, ops, st0, kernel.st, kernel.trace, n, calls);
        }
      }
    }

    method PerformOne(op: Op) returns (ghost c: Call)
      requires ValidOp(domains, op)
      requires SteerRulesOk(cfg, kernel.st)
      requires kernel.Recorded()
      modifies kernel
      ensures kernel.Recorded()
      ensures SteerRulesOk(cfg, kernel.st) && old(kernel.trace) <= kernel.trace
      ensures c.st0 == old(kernel.st) && c.st1 == kernel.st && c.from_ == |old(kernel.trace)| && c.to == |kernel.trace|
      ensures CallOk(cfg, domains, op, kernel.trace, c)
    {
      ghost var st0, calls0, trace0 := kernel.st, kernel.calls, kernel.trace;
      hide *;
      RecordedIs();
      match op {
        case AddOp(id, routes, locators, gateways) =>
          OpIsValid(domains, op);
          var wanted;
          ghost var desired, claimed;
          wanted, desired, claimed := AddRoutes(id, routes, locators, gateways);
          RecordedIs();
          c := Call(st0, kernel.st, |trace0|, |kernel.trace|, desired, claimed);
          HistoryTraces(calls0, trace0, kernel.calls, kernel.trace, c);
          AddCall(cfg, domains, op, kernel.trace, c);
        case RemoveOp(id, routes) =>
          RemoveRoutes(id, routes);
          RecordedIs();
          PrunedRulesOk(cfg, st0, kernel.st);
          c := Call(st0, kernel.st, |trace0|, |kernel.trace|, map[], map[]);
          HistoryTraces(calls0, trace0, kernel.calls, kernel.trace, c);
          RemoveCall(cfg, domains, op, kernel.trace, c);
        case SyncOp(id, routes, locators, gateways) =>
          OpIsValid(domains, op);
          ghost var desired, claimed := SyncRoutes(id, routes, locators, gateways);
          RecordedIs();
          c := Call(st0, kernel.st, |trace0|, |kernel.trace|, desired, claimed);
          HistoryTraces(calls0, trace0, kernel.calls, kernel.trace, c);
          SyncCall(cfg, domains, op, kernel.trace, c);
      }
    }
  }
}
