// What the two incremental messages amount to: routes added, routes withdrawn.

module Updates {
  import opened Payload
  import opened Kernel
  import opened EncapRoutes
  import opened Steering
  import opened Sync

  // The prefixes of routes whose host is this node.
  function LocalPrefixes(cfg: Config, routes: seq<Route>): set<Dest> {
    set i | 0 <= i < |routes| && routes[i].host == cfg.local :: routes[i].prefix
  }

  function IsIn(prefixes: set<Dest>): Dest -> bool {
    (x: Dest) => x in prefixes
  }

  // The kernel after routes were added: what it held, and the routes named,
  // less those that are local now.
  ghost predicate Added(cfg: Config, d: Domain, st0: State, st: State, desired: Desired, claimed: Claims)
    requires ValidDomain(d) && DesiredOk(d.f, desired) && claimed.Keys <= desired.Keys
  {
    var vrf := VrfTable(cfg, d.f);
    && RoutesIn(st, vrf) == Kept(RoutesIn(st0, vrf) + Installed(cfg, d.f, d.locators, d.routes),
                                 IsIn(LocalPrefixes(cfg, d.routes)))
    && (forall p | p in claimed :: RoutesIn(st, claimed[p]) == RoutesIn(st0, claimed[p]) + SteerRoutes(cfg, d.f, desired[p]))
    && (forall t | t != vrf && t !in claimed.Values :: RoutesIn(st, t) == RoutesIn(st0, t))
    && st.sidRules == st0.sidRules + RulesFor(d.f, RuleSids(cfg, d.f, d.locators, d.routes))
                                   + RulesFor(d.f, AllSteerSids(cfg, d.f, desired, claimed.Keys))
    && (forall r :: r in st.steerRules <==> r in st0.steerRules || OwnRule(desired, claimed, claimed.Keys, r))
  }

  // No step broke a route or opened a table that was not ready.
  ghost predicate AddStepsSafe(cfg: Config, d: Domain, st0: State, trace: seq<State>, n: nat, desired: Desired)
    requires DesiredOk(d.f, desired)
  {
    forall i | n <= i < |trace| ::
      NewTablesReady(cfg, st0, trace[i], d.f, desired) && (VrfsSafe(cfg, st0) ==> VrfsSafe(cfg, trace[i]))
  }

  // An addition from st0: which VMs it was asked to steer and into which
  // tables, the kernel it leaves, and its steps.
  ghost predicate FullAdd(cfg: Config, d: Domain, st0: State, st: State, trace: seq<State>, n: nat,
                          desired: Desired, claimed: Claims)
    requires ValidDomain(d)
  {
    && Asked(cfg, d, desired)
    && ClaimsOk(cfg, st0, d.f, desired, claimed)
    && Reclaims(desired, TablesOf(st0, d.f), claimed)
    && NobodyLeftOut(FreeTables(cfg, st0), desired, claimed)
    && claimed.Keys <= desired.Keys
    && Added(cfg, d, st0, st, desired, claimed)
    && AddStepsSafe(cfg, d, st0, trace, n, desired)
    && (VrfsSafe(cfg, st0) ==> VrfsSafe(cfg, st))
  }

  lemma AddIsFull(cfg: Config, d: Domain, st0: State, st1: State, st: State, trace: seq<State>, n: nat,
                  desired: Desired, claimed: Claims)
    requires ValidDomain(d) && st0.steerRules == st1.steerRules
    requires Asked(cfg, d, desired) && ClaimsOk(cfg, st1, d.f, desired, claimed) && claimed.Keys <= desired.Keys
    requires Reclaims(desired, TablesOf(st1, d.f), claimed) && NobodyLeftOut(FreeTables(cfg, st1), desired, claimed)
    requires Added(cfg, d, st0, st, desired, claimed) && AddStepsSafe(cfg, d, st0, trace, n, desired)
    requires VrfsSafe(cfg, st0) ==> VrfsSafe(cfg, st)
    ensures FullAdd(cfg, d, st0, st, trace, n, desired, claimed)
  {
    SameForClaims(cfg, d, st0, st1, desired, claimed);
    hide Asked, ClaimsOk, Reclaims, TablesOf, FreeTables, NobodyLeftOut, Added, AddStepsSafe, VrfsSafe;
  }

  lemma VrfGrownParts(cfg: Config, d: Domain, st0: State, st1: State)
    requires ValidDomain(d) && SteerRulesOk(cfg, st0)
    requires VrfGrown(cfg, d.f, st0, st1, Installed(cfg, d.f, d.locators, d.routes), RuleSids(cfg, d.f, d.locators, d.routes))
    ensures st1.steerRules == st0.steerRules && SteerRulesOk(cfg, st1)
  {
    hide RoutesIn, Installed, RuleSids;
  }

  // Rules and routes after the three phases.
  lemma AddPhases(cfg: Config, d: Domain, st0: State, st1: State, st2: State, st: State, desired: Desired, claimed: Claims)
    requires ValidDomain(d) && DesiredOk(d.f, desired) && SteerRulesOk(cfg, st0)
    requires VrfGrown(cfg, d.f, st0, st1, Installed(cfg, d.f, d.locators, d.routes), RuleSids(cfg, d.f, d.locators, d.routes))
    requires ClaimsOk(cfg, st1, d.f, desired, claimed) && claimed.Keys <= desired.Keys
    requires AllSteered(cfg, st1, st2, d.f, desired, claimed, claimed.Keys, false)
    requires TablePruned(VrfTable(cfg, d.f), st2, st, IsIn(LocalPrefixes(cfg, d.routes)))
    ensures Added(cfg, d, st0, st, desired, claimed)
  {
    VrfGrownParts(cfg, d, st0, st1);
    VrfIsNoSteerTable(cfg, d.f, st1, desired, claimed);
    AllOnTables(claimed);
    hide RoutesIn, Installed, RuleSids, RulesFor, Kept, LocalPrefixes, AllSteerSids, OwnRule, OnTableOf, SteerRoutes,
         ClaimsOk, SteerRulesOk, DesiredOk;
  }

  // Dropping VRF routes leaves every steer table as ready as it was.
  lemma VrfPruneKeepsReady(cfg: Config, f: nat, st0: State, st2: State, s: State, desired: Desired, doomed: Dest -> bool)
    requires f < STEER_TABLE_OFFSET && DesiredOk(f, desired)
    requires SteerRulesOk(cfg, st2) && NewTablesReady(cfg, st0, st2, f, desired)
    requires TablePruning(VrfTable(cfg, f), st2, s, doomed)
    ensures NewTablesReady(cfg, st0, s, f, desired)
  {
    hide RoutesIn, UsedTables, Ready, DesiredOk;
    forall r | r in s.steerRules && r.table !in UsedTables(st0)
      ensures RuleIsReady(cfg, s, f, desired, r)
    {
      assert RuleIsReady(cfg, st2, f, desired, r);
      StillReady(cfg, st2, s, f, desired, VrfTable(cfg, f), r);
    }
  }

  lemma SteeredRulesOk(cfg: Config, f: nat, st1: State, st2: State, desired: Desired, claimed: Claims)
    requires DesiredOk(f, desired) && SteerRulesOk(cfg, st1) && ClaimsOk(cfg, st1, f, desired, claimed)
    requires claimed.Keys <= desired.Keys && AllSteered(cfg, st1, st2, f, desired, claimed, claimed.Keys, false)
    ensures SteerRulesOk(cfg, st2)
  {
    hide RoutesIn, SteerRoutes, AllSteerSids, OwnRule, ClaimsOk, DesiredOk, OnTableOf;
    assert forall r | r in st2.steerRules :: r in st1.steerRules || OwnRule(desired, claimed, claimed.Keys, r);
    hide SteerRulesOk;
    RulesStayOk(cfg, f, st1, st2, desired, claimed);
  }

  lemma AddIsSafe(cfg: Config, d: Domain, st0: State, st1: State, st2: State, st: State,
                  trace1: seq<State>, trace2: seq<State>, trace: seq<State>, n: nat, desired: Desired, claimed: Claims)
    requires ValidDomain(d) && DesiredOk(d.f, desired) && SteerRulesOk(cfg, st0)
    requires VrfGrown(cfg, d.f, st0, st1, Installed(cfg, d.f, d.locators, d.routes), RuleSids(cfg, d.f, d.locators, d.routes))
    requires Traced(cfg, st0, st1, trace1, n) && trace1 <= trace2 <= trace
    requires ClaimsOk(cfg, st1, d.f, desired, claimed) && claimed.Keys <= desired.Keys
    requires AllSteered(cfg, st1, st2, d.f, desired, claimed, claimed.Keys, false)
    requires NewTablesReady(cfg, st1, st2, d.f, desired) && (VrfsSafe(cfg, st1) ==> VrfsSafe(cfg, st2))
    requires SteerTraced(cfg, st1, trace2, |trace1|, d.f, desired)
    requires TablePruned(VrfTable(cfg, d.f), st2, st, IsIn(LocalPrefixes(cfg, d.routes)))
    requires PruneTraced(cfg, VrfTable(cfg, d.f), st2, trace, |trace2|, IsIn(LocalPrefixes(cfg, d.routes)))
    requires VrfsSafe(cfg, st2) ==> VrfsSafe(cfg, st)
    ensures AddStepsSafe(cfg, d, st0, trace, n, desired)
    ensures VrfsSafe(cfg, st0) ==> VrfsSafe(cfg, st)
    ensures SteerRulesOk(cfg, st)
  {
    VrfGrownParts(cfg, d, st0, st1);
    SteeredRulesOk(cfg, d.f, st1, st2, desired, claimed);
    SameOwnTables(st0, st1, d.f);
    hide VrfsSafe, NewTablesReady, RoutesIn, DesiredOk, UsedTables, OwnTables, AllSteered, VrfGrown, ClaimsOk, TablePruning, LocalPrefixes, SteerRulesOk;
    SameUsed(cfg, st0, st1, st2, d.f, desired);
    PrunedRulesOk(cfg, st2, st);
    forall i | n <= i < |trace|
      ensures NewTablesReady(cfg, st0, trace[i], d.f, desired)
      ensures VrfsSafe(cfg, st0) ==> VrfsSafe(cfg, trace[i])
    {
      if i < |trace1| {
        assert trace[i] == trace1[i];
        QuietSteps(cfg, st0, trace[i], d.f, desired);
      } else if i < |trace2| {
        assert trace[i] == trace2[i];
        SameUsed(cfg, st0, st1, trace[i], d.f, desired);
      } else {
        VrfPruneKeepsReady(cfg, d.f, st0, st2, trace[i], desired, IsIn(LocalPrefixes(cfg, d.routes)));
      }
    }
  }

  // The last phase: what the whole addition amounts to.
  lemma AddEnds(cfg: Config, d: Domain, st0: State, st1: State, st2: State, st: State,
                trace1: seq<State>, trace2: seq<State>, trace: seq<State>, n: nat, desired: Desired, claimed: Claims)
    requires ValidDomain(d) && SteerRulesOk(cfg, st0)
    requires VrfGrown(cfg, d.f, st0, st1, Installed(cfg, d.f, d.locators, d.routes), RuleSids(cfg, d.f, d.locators, d.routes))
    requires Traced(cfg, st0, st1, trace1, n) && trace1 <= trace2 <= trace
    requires IsDesired(cfg, d.locators, d.gateways, d.routes, desired) && DesiredOk(d.f, desired)
    requires ClaimsOk(cfg, st1, d.f, desired, claimed) && claimed.Keys <= desired.Keys
    requires Reclaims(desired, TablesOf(st1, d.f), claimed) && NobodyLeftOut(FreeTables(cfg, st1), desired, claimed)
    requires AllSteered(cfg, st1, st2, d.f, desired, claimed, claimed.Keys, false)
    requires NewTablesReady(cfg, st1, st2, d.f, desired) && (VrfsSafe(cfg, st1) ==> VrfsSafe(cfg, st2))
    requires SteerTraced(cfg, st1, trace2, |trace1|, d.f, desired)
    requires TablePruned(VrfTable(cfg, d.f), st2, st, IsIn(LocalPrefixes(cfg, d.routes)))
    requires PruneTraced(cfg, VrfTable(cfg, d.f), st2, trace, |trace2|, IsIn(LocalPrefixes(cfg, d.routes)))
    requires VrfsSafe(cfg, st2) ==> VrfsSafe(cfg, st)
    ensures FullAdd(cfg, d, st0, st, trace, n, desired, claimed) && SteerRulesOk(cfg, st)
  {
    hide *;
    VrfGrownParts(cfg, d, st0, st1);
    AskedParts(cfg, d, desired);
    AddPhases(cfg, d, st0, st1, st2, st, desired, claimed);
    AddIsSafe(cfg, d, st0, st1, st2, st, trace1, trace2, trace, n, desired, claimed);
    AddIsFull(cfg, d, st0, st1, st, trace, n, desired, claimed);
  }

  lemma PrunedRulesOk(cfg: Config, st2: State, st: State)
    requires SteerRulesOk(cfg, st2) && st.steerRules == st2.steerRules
    ensures SteerRulesOk(cfg, st)
  {
  }

  // ------------------------------------------------------------------
  // Withdrawing routes
  // ------------------------------------------------------------------
  function PrefixesOf(routes: seq<Route>): set<Dest> {
    set i | 0 <= i < |routes| :: routes[i].prefix
  }

  // The VRF lost the routes named; no rule was touched.
  ghost predicate Removed(cfg: Config, f: nat, routes: seq<Route>, st0: State, st: State) {
    && RoutesIn(st, VrfTable(cfg, f)) == RoutesIn(st0, VrfTable(cfg, f)) - PrefixesOf(routes)
    && (forall t | t != VrfTable(cfg, f) :: RoutesIn(st, t) == RoutesIn(st0, t))
    && st.sidRules == st0.sidRules && st.steerRules == st0.steerRules
  }

  lemma RemoveStarts(cfg: Config, f: nat, routes: seq<Route>, st: State)
    ensures Removed(cfg, f, routes[..0], st, st)
  {
    hide RoutesIn;
    assert PrefixesOf(routes[..0]) == {};
  }

  lemma RemoveStep(cfg: Config, f: nat, routes: seq<Route>, n: nat, st0: State, st: State)
    requires n < |routes| && Removed(cfg, f, routes[..n], st0, st)
    ensures var st' := st.(routes := st.routes - {(VrfTable(cfg, f), routes[n].prefix)});
            Removed(cfg, f, routes[..n + 1], st0, st') && (VrfsSafe(cfg, st) ==> VrfsSafe(cfg, st'))
  {
    DeleteEffect(cfg, st, VrfTable(cfg, f), routes[n].prefix);
    PrefixesStep(routes, n);
    hide RoutesIn, VrfsSafe, PrefixesOf;
  }

  lemma PrefixesStep(routes: seq<Route>, n: nat)
    requires n < |routes|
    ensures PrefixesOf(routes[..n + 1]) == PrefixesOf(routes[..n]) + {routes[n].prefix}
  {
    var a, b := routes[..n + 1], routes[..n];
    assert forall i | 0 <= i < n :: a[i] == b[i];
    assert a[n] == routes[n];
    forall x | x in PrefixesOf(b)
      ensures x in PrefixesOf(a)
    {
      var i :| 0 <= i < |b| && b[i].prefix == x;
      assert a[i].prefix == x;
    }
    assert a[n].prefix in PrefixesOf(a);
  }

  // ------------------------------------------------------------------
  // A domain that goes
  // ------------------------------------------------------------------
  // Nothing of the domain is left, and nothing else has changed.
  ghost predicate Gone(cfg: Config, f: nat, st0: State, st: State) {
    && RoutesIn(st, VrfTable(cfg, f)) == map[]
    && (forall t | t in OwnTables(st0, f) :: RoutesIn(st, t) == map[])
    && (forall t | t != VrfTable(cfg, f) && t !in OwnTables(st0, f) :: RoutesIn(st, t) == RoutesIn(st0, t))
    && (forall r :: r in st.sidRules <==> r in st0.sidRules && r.0 != f)
    && (forall r :: r in st.steerRules <==> r in st0.steerRules && r.iif.f != f)
  }

  // No VM steered: what releasing every table starts from.
  lemma NobodySteered(cfg: Config, f: nat, st: State, trace: seq<State>, nobody: Desired, none: Claims)
    requires nobody == map[] && none == map[]
    ensures DesiredOk(f, nobody) && none.Values == {} && Releasing(cfg, st, st, trace, |trace|, f, nobody, none, {})
  {
    assert none.Keys == {} && none.Values == {};
    assert ClaimsOk(cfg, st, f, nobody, none);
    SteerLoopStarts(cfg, st, trace, f, nobody, none, true);
    hide SteerLoop, Releasing;
    ReleaseStarts(cfg, st, st, trace, |trace|, f, nobody, none);
  }

  lemma FlushedElsewhere(st1: State, st2: State, st: State, t: Table)
    requires st2.routes == st1.routes && st.routes == map k | k in st2.routes && k.0 != t :: st2.routes[k]
    ensures forall u | u != t :: RoutesIn(st, u) == RoutesIn(st1, u)
  {
    forall u | u != t
      ensures RoutesIn(st, u) == RoutesIn(st1, u)
    {
    }
  }

  lemma AllGone(cfg: Config, f: nat, st0: State, st1: State, st2: State, st: State, trace: seq<State>, n: nat,
                nobody: Desired, none: Claims)
    requires nobody == map[] && none == map[] && DesiredOk(f, nobody)
    requires Releasing(cfg, st0, st1, trace, n, f, nobody, none, OwnTables(st0, f))
    requires st2 == st1.(sidRules := set r | r in st1.sidRules && (r.0 == f ==> r.1 in {}))
    requires st == st2.(routes := map k | k in st2.routes && k.0 != VrfTable(cfg, f) :: st2.routes[k])
    ensures Gone(cfg, f, st0, st)
  {
    FlushEmpties(st2, VrfTable(cfg, f));
    FlushedElsewhere(st1, st2, st, VrfTable(cfg, f));
    assert none.Keys == {} && none.Values == {};
    assert AllSteerSids(cfg, f, nobody, none.Keys) == {};
    assert forall r :: !OwnRule(nobody, none, none.Keys, r);
    assert forall r | r in st0.steerRules && r.iif.f == f :: r.table in OwnTables(st0, f);
    hide RoutesIn, OwnTables, AllSteerSids, OwnRule, VrfsSafe, NewTablesReady, SteerTraced;
  }

  // ------------------------------------------------------------------
  // Runs of messages
  // ------------------------------------------------------------------
  // The three route messages a node gets about a domain.
  datatype Op =
    | AddOp(id: DomainId, routes: seq<Route>, locators: Locators, gateways: Gateways)
    | RemoveOp(id: DomainId, routes: seq<Route>)
    | SyncOp(id: DomainId, routes: seq<Route>, locators: Locators, gateways: Gateways)

  // The domain a payload describes, on the node that recorded f for it.
  function DomainOf(f: nat, op: Op): Domain {
    match op
    case AddOp(_, routes, locators, gateways) => Domain(f, locators, gateways, routes)
    case RemoveOp(_, routes) => Domain(f, map[], map[], routes)
    case SyncOp(_, routes, locators, gateways) => Domain(f, locators, gateways, routes)
  }

  // The payload fits the domain.
  ghost predicate ValidOp(domains: map<DomainId, nat>, op: Op) {
    op.id in domains && !op.RemoveOp? ==> ValidDomain(DomainOf(domains[op.id], op))
  }

  // One call of a run: the states before and after, its steps in the trace,
  // the VMs it steered and the tables it claimed for them.
  datatype Call = Call(st0: State, st1: State, from_: nat, to: nat, desired: Desired, claimed: Claims)

  // Its steps are in the trace; the newest is the state it left.
  ghost predicate IsTraced(trace: seq<State>, c: Call) {
    && c.from_ <= c.to <= |trace|
    && (if c.from_ < c.to then trace[c.to - 1] == c.st1 else c.st1 == c.st0)
  }

  ghost predicate SafeBetween(cfg: Config, trace: seq<State>, from_: nat, to: nat) {
    forall i | from_ <= i < to && i < |trace| :: VrfsSafe(cfg, trace[i])
  }

  // What the call did is what its message asked.
  ghost predicate CallOk(cfg: Config, domains: map<DomainId, nat>, op: Op, trace: seq<State>, c: Call) {
    && IsTraced(trace, c)
    && if op.id !in domains then c.st1 == c.st0 && c.to == c.from_
       else
         var d := DomainOf(domains[op.id], op);
         match op
         case AddOp(_, _, _, _) =>
           ValidDomain(d) && FullAdd(cfg, d, c.st0, c.st1, trace[..c.to], c.from_, c.desired, c.claimed)
         case RemoveOp(_, routes) =>
           && Removed(cfg, d.f, routes, c.st0, c.st1)
           && (forall i | c.from_ <= i < c.to :: trace[i].steerRules == c.st0.steerRules)
           && (VrfsSafe(cfg, c.st0) ==> SafeBetween(cfg, trace, c.from_, c.to) && VrfsSafe(cfg, c.st1))
         case SyncOp(_, _, _, _) =>
           ValidDomain(d) && FullSync(cfg, d, c.st0, c.st1, trace[..c.to], c.from_, c.desired, c.claimed)
  }

  // The calls follow one another from st0 at n to st, each the answer to its
  // message.
  ghost predicate CallsOk(cfg: Config, domains: map<DomainId, nat>, ops: seq<Op>, st0: State, st: State, trace: seq<State>,
                          n: nat, calls: seq<Call>) {
    && |calls| <= |ops|
    && (if calls == [] then st == st0 && |trace| == n
        else calls[0].st0 == st0 && calls[0].from_ == n && calls[|calls| - 1].st1 == st && calls[|calls| - 1].to == |trace|)
    && (forall k | 0 <= k < |calls| :: CallOk(cfg, domains, ops[k], trace, calls[k]))
    && forall k | 0 < k < |calls| :: calls[k].st0 == calls[k - 1].st1 && calls[k].from_ == calls[k - 1].to
  }

  lemma CallsStep(cfg: Config, domains: map<DomainId, nat>, ops: seq<Op>, st0: State, st1: State, st: State,
                  trace1: seq<State>, trace: seq<State>, n: nat, calls: seq<Call>, c: Call)
    requires CallsOk(cfg, domains, ops, st0, st1, trace1, n, calls) && trace1 <= trace && |calls| < |ops|
    requires c.st0 == st1 && c.st1 == st && c.from_ == |trace1| && c.to == |trace|
    requires CallOk(cfg, domains, ops[|calls|], trace, c)
    ensures CallsOk(cfg, domains, ops, st0, st, trace, n, calls + [c])
  {
    hide CallOk;
    var more := calls + [c];
    forall k | 0 <= k < |more|
      ensures CallOk(cfg, domains, ops[k], trace, more[k])
    {
      if k < |calls| {
        CallStays(cfg, domains, ops[k], trace1, trace, calls[k]);
      }
    }
  }

  lemma CallStays(cfg: Config, domains: map<DomainId, nat>, op: Op, trace1: seq<State>, trace: seq<State>, c: Call)
    requires CallOk(cfg, domains, op, trace1, c) && trace1 <= trace
    ensures CallOk(cfg, domains, op, trace, c)
  {
    hide FullAdd, FullSync, Removed, VrfsSafe, ValidDomain;
    assert trace[..c.to] == trace1[..c.to];
    assert forall i | c.from_ <= i < c.to :: trace[i] == trace1[i];
  }

  lemma NoCalls(cfg: Config, domains: map<DomainId, nat>, ops: seq<Op>, st: State, trace: seq<State>)
    ensures CallsOk(cfg, domains, ops, st, st, trace, |trace|, [])
  {
  }

  lemma OpIsValid(domains: map<DomainId, nat>, op: Op)
    requires ValidOp(domains, op) && !op.RemoveOp?
    ensures op.id in domains ==> ValidDomain(Domain(domains[op.id], op.locators, op.gateways, op.routes))
  {
    hide ValidDomain;
  }

  lemma AddCall(cfg: Config, domains: map<DomainId, nat>, op: Op, trace: seq<State>, c: Call)
    requires op.AddOp? && IsTraced(trace, c) && c.to == |trace|
    requires op.id !in domains ==> c.st1 == c.st0 && c.to == c.from_
    requires op.id in domains ==>
               var d := Domain(domains[op.id], op.locators, op.gateways, op.routes);
               ValidDomain(d) && FullAdd(cfg, d, c.st0, c.st1, trace, c.from_, c.desired, c.claimed)
    ensures CallOk(cfg, domains, op, trace, c)
  {
    hide FullAdd, ValidDomain;
    assert trace[..c.to] == trace;
  }

  lemma RemoveCall(cfg: Config, domains: map<DomainId, nat>, op: Op, trace: seq<State>, c: Call)
    requires op.RemoveOp? && IsTraced(trace, c) && c.to == |trace|
    requires op.id !in domains ==> c.st1 == c.st0 && c.to == c.from_
    requires op.id in domains ==> Removed(cfg, domains[op.id], op.routes, c.st0, c.st1)
    requires forall i | c.from_ <= i < c.to :: trace[i].steerRules == c.st0.steerRules
    requires VrfsSafe(cfg, c.st0) ==> VrfsSafe(cfg, c.st1) && SafeSince(cfg, trace, c.from_)
    ensures CallOk(cfg, domains, op, trace, c)
  {
    hide Removed, VrfsSafe;
  }

  lemma SyncCall(cfg: Config, domains: map<DomainId, nat>, op: Op, trace: seq<State>, c: Call)
    requires op.SyncOp? && IsTraced(trace, c) && c.to == |trace|
    requires op.id !in domains ==> c.st1 == c.st0 && c.to == c.from_
    requires op.id in domains ==>
               var d := Domain(domains[op.id], op.locators, op.gateways, op.routes);
               ValidDomain(d) && FullSync(cfg, d, c.st0, c.st1, trace, c.from_, c.desired, c.claimed)
    ensures CallOk(cfg, domains, op, trace, c)
  {
    hide FullSync, ValidDomain;
    assert trace[..c.to] == trace;
  }

  // A call is traced by the histories before and after it.
  lemma HistoryTraces(calls0: seq<Command>, trace0: seq<State>, calls: seq<Command>, trace: seq<State>, c: Call)
    requires IsHistory(calls0, trace0, c.st0) && IsHistory(calls, trace, c.st1) && trace0 <= trace
    requires c.from_ == |trace0| && c.to == |trace|
    ensures IsTraced(trace, c)
  {
    hide Run;
    if |trace| == |trace0| {
      assert trace == trace0;
    }
  }

  // ------------------------------------------------------------------
  // Two histories, one payload
  // ------------------------------------------------------------------
  // Two nodes' kernels that differed in any way agree on a domain once both
  // synced it to one payload: the same VRF routes, the same SID rules, and
  // for each steered VM the same routes in its table, whichever that is.
  lemma HistoriesAgree(cfg: Config, d: Domain, st0: State, st: State, claimed: Claims,
                       st0': State, st': State, claimed': Claims, desired: Desired)
    requires ValidDomain(d) && DesiredOk(d.f, desired) && AllDevicesKnown(cfg, d)
    requires claimed.Keys == desired.Keys && Synced(cfg, d, st0, st, desired, claimed)
    requires claimed'.Keys == desired.Keys && Synced(cfg, d, st0', st', desired, claimed')
    ensures RoutesIn(st, VrfTable(cfg, d.f)) == RoutesIn(st', VrfTable(cfg, d.f))
    ensures forall a :: (d.f, a) in st.sidRules <==> (d.f, a) in st'.sidRules
    ensures forall p | p in desired :: RoutesIn(st, claimed[p]) == RoutesIn(st', claimed'[p])
  {
    HistoryIndependent(cfg, d, st0, st, desired, claimed);
    HistoryIndependent(cfg, d, st0', st', desired, claimed');
    hide RoutesIn, Synced, Installed, NeededSids, SteerRoutes, DesiredOk, AllDevicesKnown;
  }
}
