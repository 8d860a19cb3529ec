// Steering by source VM, as values: which VMs a payload steers here, which
// table each gets, and when a table is ready for its rules.

module Steering {
  import opened Wrappers
  import opened Csid
  import opened Sid
  import opened Payload
  import opened Kernel
  import opened EncapRoutes
  import opened Sets

  const STEER_TABLE_SLOTS: nat := 4096

  type Gateways = map<NetworkId, Gateway>

  // One VM steered here: where its traffic comes in, its own prefixes, and
  // per destination the remote locator and the transit SIDs.
  datatype Steered = Steered(iif: Gateway, prefixes: set<Dest>, routes: map<Dest, (Prefix, seq<Address>)>)

  function SteerBase(cfg: Config): Table {
    cfg.base + STEER_TABLE_OFFSET
  }

  predicate IsSteerTable(cfg: Config, t: Table) {
    SteerBase(cfg) <= t < SteerBase(cfg) + STEER_TABLE_SLOTS
  }

  // ------------------------------------------------------------------
  // What the payload asks for
  // ------------------------------------------------------------------
  predicate SteersHere(cfg: Config, locators: Locators, gateways: Gateways, r: Route, p: PortId) {
    && p in r.bySourcePort && r.bySourcePort[p].host == cfg.local
    && r.bySourcePort[p].network in gateways && r.host in locators
  }

  function AddDestination(e: Option<Steered>, r: Route, p: PortId, locators: Locators, gateways: Gateways): Steered
    requires p in r.bySourcePort && r.bySourcePort[p].network in gateways && r.host in locators
  {
    var vm := r.bySourcePort[p];
    var base := if e.Some? then e.value else Steered(gateways[vm.network], vm.prefixes, map[]);
    base.(routes := base.routes[r.prefix := (locators[r.host], vm.segments)])
  }

  ghost function DesiredFor(cfg: Config, locators: Locators, gateways: Gateways, routes: seq<Route>,
                            p: PortId): Option<Steered> {
    if routes == [] then None
    else
      var before, r := DesiredFor(cfg, locators, gateways, routes[..|routes| - 1], p), routes[|routes| - 1];
      if SteersHere(cfg, locators, gateways, r, p)
      then Some(AddDestination(before, r, p, locators, gateways)) else before
  }

  type Desired = map<PortId, Steered>

  ghost predicate IsDesired(cfg: Config, locators: Locators, gateways: Gateways, routes: seq<Route>, desired: Desired) {
    forall p: PortId :: Lookup(desired, p) == DesiredFor(cfg, locators, gateways, routes, p)
  }

  function Lookup(desired: Desired, p: PortId): Option<Steered> {
    if p in desired then Some(desired[p]) else None
  }

  method BuildDesired(cfg: Config, locators: Locators, gateways: Gateways, routes: seq<Route>) returns (desired: Desired)
    ensures IsDesired(cfg, locators, gateways, routes, desired)
  {
    desired := map[];
    for i := 0 to |routes|
      invariant IsDesired(cfg, locators, gateways, routes[..i], desired)
    {
      var r := routes[i];
      ghost var before := desired;
      assert routes[..i + 1][..i] == routes[..i];
      var todo := r.bySourcePort.Keys;
      while todo != {}
        invariant todo <= r.bySourcePort.Keys
        invariant forall p: PortId | p in todo || p !in r.bySourcePort :: Lookup(desired, p) == Lookup(before, p)
        invariant forall p: PortId | p in r.bySourcePort && p !in todo ::
                    Lookup(desired, p) == DesiredFor(cfg, locators, gateways, routes[..i + 1], p)
      {
        var p :| p in todo;
        todo := todo - {p};
        if SteersHere(cfg, locators, gateways, r, p) {
          desired := desired[p := AddDestination(Lookup(desired, p), r, p, locators, gateways)];
        }
      }
    }
    assert routes[..|routes|] == routes;
  }

  ghost predicate DesiredEncodable(f: nat, e: Steered) {
    forall d | d in e.routes :: Encodable(f, e.routes[d].0)
  }

  lemma {:induction false} DesiredIsEncodable(cfg: Config, f: nat, locators: Locators, gateways: Gateways,
                                              routes: seq<Route>, p: PortId)
    requires AllEncodable(f, locators)
    ensures var e := DesiredFor(cfg, locators, gateways, routes, p); e.Some? ==> DesiredEncodable(f, e.value)
  {
    hide Encodable;
    if routes != [] {
      DesiredIsEncodable(cfg, f, locators, gateways, routes[..|routes| - 1], p);
    }
  }

  // ------------------------------------------------------------------
  // Claiming tables
  // ------------------------------------------------------------------
  // The steer rules of one table, without the table.
  type Selectors = set<(Dest, Gateway)>
  type Tables = map<Table, Selectors>

  function OwnTables(st: State, f: nat): set<Table> {
    set r | r in st.steerRules && r.iif.f == f :: r.table
  }

  function SelectorsOf(st: State, f: nat, t: Table): Selectors {
    set r | r in st.steerRules && r.iif.f == f && r.table == t :: (r.prefix, r.iif)
  }

  function TablesOf(st: State, f: nat): Tables {
    map t | t in OwnTables(st, f) :: SelectorsOf(st, f, t)
  }

  function UsedTables(st: State): set<Table> {
    set r | r in st.steerRules :: r.table
  }

  // The table's rules all name the VM's gateway port, and one of its addresses.
  predicate Matches(e: Steered, rules: Selectors) {
    && (set x | x in rules :: x.1) == {e.iif}
    && (set x | x in rules :: x.0) * e.prefixes != {}
  }

  type Claims = map<PortId, Table>

  ghost predicate Injective(claimed: Claims) {
    forall p, q | p in claimed && q in claimed && claimed[p] == claimed[q] :: p == q
  }

  // A VM keeps a table nobody else could want.
  ghost predicate Reclaims(desired: Desired, tables: Tables, claimed: Claims) {
    forall p: PortId, t: Table | p in desired && OnlyMatch(desired, tables, p, t) :: p in claimed && claimed[p] == t
  }

  ghost predicate OnlyMatch(desired: Desired, tables: Tables, p: PortId, t: Table)
    requires p in desired
  {
    && t in tables && Matches(desired[p], tables[t])
    && (forall u | u in tables && Matches(desired[p], tables[u]) :: u == t)
    && (forall q | q in desired && Matches(desired[q], tables[t]) :: q == p)
  }

  // With a free table for each VM, every VM gets one.
  ghost predicate NobodyLeftOut(free: set<Table>, desired: Desired, claimed: Claims) {
    |desired| <= |free| ==> claimed.Keys == desired.Keys
  }

  // Whose table is whose: a VM takes the first table that is its own by its
  // rules, or else the lowest free one.
  method ClaimTables(desired: Desired, tables: Tables, free0: set<Table>) returns (claimed: Claims)
    requires free0 !! tables.Keys
    ensures claimed.Keys <= desired.Keys && Injective(claimed)
    ensures forall p | p in claimed ::
              claimed[p] in free0 || (claimed[p] in tables && Matches(desired[p], tables[claimed[p]]))
    ensures NobodyLeftOut(free0, desired, claimed)
    ensures Reclaims(desired, tables, claimed)
  {
    claimed := map[];
    var todo := desired.Keys;
    var free := free0;
    assert |desired.Keys| == |desired|;
    while todo != {}
      invariant todo <= desired.Keys && free <= free0
      invariant claimed.Keys <= desired.Keys - todo && Injective(claimed)
      invariant forall p | p in claimed :: claimed[p] !in free
      invariant forall p | p in claimed ::
                  claimed[p] in free0 || (claimed[p] in tables && Matches(desired[p], tables[claimed[p]]))
      invariant |desired| <= |free0| ==> |todo| <= |free| && claimed.Keys == desired.Keys - todo
      invariant forall p: PortId, t: Table | p in desired && p !in todo && OnlyMatch(desired, tables, p, t) ::
                  p in claimed && claimed[p] == t
    {
      var p := Least(todo);
      todo := todo - {p};
      var own := set t | t in tables && t !in claimed.Values && Matches(desired[p], tables[t]);
      OwnTable(desired, tables, claimed, p, own);
      if own != {} {
        var t := Least(own);
        ClaimKeeps(claimed, p, t);
        claimed := claimed[p := t];
      } else if free != {} {
        var t := Least(free);
        FreeIsUnclaimed(claimed, free, t);
        ClaimKeeps(claimed, p, t);
        claimed := claimed[p := t];
        free := free - {t};
      }
    }
  }

  lemma OwnTable(desired: Desired, tables: Tables, claimed: Claims, p: PortId, own: set<Table>)
    requires claimed.Keys <= desired.Keys && p in desired && p !in claimed
    requires forall q | q in claimed ::
               claimed[q] !in tables || Matches(desired[q], tables[claimed[q]])
    requires own == set t | t in tables && t !in claimed.Values && Matches(desired[p], tables[t])
    ensures forall t: Table | OnlyMatch(desired, tables, p, t) :: own == {t}
  {
    forall t: Table | OnlyMatch(desired, tables, p, t)
      ensures own == {t}
    {
      assert forall q | q in claimed && claimed[q] == t :: q == p;
      assert t !in claimed.Values;
      assert t in own;
    }
  }

  lemma FreeIsUnclaimed(claimed: Claims, free: set<Table>, t: Table)
    requires t in free && forall p | p in claimed :: claimed[p] !in free
    ensures t !in claimed.Values
  {
  }

  lemma ClaimKeeps(claimed: Claims, p: PortId, t: Table)
    requires Injective(claimed) && t !in claimed.Values && p !in claimed
    ensures Injective(claimed[p := t])
  {
    forall q | q in claimed
      ensures claimed[q] != t
    {
      assert claimed[q] in claimed.Values;
    }
  }

  // ------------------------------------------------------------------
  // One VM's table
  // ------------------------------------------------------------------
  ghost function SteerEncap(cfg: Config, f: nat, e: Steered, d: Dest): Encap
    requires DesiredEncodable(f, e) && d in e.routes
  {
    assert Encodable(f, e.routes[d].0);
    EncapOf(cfg, f, e.routes[d].0, e.routes[d].1)
  }

  // The routes the table should hold; one with no underlay device is left out.
  ghost function SteerRoutes(cfg: Config, f: nat, e: Steered): map<Dest, EncapRoute>
    requires DesiredEncodable(f, e)
  {
    map d | d in e.routes && SteerEncap(cfg, f, e, d).dev.Some? :: AsRoute(SteerEncap(cfg, f, e, d))
  }

  ghost function SteerSids(cfg: Config, f: nat, e: Steered): set<Address>
    requires DesiredEncodable(f, e)
  {
    set d | d in e.routes && !SteerEncap(cfg, f, e, d).sealed :: SteerEncap(cfg, f, e, d).segments[0]
  }

  ghost function SteerRulesOf(e: Steered, t: Table): set<SteerRule> {
    set p | p in e.prefixes :: SteerRule(p, e.iif, t)
  }

  // The table holds the VM's routes, and the VRF may reach their first segments.
  ghost predicate Ready(cfg: Config, st: State, f: nat, t: Table, e: Steered)
    requires DesiredEncodable(f, e)
  {
    && (forall d | d in SteerRoutes(cfg, f, e) ::
          d in RoutesIn(st, t) && RoutesIn(st, t)[d] == SteerRoutes(cfg, f, e)[d])
    && RulesFor(f, SteerSids(cfg, f, e)) <= st.sidRules
  }

  // While one VM is being steered into t: the other tables keep their
  // routes, SID rules are only added, and the only steer rules that may
  // appear are the VM's own, and only on a table that is ready.
  ghost predicate WhileSteering(cfg: Config, before: State, st: State, f: nat, t: Table, e: Steered)
    requires DesiredEncodable(f, e)
  {
    && (VrfsSafe(cfg, before) ==> VrfsSafe(cfg, st))
    && SameElsewhere(before, st, t)
    && before.sidRules <= st.sidRules
    && (|| st.steerRules <= before.steerRules
        || (Ready(cfg, st, f, t, e) && st.steerRules <= before.steerRules + SteerRulesOf(e, t)))
  }

  ghost predicate SteeringSince(cfg: Config, before: State, trace: seq<State>, n: nat, f: nat, t: Table, e: Steered)
    requires DesiredEncodable(f, e)
  {
    n <= |trace| && forall i | n <= i < |trace| :: WhileSteering(cfg, before, trace[i], f, t, e)
  }

  // What steering one VM into t leaves behind.
  ghost predicate IsSteered(cfg: Config, before: State, st: State, f: nat, t: Table, e: Steered, prune: bool)
    requires DesiredEncodable(f, e)
  {
    && RoutesIn(st, t) == (if prune then map[] else RoutesIn(before, t)) + SteerRoutes(cfg, f, e)
    && SameElsewhere(before, st, t)
    && st.sidRules == before.sidRules + RulesFor(f, SteerSids(cfg, f, e))
    && st.steerRules == (if prune then set r | r in before.steerRules && !(r.table == t && r.iif.f == f)
                         else before.steerRules) + SteerRulesOf(e, t)
  }

  lemma DestinationEncodable(cfg: Config, f: nat, e: Steered, d: Dest)
    requires DesiredEncodable(f, e) && d in e.routes
    ensures Encodable(f, e.routes[d].0)
    ensures SteerEncap(cfg, f, e, d) == EncapOf(cfg, f, e.routes[d].0, e.routes[d].1)
  {
  }

  lemma SteerTableIsSafe(cfg: Config, st: State, t: Table, d: Dest, r: EncapRoute)
    requires IsSteerTable(cfg, t)
    ensures VrfsSafe(cfg, st) ==> VrfsSafe(cfg, st.(routes := st.routes[(t, d) := r]))
  {
  }

  ghost predicate SameElsewhere(before: State, st: State, t: Table) {
    forall u | u != t :: RoutesIn(st, u) == RoutesIn(before, u)
  }

  // The table while the destinations in `todo` are still to come.
  ghost predicate Filling(cfg: Config, before: State, st: State, f: nat, t: Table, e: Steered,
                          todo: set<Dest>, wanted: set<Dest>, sids: set<Address>)
    requires DesiredEncodable(f, e)
  {
    && wanted == FilledRoutes(cfg, f, e, todo).Keys
    && sids == FilledSids(cfg, f, e, todo)
    && RoutesIn(st, t) == RoutesIn(before, t) + FilledRoutes(cfg, f, e, todo)
    && SameElsewhere(before, st, t)
    && st.sidRules == before.sidRules && st.steerRules == before.steerRules
    && (VrfsSafe(cfg, before) ==> VrfsSafe(cfg, st))
  }

  ghost function FilledRoutes(cfg: Config, f: nat, e: Steered, todo: set<Dest>): map<Dest, EncapRoute>
    requires DesiredEncodable(f, e)
  {
    SteerRoutes(cfg, f, e) - todo
  }

  ghost function FilledSids(cfg: Config, f: nat, e: Steered, todo: set<Dest>): set<Address>
    requires DesiredEncodable(f, e)
  {
    set d | d in e.routes && d !in todo && !SteerEncap(cfg, f, e, d).sealed :: SteerEncap(cfg, f, e, d).segments[0]
  }

  lemma FillStarts(cfg: Config, st: State, trace: seq<State>, f: nat, t: Table, e: Steered)
    requires DesiredEncodable(f, e)
    ensures Filling(cfg, st, st, f, t, e, e.routes.Keys, {}, {})
    ensures SteeringSince(cfg, st, trace, |trace|, f, t, e)
  {
    hide RoutesIn, VrfsSafe, SteerEncap;
    assert FilledRoutes(cfg, f, e, e.routes.Keys) == map[];
  }

  lemma FillStep(cfg: Config, before: State, st: State, trace: seq<State>, n: nat, f: nat, t: Table, e: Steered,
                 todo: set<Dest>, wanted: set<Dest>, sids: set<Address>, d: Dest, x: Encap)
    requires IsSteerTable(cfg, t) && DesiredEncodable(f, e)
    requires Filling(cfg, before, st, f, t, e, todo, wanted, sids) && SteeringSince(cfg, before, trace, n, f, t, e)
    requires d in todo && d in e.routes && Encodable(f, e.routes[d].0)
    requires x == SteerEncap(cfg, f, e, d)
    ensures var sids' := if x.sealed then sids else sids + {x.segments[0]};
            if x.dev.None? then Filling(cfg, before, st, f, t, e, todo - {d}, wanted, sids')
            else
              var st' := st.(routes := st.routes[(t, d) := AsRoute(x)]);
              && Filling(cfg, before, st', f, t, e, todo - {d}, wanted + {d}, sids')
              && SteeringSince(cfg, before, trace + [st'], n, f, t, e)
              && AsRoute(x) == EncapRoute(x.segments, x.dev.value, x.sealed)
  {
    hide RoutesIn, VrfsSafe, SteerEncap, EncapOf, Encodable, DesiredEncodable, Ready, SteeringSince, WhileSteering, FilledRoutes, FilledSids, SameElsewhere;
    FillSids(cfg, f, e, todo, d, x);
    FillRoutes(cfg, f, e, todo, d, x);
    if x.dev.Some? {
      var st' := st.(routes := st.routes[(t, d) := AsRoute(x)]);
      ReplaceElsewhere(before, st, t, d, AsRoute(x));
      SteerTableIsSafe(cfg, st, t, d, AsRoute(x));
      MergeUpdate(RoutesIn(before, t), FilledRoutes(cfg, f, e, todo), d, AsRoute(x));
      QuietIsSteering(cfg, before, st', f, t, e);
      SteeringAppend(cfg, before, trace, st', n, f, t, e);
    }
  }

  lemma ReplaceElsewhere(before: State, st: State, t: Table, d: Dest, r: EncapRoute)
    requires SameElsewhere(before, st, t)
    ensures SameElsewhere(before, st.(routes := st.routes[(t, d) := r]), t)
    ensures RoutesIn(st.(routes := st.routes[(t, d) := r]), t) == RoutesIn(st, t)[d := r]
  {
    ReplaceEffect(st, t, d, r);
    hide RoutesIn;
  }

  lemma MergeUpdate(a: map<Dest, EncapRoute>, b: map<Dest, EncapRoute>, d: Dest, r: EncapRoute)
    ensures (a + b)[d := r] == a + b[d := r]
  {
  }

  lemma QuietIsSteering(cfg: Config, before: State, st: State, f: nat, t: Table, e: Steered)
    requires DesiredEncodable(f, e)
    requires VrfsSafe(cfg, before) ==> VrfsSafe(cfg, st)
    requires SameElsewhere(before, st, t)
    requires before.sidRules <= st.sidRules && st.steerRules <= before.steerRules
    ensures WhileSteering(cfg, before, st, f, t, e)
  {
    hide RoutesIn, VrfsSafe, Ready;
  }

  lemma SteeringAppend(cfg: Config, before: State, trace: seq<State>, st: State, n: nat, f: nat, t: Table, e: Steered)
    requires DesiredEncodable(f, e)
    requires SteeringSince(cfg, before, trace, n, f, t, e) && WhileSteering(cfg, before, st, f, t, e)
    ensures SteeringSince(cfg, before, trace + [st], n, f, t, e)
  {
    hide WhileSteering;
  }

  lemma FillSids(cfg: Config, f: nat, e: Steered, todo: set<Dest>, d: Dest, x: Encap)
    requires DesiredEncodable(f, e) && d in todo && d in e.routes && x == SteerEncap(cfg, f, e, d)
    ensures FilledSids(cfg, f, e, todo - {d})
         == FilledSids(cfg, f, e, todo) + (if x.sealed then {} else {x.segments[0]})
  {
    hide SteerEncap, DesiredEncodable;
  }

  lemma FillRoutes(cfg: Config, f: nat, e: Steered, todo: set<Dest>, d: Dest, x: Encap)
    requires DesiredEncodable(f, e) && d in todo && d in e.routes && x == SteerEncap(cfg, f, e, d)
    ensures FilledRoutes(cfg, f, e, todo - {d})
         == if x.dev.Some? then FilledRoutes(cfg, f, e, todo)[d := AsRoute(x)] else FilledRoutes(cfg, f, e, todo)
  {
    hide SteerEncap, DesiredEncodable;
  }

  lemma FillEnds(cfg: Config, before: State, st: State, f: nat, t: Table, e: Steered, wanted: set<Dest>, sids: set<Address>)
    requires DesiredEncodable(f, e) && Filling(cfg, before, st, f, t, e, {}, wanted, sids)
    ensures wanted == SteerRoutes(cfg, f, e).Keys && sids == SteerSids(cfg, f, e)
    ensures RoutesIn(st, t) == RoutesIn(before, t) + SteerRoutes(cfg, f, e)
    ensures SameElsewhere(before, st, t)
    ensures st.sidRules == before.sidRules && st.steerRules == before.steerRules
    ensures VrfsSafe(cfg, before) ==> VrfsSafe(cfg, st)
  {
    hide RoutesIn, VrfsSafe, SteerEncap;
    assert FilledRoutes(cfg, f, e, {}) == SteerRoutes(cfg, f, e);
    assert FilledSids(cfg, f, e, {}) == SteerSids(cfg, f, e);
  }

  // ------------------------------------------------------------------
  // The steps of steering one VM
  // ------------------------------------------------------------------
  function Wanting(e: Steered): Selectors {
    set p | p in e.prefixes :: (p, e.iif)
  }

  function OnTable(selectors: Selectors, t: Table): set<SteerRule> {
    set x | x in selectors :: SteerRule(x.0, x.1, t)
  }

  // No steer rule more than before.
  ghost predicate Quiet(cfg: Config, before: State, st: State, t: Table) {
    && (VrfsSafe(cfg, before) ==> VrfsSafe(cfg, st))
    && SameElsewhere(before, st, t)
    && before.sidRules <= st.sidRules && st.steerRules <= before.steerRules
  }

  // The table is ready, and no steer rule more than the VM's own.
  ghost predicate Open(cfg: Config, before: State, st: State, f: nat, t: Table, e: Steered)
    requires DesiredEncodable(f, e)
  {
    && (VrfsSafe(cfg, before) ==> VrfsSafe(cfg, st))
    && SameElsewhere(before, st, t)
    && before.sidRules <= st.sidRules
    && Ready(cfg, st, f, t, e) && st.steerRules <= before.steerRules + SteerRulesOf(e, t)
  }

  // Steer rules are no part of what makes a VRF safe or a table ready.
  lemma SteerRulesOnly(cfg: Config, st: State, rules: set<SteerRule>)
    ensures VrfsSafe(cfg, st) == VrfsSafe(cfg, st.(steerRules := rules))
    ensures forall u :: RoutesIn(st, u) == RoutesIn(st.(steerRules := rules), u)
  {
  }

  lemma AddIsOpen(cfg: Config, before: State, st: State, r: SteerRule, f: nat, t: Table, e: Steered)
    requires DesiredEncodable(f, e) && Open(cfg, before, st, f, t, e) && r in SteerRulesOf(e, t)
    ensures Open(cfg, before, st.(steerRules := st.steerRules + {r}), f, t, e)
  {
    SteerRulesOnly(cfg, st, st.steerRules + {r});
    hide VrfsSafe, RoutesIn, SteerRoutes, SteerSids;
  }

  lemma OpenAppend(cfg: Config, before: State, trace: seq<State>, st: State, n: nat, f: nat, t: Table, e: Steered)
    requires DesiredEncodable(f, e) && Open(cfg, before, st, f, t, e)
    requires SteeringSince(cfg, before, trace, n, f, t, e)
    ensures SteeringSince(cfg, before, trace + [st], n, f, t, e)
  {
    hide VrfsSafe, SameElsewhere, Ready;
    SteeringAppend(cfg, before, trace, st, n, f, t, e);
  }

  // Filling the table and then letting the VRF reach its SIDs makes it ready.
  lemma EnsuredIsSteering(cfg: Config, before: State, filled: State, st: State, trace0: seq<State>, trace: seq<State>,
                          n: nat, f: nat, t: Table, e: Steered)
    requires DesiredEncodable(f, e)
    requires RoutesIn(filled, t) == RoutesIn(before, t) + SteerRoutes(cfg, f, e) && SameElsewhere(before, filled, t)
    requires filled.sidRules == before.sidRules && filled.steerRules == before.steerRules
    requires VrfsSafe(cfg, before) ==> VrfsSafe(cfg, filled)
    requires SteeringSince(cfg, before, trace0, n, f, t, e) && trace0 <= trace
    requires st == filled.(sidRules := filled.sidRules + RulesFor(f, SteerSids(cfg, f, e)))
    requires VrfsSafe(cfg, filled) ==> SafeSince(cfg, trace, |trace0|)
    requires forall i | |trace0| <= i < |trace| ::
               && trace[i].routes == filled.routes && trace[i].steerRules == filled.steerRules
               && filled.sidRules <= trace[i].sidRules
    ensures SteeringSince(cfg, before, trace, n, f, t, e)
    ensures Quiet(cfg, before, st, t) && Ready(cfg, st, f, t, e)
    ensures RoutesIn(st, t) == RoutesIn(before, t) + SteerRoutes(cfg, f, e)
    ensures st.sidRules == before.sidRules + RulesFor(f, SteerSids(cfg, f, e)) && st.steerRules == before.steerRules
  {
    RulesGrow(cfg, filled, RulesFor(f, SteerSids(cfg, f, e)));
    hide VrfsSafe, SteerRoutes, SteerSids, RulesFor;
    assert RoutesIn(st, t) == RoutesIn(filled, t);
    forall i | n <= i < |trace|
      ensures WhileSteering(cfg, before, trace[i], f, t, e)
    {
      if i < |trace0| {
        assert trace[i] == trace0[i];
      } else {
        assert forall u :: RoutesIn(trace[i], u) == RoutesIn(filled, u);
        hide RoutesIn, Ready;
        QuietIsSteering(cfg, before, trace[i], f, t, e);
      }
    }
  }

  lemma PrunedIsSteering(cfg: Config, before: State, st1: State, st: State, trace1: seq<State>, trace: seq<State>,
                         n: nat, f: nat, t: Table, e: Steered, doomed: Dest -> bool)
    requires DesiredEncodable(f, e)
    requires SteeringSince(cfg, before, trace1, n, f, t, e) && trace1 <= trace && Quiet(cfg, before, st1, t)
    requires PruneTraced(cfg, t, st1, trace, |trace1|, doomed) && TablePruned(t, st1, st, doomed)
    requires VrfsSafe(cfg, st1) ==> VrfsSafe(cfg, st)
    ensures SteeringSince(cfg, before, trace, n, f, t, e) && Quiet(cfg, before, st, t)
  {
    hide VrfsSafe, RoutesIn, Ready;
    forall i | n <= i < |trace|
      ensures WhileSteering(cfg, before, trace[i], f, t, e)
    {
      if i < |trace1| {
        assert trace[i] == trace1[i];
      } else {
        QuietIsSteering(cfg, before, trace[i], f, t, e);
      }
    }
  }

  // The table just before its rules go in.
  ghost predicate Prepared(cfg: Config, before: State, ensured: State, pruned: State, f: nat, t: Table, e: Steered,
                           have: Selectors, prune: bool, wanted: set<Dest>)
    requires DesiredEncodable(f, e)
  {
    && have == SelectorsOf(before, f, t) && wanted == SteerRoutes(cfg, f, e).Keys
    && Quiet(cfg, before, pruned, t) && Ready(cfg, ensured, f, t, e)
    && RoutesIn(ensured, t) == RoutesIn(before, t) + SteerRoutes(cfg, f, e)
    && ensured.sidRules == before.sidRules + RulesFor(f, SteerSids(cfg, f, e)) && ensured.steerRules == before.steerRules
    && if prune then
         TablePruned(t, ensured.(steerRules := before.steerRules - OnTable(have - Wanting(e), t)), pruned, (d: Dest) => d !in wanted)
       else pruned == ensured
  }

  lemma AboutToOpen(cfg: Config, before: State, ensured: State, pruned: State, f: nat, t: Table, e: Steered,
                    have: Selectors, prune: bool, wanted: set<Dest>)
    requires DesiredEncodable(f, e) && e.iif.f == f && Prepared(cfg, before, ensured, pruned, f, t, e, have, prune, wanted)
    ensures Open(cfg, before, pruned, f, t, e) && OnTable(Wanting(e) - have, t) <= SteerRulesOf(e, t)
  {
    SteerRulesOnly(cfg, ensured, before.steerRules - OnTable(have - Wanting(e), t));
    hide VrfsSafe, RoutesIn, SteerRoutes, SteerSids, RulesFor;
  }

  lemma Opened(cfg: Config, before: State, ensured: State, pruned: State, st: State, f: nat, t: Table, e: Steered,
               have: Selectors, prune: bool, wanted: set<Dest>)
    requires DesiredEncodable(f, e) && e.iif.f == f && Prepared(cfg, before, ensured, pruned, f, t, e, have, prune, wanted)
    requires st == pruned.(steerRules := pruned.steerRules + OnTable(Wanting(e) - have, t))
    requires Open(cfg, before, st, f, t, e)
    ensures IsSteered(cfg, before, st, f, t, e, prune) && WhileSteering(cfg, before, st, f, t, e)
  {
    RulesAfter(before, f, t, e, have, prune);
    SteerRulesOnly(cfg, pruned, st.steerRules);
    var cut := ensured.(steerRules := before.steerRules - OnTable(have - Wanting(e), t));
    SteerRulesOnly(cfg, ensured, cut.steerRules);
    hide VrfsSafe, SteerRoutes, SteerSids, RulesFor, Ready, SelectorsOf, OnTable, SteerRulesOf, Wanting, RoutesIn, SameElsewhere, Quiet;
    if prune {
      KeptExactly(RoutesIn(before, t), SteerRoutes(cfg, f, e), wanted);
    }
  }

  lemma KeptExactly(a: map<Dest, EncapRoute>, b: map<Dest, EncapRoute>, wanted: set<Dest>)
    requires wanted == b.Keys
    ensures Kept(a + b, (d: Dest) => d !in wanted) == map[] + b
  {
  }

  lemma OnTableHolds(selectors: Selectors, t: Table, r: SteerRule)
    ensures r in OnTable(selectors, t) <==> r.table == t && (r.prefix, r.iif) in selectors
  {
    assert r == SteerRule(r.prefix, r.iif, r.table);
  }

  lemma SelectorsHold(st: State, f: nat, t: Table, p: Dest, iif: Gateway)
    ensures (p, iif) in SelectorsOf(st, f, t) <==> iif.f == f && SteerRule(p, iif, t) in st.steerRules
  {
    if iif.f == f && SteerRule(p, iif, t) in st.steerRules {
      var r := SteerRule(p, iif, t);
      assert (r.prefix, r.iif) in SelectorsOf(st, f, t);
    }
  }

  lemma WantedRulesHold(e: Steered, t: Table, r: SteerRule)
    ensures (r.prefix, r.iif) in Wanting(e) <==> r.prefix in e.prefixes && r.iif == e.iif
    ensures r in SteerRulesOf(e, t) <==> r.table == t && (r.prefix, r.iif) in Wanting(e)
  {
    assert r == SteerRule(r.prefix, r.iif, r.table);
  }

  lemma RulesAfter(before: State, f: nat, t: Table, e: Steered, have: Selectors, prune: bool)
    requires have == SelectorsOf(before, f, t) && e.iif.f == f
    ensures prune ==>
              before.steerRules - OnTable(have - Wanting(e), t) + OnTable(Wanting(e) - have, t)
              == (set r | r in before.steerRules && !(r.table == t && r.iif.f == f)) + SteerRulesOf(e, t)
    ensures before.steerRules + OnTable(Wanting(e) - have, t) == before.steerRules + SteerRulesOf(e, t)
  {
    var more, less := OnTable(Wanting(e) - have, t), OnTable(have - Wanting(e), t);
    forall r: SteerRule
      ensures r in more <==> r in SteerRulesOf(e, t) && r !in before.steerRules
      ensures r in less <==> r in before.steerRules && r.table == t && r.iif.f == f && r !in SteerRulesOf(e, t)
      ensures r in SteerRulesOf(e, t) ==> r.table == t && r.iif.f == f
    {
      OnTableHolds(Wanting(e) - have, t, r);
      OnTableHolds(have - Wanting(e), t, r);
      SelectorsHold(before, f, t, r.prefix, r.iif);
      WantedRulesHold(e, t, r);
      assert r == SteerRule(r.prefix, r.iif, r.table);
    }
    hide OnTable, Wanting, SelectorsOf, SteerRulesOf;
  }

  // ------------------------------------------------------------------
  // All the VMs of a domain
  // ------------------------------------------------------------------
  ghost predicate DesiredOk(f: nat, desired: Desired) {
    forall p | p in desired :: DesiredEncodable(f, desired[p]) && desired[p].iif.f == f
  }

  // Steer rules use steer tables, and no table serves two domains.
  ghost predicate SteerRulesOk(cfg: Config, st: State) {
    && (forall r | r in st.steerRules :: IsSteerTable(cfg, r.table))
    && forall r, s | r in st.steerRules && s in st.steerRules && r.table == s.table :: r.iif.f == s.iif.f
  }

  // A table no rule used at st0 has rules only once it is ready for the VM they are of.
  ghost predicate NewTablesReady(cfg: Config, st0: State, st: State, f: nat, desired: Desired)
    requires DesiredOk(f, desired)
  {
    forall r | r in st.steerRules && r.table !in UsedTables(st0) :: RuleIsReady(cfg, st, f, desired, r)
  }

  ghost predicate RuleIsReady(cfg: Config, st: State, f: nat, desired: Desired, r: SteerRule)
    requires DesiredOk(f, desired)
  {
    exists p :: p in desired && r in SteerRulesOf(desired[p], r.table) && Ready(cfg, st, f, r.table, desired[p])
  }

  ghost function AllSteerSids(cfg: Config, f: nat, desired: Desired, vms: set<PortId>): set<Address>
    requires DesiredOk(f, desired) && vms <= desired.Keys
  {
    set p, a | p in vms && a in SteerSids(cfg, f, desired[p]) :: a
  }

  ghost predicate OnTableOf(claimed: Claims, vms: set<PortId>, t: Table) {
    exists p :: p in vms && p in claimed && claimed[p] == t
  }

  ghost predicate OwnRule(desired: Desired, claimed: Claims, vms: set<PortId>, r: SteerRule) {
    exists p :: p in vms && p in claimed && p in desired && r in SteerRulesOf(desired[p], claimed[p])
  }

  // The kernel once the VMs in `vms` are steered.
  ghost predicate AllSteered(cfg: Config, st0: State, st: State, f: nat, desired: Desired, claimed: Claims,
                             vms: set<PortId>, prune: bool)
    requires DesiredOk(f, desired) && vms <= claimed.Keys <= desired.Keys
  {
    && (forall p | p in vms ::
          RoutesIn(st, claimed[p]) == (if prune then map[] else RoutesIn(st0, claimed[p])) + SteerRoutes(cfg, f, desired[p]))
    && (forall t | !OnTableOf(claimed, vms, t) :: RoutesIn(st, t) == RoutesIn(st0, t))
    && st.sidRules == st0.sidRules + RulesFor(f, AllSteerSids(cfg, f, desired, vms))
    && (forall r :: r in st.steerRules <==>
          || (r in st0.steerRules && !(prune && r.iif.f == f && OnTableOf(claimed, vms, r.table)))
          || OwnRule(desired, claimed, vms, r))
  }

  // A claim: injective, and on a table of the domain itself or one no rule uses.
  ghost predicate ClaimsOk(cfg: Config, st0: State, f: nat, desired: Desired, claimed: Claims) {
    && claimed.Keys <= desired.Keys && Injective(claimed)
    && forall p | p in claimed :: IsSteerTable(cfg, claimed[p])
         && (claimed[p] !in UsedTables(st0) || claimed[p] in OwnTables(st0, f))
  }

  // ------------------------------------------------------------------
  // The loop over the VMs
  // ------------------------------------------------------------------
  ghost predicate SteerTraced(cfg: Config, st0: State, trace: seq<State>, n: nat, f: nat, desired: Desired)
    requires DesiredOk(f, desired)
  {
    n <= |trace| && forall i | n <= i < |trace| ::
      NewTablesReady(cfg, st0, trace[i], f, desired) && (VrfsSafe(cfg, st0) ==> VrfsSafe(cfg, trace[i]))
  }

  ghost predicate SteerLoop(cfg: Config, st0: State, st: State, trace: seq<State>, n: nat, f: nat, desired: Desired,
                            claimed: Claims, vms: set<PortId>, prune: bool)
    requires DesiredOk(f, desired)
  {
    && ClaimsOk(cfg, st0, f, desired, claimed) && vms <= claimed.Keys
    && AllSteered(cfg, st0, st, f, desired, claimed, vms, prune)
    && NewTablesReady(cfg, st0, st, f, desired) && (VrfsSafe(cfg, st0) ==> VrfsSafe(cfg, st))
    && SteerTraced(cfg, st0, trace, n, f, desired)
  }

  lemma SteerLoopStarts(cfg: Config, st: State, trace: seq<State>, f: nat, desired: Desired, claimed: Claims, prune: bool)
    requires DesiredOk(f, desired) && ClaimsOk(cfg, st, f, desired, claimed)
    ensures SteerLoop(cfg, st, st, trace, |trace|, f, desired, claimed, {}, prune)
  {
    hide RoutesIn, VrfsSafe, SteerRoutes, SteerSids, Ready, ClaimsOk;
    assert forall r | r in st.steerRules :: r.table in UsedTables(st);
    assert AllSteerSids(cfg, f, desired, {}) == {};
    assert RulesFor(f, {}) == {};
  }

  // No other VM's rules are on a table still to be steered into.
  lemma UnsteeredTable(cfg: Config, st0: State, st: State, f: nat, desired: Desired, claimed: Claims,
                       vms: set<PortId>, prune: bool, p: PortId)
    requires DesiredOk(f, desired) && ClaimsOk(cfg, st0, f, desired, claimed) && vms <= claimed.Keys
    requires AllSteered(cfg, st0, st, f, desired, claimed, vms, prune)
    requires p in claimed && p !in vms
    ensures forall r: SteerRule | r.table == claimed[p] :: r in st.steerRules <==> r in st0.steerRules
    ensures SelectorsOf(st, f, claimed[p]) == SelectorsOf(st0, f, claimed[p])
    ensures !OnTableOf(claimed, vms, claimed[p])
  {
    var t := claimed[p];
    assert !OnTableOf(claimed, vms, t);
    forall r: SteerRule | r.table == t
      ensures r in st.steerRules <==> r in st0.steerRules
    {
      OwnRuleIsOnTable(desired, claimed, vms, r);
    }
    forall x
      ensures x in SelectorsOf(st, f, t) <==> x in SelectorsOf(st0, f, t)
    {
      SelectorsHold(st, f, t, x.0, x.1);
      SelectorsHold(st0, f, t, x.0, x.1);
    }
  }

  lemma OwnRuleIsOnTable(desired: Desired, claimed: Claims, vms: set<PortId>, r: SteerRule)
    ensures OwnRule(desired, claimed, vms, r) ==> OnTableOf(claimed, vms, r.table)
  {
    if OwnRule(desired, claimed, vms, r) {
      var q :| q in vms && q in claimed && q in desired && r in SteerRulesOf(desired[q], claimed[q]);
      WantedRulesHold(desired[q], claimed[q], r);
    }
  }

  // One more VM steered.
  lemma SteerLoopStep(cfg: Config, st0: State, before: State, st: State, trace0: seq<State>, trace: seq<State>, n: nat,
                      f: nat, desired: Desired, claimed: Claims, vms: set<PortId>, prune: bool, p: PortId)
    requires DesiredOk(f, desired)
    requires SteerLoop(cfg, st0, before, trace0, n, f, desired, claimed, vms, prune)
    requires p in claimed && p !in vms && trace0 <= trace
    requires IsSteered(cfg, before, st, f, claimed[p], desired[p], prune)
    requires WhileSteering(cfg, before, st, f, claimed[p], desired[p])
    requires SteeringSince(cfg, before, trace, |trace0|, f, claimed[p], desired[p])
    ensures SteerLoop(cfg, st0, st, trace, n, f, desired, claimed, vms + {p}, prune)
  {
    hide AllSteered, IsSteered, NewTablesReady, DesiredOk, ClaimsOk, WhileSteering, VrfsSafe;
    var t := claimed[p];
    UnsteeredTable(cfg, st0, before, f, desired, claimed, vms, prune, p);
    SteeredNext(cfg, st0, before, st, f, desired, claimed, vms, prune, p);
    NotOnTable(cfg, st0, f, desired, claimed, vms, p);
    hide UsedTables, OnTableOf, SelectorsOf;
    StaysReady(cfg, st0, before, st, f, desired, t, p);
    forall i | n <= i < |trace|
      ensures NewTablesReady(cfg, st0, trace[i], f, desired)
      ensures VrfsSafe(cfg, st0) ==> VrfsSafe(cfg, trace[i])
    {
      if i < |trace0| {
        assert trace[i] == trace0[i];
      } else {
        StaysReady(cfg, st0, before, trace[i], f, desired, t, p);
      }
    }
  }

  // Whatever state steering p into t passes through, new tables stay ready.
  lemma StaysReady(cfg: Config, st0: State, before: State, s: State, f: nat, desired: Desired, t: Table, p: PortId)
    requires DesiredOk(f, desired) && p in desired
    requires NewTablesReady(cfg, st0, before, f, desired)
    requires forall r: SteerRule | r.table == t :: r in before.steerRules ==> r in st0.steerRules
    requires WhileSteering(cfg, before, s, f, t, desired[p])
    ensures NewTablesReady(cfg, st0, s, f, desired)
    ensures VrfsSafe(cfg, before) ==> VrfsSafe(cfg, s)
  {
    hide RoutesIn, VrfsSafe, SteerRoutes, SteerSids;
    forall r | r in s.steerRules && r.table !in UsedTables(st0)
      ensures RuleIsReady(cfg, s, f, desired, r)
    {
      if r in before.steerRules {
        assert RuleIsReady(cfg, before, f, desired, r);
        assert r.table != t;
        StillReady(cfg, before, s, f, desired, t, r);
      } else {
        WantedRulesHold(desired[p], t, r);
        assert Ready(cfg, s, f, r.table, desired[p]);
      }
    }
  }

  lemma StillReady(cfg: Config, before: State, s: State, f: nat, desired: Desired, t: Table, r: SteerRule)
    requires DesiredOk(f, desired) && RuleIsReady(cfg, before, f, desired, r) && r.table != t
    requires SameElsewhere(before, s, t) && before.sidRules <= s.sidRules
    ensures RuleIsReady(cfg, s, f, desired, r)
  {
    hide RoutesIn, SteerRoutes, SteerSids;
    var p :| p in desired && r in SteerRulesOf(desired[p], r.table) && Ready(cfg, before, f, r.table, desired[p]);
    assert RoutesIn(s, r.table) == RoutesIn(before, r.table);
    assert Ready(cfg, s, f, r.table, desired[p]);
  }

  lemma SteeredNext(cfg: Config, st0: State, before: State, st: State, f: nat, desired: Desired, claimed: Claims,
                    vms: set<PortId>, prune: bool, p: PortId)
    requires DesiredOk(f, desired) && ClaimsOk(cfg, st0, f, desired, claimed) && vms <= claimed.Keys
    requires AllSteered(cfg, st0, before, f, desired, claimed, vms, prune)
    requires p in claimed && p !in vms
    requires IsSteered(cfg, before, st, f, claimed[p], desired[p], prune)
    ensures AllSteered(cfg, st0, st, f, desired, claimed, vms + {p}, prune)
  {
    hide RoutesIn, SteerRoutes, SteerSids, SteerRulesOf, OnTableOf, OwnRule, SelectorsOf, AllSteerSids, RulesFor, Injective, ClaimsOk;
    NotOnTable(cfg, st0, f, desired, claimed, vms, p);
    SidsStep(cfg, f, desired, vms, p);
    RulesStep(cfg, st0, before, st, f, desired, claimed, vms, prune, p);
    RoutesStep(cfg, st0, before, st, f, desired, claimed, vms, prune, p);
    SidRulesStep(cfg, st0, before, st, f, desired, claimed, vms, prune, p);
    hide IsSteered, DesiredOk;
  }

  lemma SidRulesStep(cfg: Config, st0: State, before: State, st: State, f: nat, desired: Desired, claimed: Claims,
                     vms: set<PortId>, prune: bool, p: PortId)
    requires DesiredOk(f, desired) && p in claimed && vms <= claimed.Keys <= desired.Keys
    requires before.sidRules == st0.sidRules + RulesFor(f, AllSteerSids(cfg, f, desired, vms))
    requires IsSteered(cfg, before, st, f, claimed[p], desired[p], prune)
    ensures st.sidRules == st0.sidRules + RulesFor(f, AllSteerSids(cfg, f, desired, vms + {p}))
  {
    SidsStep(cfg, f, desired, vms, p);
    hide RoutesIn, SteerRoutes, SteerSids, SteerRulesOf, AllSteerSids, RulesFor, DesiredOk;
  }

  lemma NotOnTable(cfg: Config, st0: State, f: nat, desired: Desired, claimed: Claims, vms: set<PortId>, p: PortId)
    requires ClaimsOk(cfg, st0, f, desired, claimed) && p in claimed && p !in vms
    ensures !OnTableOf(claimed, vms, claimed[p]) && claimed.Keys <= desired.Keys
  {
  }

  lemma OnTableStep(claimed: Claims, vms: set<PortId>, p: PortId)
    requires p in claimed
    ensures forall t :: OnTableOf(claimed, vms + {p}, t) <==> OnTableOf(claimed, vms, t) || t == claimed[p]
  {
    forall t
      ensures OnTableOf(claimed, vms + {p}, t) <==> OnTableOf(claimed, vms, t) || t == claimed[p]
    {
      if OnTableOf(claimed, vms, t) {
        var q :| q in vms && q in claimed && claimed[q] == t;
        assert q in vms + {p};
      }
      if t == claimed[p] {
        assert p in vms + {p};
      }
    }
  }

  lemma SidsStep(cfg: Config, f: nat, desired: Desired, vms: set<PortId>, p: PortId)
    requires DesiredOk(f, desired) && vms <= desired.Keys && p in desired
    ensures RulesFor(f, AllSteerSids(cfg, f, desired, vms + {p}))
         == RulesFor(f, AllSteerSids(cfg, f, desired, vms)) + RulesFor(f, SteerSids(cfg, f, desired[p]))
  {
    hide SteerSids;
    assert AllSteerSids(cfg, f, desired, vms + {p}) == AllSteerSids(cfg, f, desired, vms) + SteerSids(cfg, f, desired[p]);
  }

  lemma RulesStep(cfg: Config, st0: State, before: State, st: State, f: nat, desired: Desired, claimed: Claims,
                  vms: set<PortId>, prune: bool, p: PortId)
    requires DesiredOk(f, desired) && ClaimsOk(cfg, st0, f, desired, claimed) && vms <= claimed.Keys
    requires AllSteered(cfg, st0, before, f, desired, claimed, vms, prune)
    requires p in claimed && p !in vms
    requires IsSteered(cfg, before, st, f, claimed[p], desired[p], prune)
    ensures forall r :: r in st.steerRules <==>
          || (r in st0.steerRules && !(prune && r.iif.f == f && OnTableOf(claimed, vms + {p}, r.table)))
          || OwnRule(desired, claimed, vms + {p}, r)
  {
    UnsteeredTable(cfg, st0, before, f, desired, claimed, vms, prune, p);
    OnTableStep(claimed, vms, p);
    hide RoutesIn, SteerRoutes, SteerSids, SelectorsOf, Injective;
    forall r
      ensures OwnRule(desired, claimed, vms + {p}, r) <==>
                OwnRule(desired, claimed, vms, r) || r in SteerRulesOf(desired[p], claimed[p])
    {
      OwnRuleStep(desired, claimed, vms, p, r);
    }
    hide OwnRule, OnTableOf, SteerRulesOf;
    forall r
      ensures r in st.steerRules <==>
          || (r in st0.steerRules && !(prune && r.iif.f == f && OnTableOf(claimed, vms + {p}, r.table)))
          || OwnRule(desired, claimed, vms + {p}, r)
    {
      if r.table == claimed[p] {
        assert r in before.steerRules <==> r in st0.steerRules;
        OwnRuleIsOnTable(desired, claimed, vms, r);
      }
    }
  }

  lemma OwnRuleStep(desired: Desired, claimed: Claims, vms: set<PortId>, p: PortId, r: SteerRule)
    requires p in claimed && p in desired
    ensures OwnRule(desired, claimed, vms + {p}, r) <==>
              OwnRule(desired, claimed, vms, r) || r in SteerRulesOf(desired[p], claimed[p])
  {
    hide SteerRulesOf;
    if OwnRule(desired, claimed, vms, r) {
      var q :| q in vms && q in claimed && q in desired && r in SteerRulesOf(desired[q], claimed[q]);
      assert q in vms + {p};
    }
    if r in SteerRulesOf(desired[p], claimed[p]) {
      assert p in vms + {p};
    }
  }

  lemma RoutesStep(cfg: Config, st0: State, before: State, st: State, f: nat, desired: Desired, claimed: Claims,
                   vms: set<PortId>, prune: bool, p: PortId)
    requires DesiredOk(f, desired) && ClaimsOk(cfg, st0, f, desired, claimed) && vms <= claimed.Keys
    requires AllSteered(cfg, st0, before, f, desired, claimed, vms, prune)
    requires p in claimed && p !in vms && !OnTableOf(claimed, vms, claimed[p])
    requires IsSteered(cfg, before, st, f, claimed[p], desired[p], prune)
    ensures forall q | q in vms + {p} ::
          RoutesIn(st, claimed[q]) == (if prune then map[] else RoutesIn(st0, claimed[q])) + SteerRoutes(cfg, f, desired[q])
    ensures forall t | !OnTableOf(claimed, vms + {p}, t) :: RoutesIn(st, t) == RoutesIn(st0, t)
  {
    hide *;
    OnTableStep(claimed, vms, p);
    ClaimsWithin(cfg, st0, f, desired, claimed);
    EachEncodable(f, desired);
    SteeredRoutes(cfg, before, st, f, claimed[p], desired[p], prune);
    AllSteeredRoutes(cfg, st0, before, f, desired, claimed, vms, prune);
    forall q | q in vms + {p}
      ensures RoutesIn(st, claimed[q]) == (if prune then map[] else RoutesIn(st0, claimed[q])) + SteerRoutes(cfg, f, desired[q])
    {
      if q != p {
        OnOwnTable(claimed, vms, q);
      }
    }
  }

  lemma EachEncodable(f: nat, desired: Desired)
    requires DesiredOk(f, desired)
    ensures forall q | q in desired :: DesiredEncodable(f, desired[q])
  {
    hide DesiredEncodable;
  }

  lemma OnOwnTable(claimed: Claims, vms: set<PortId>, q: PortId)
    requires q in vms && q in claimed
    ensures OnTableOf(claimed, vms, claimed[q])
  {
  }

  lemma SteeredRoutes(cfg: Config, before: State, st: State, f: nat, t: Table, e: Steered, prune: bool)
    requires DesiredEncodable(f, e) && IsSteered(cfg, before, st, f, t, e, prune)
    ensures RoutesIn(st, t) == (if prune then map[] else RoutesIn(before, t)) + SteerRoutes(cfg, f, e)
    ensures forall u | u != t :: RoutesIn(st, u) == RoutesIn(before, u)
  {
    hide RoutesIn, SteerRoutes, SteerSids, SteerRulesOf;
  }

  lemma AllSteeredRoutes(cfg: Config, st0: State, st: State, f: nat, desired: Desired, claimed: Claims, vms: set<PortId>, prune: bool)
    requires DesiredOk(f, desired) && vms <= claimed.Keys <= desired.Keys
    requires AllSteered(cfg, st0, st, f, desired, claimed, vms, prune)
    ensures forall p | p in vms ::
          RoutesIn(st, claimed[p]) == (if prune then map[] else RoutesIn(st0, claimed[p])) + SteerRoutes(cfg, f, desired[p])
    ensures forall t | !OnTableOf(claimed, vms, t) :: RoutesIn(st, t) == RoutesIn(st0, t)
  {
    hide RoutesIn, SteerRoutes, AllSteerSids, OwnRule, OnTableOf, DesiredOk;
  }

  // ------------------------------------------------------------------
  // Tables no VM claims any more
  // ------------------------------------------------------------------
  // Only steer rules went.
  ghost predicate RulesShrunk(st0: State, st: State) {
    st == st0.(steerRules := st.steerRules) && st.steerRules <= st0.steerRules
  }

  ghost predicate ShrunkSince(st0: State, trace: seq<State>, n: nat) {
    n <= |trace| && forall i | n <= i < |trace| :: RulesShrunk(st0, trace[i])
  }

  lemma ShrunkOnce(st0: State, st: State, rules: set<SteerRule>)
    requires st == st0.(steerRules := st0.steerRules - rules)
    ensures RulesShrunk(st0, st)
  {
  }

  lemma ShrinkIsSteering(cfg: Config, before: State, st1: State, st: State, trace1: seq<State>, trace: seq<State>,
                         n: nat, f: nat, t: Table, e: Steered)
    requires DesiredEncodable(f, e)
    requires SteeringSince(cfg, before, trace1, n, f, t, e) && trace1 <= trace && Quiet(cfg, before, st1, t)
    requires ShrunkSince(st1, trace, |trace1|) && RulesShrunk(st1, st)
    ensures SteeringSince(cfg, before, trace, n, f, t, e) && Quiet(cfg, before, st, t)
  {
    hide Ready;
    forall s | RulesShrunk(st1, s)
      ensures Quiet(cfg, before, s, t)
    {
      SteerRulesOnly(cfg, st1, s.steerRules);
      hide VrfsSafe, RoutesIn;
    }
    hide Quiet, RulesShrunk;
    forall i | n <= i < |trace|
      ensures WhileSteering(cfg, before, trace[i], f, t, e)
    {
      if i < |trace1| {
        assert trace[i] == trace1[i];
      } else {
        QuietIs(cfg, before, trace[i], f, t, e);
      }
    }
  }

  lemma QuietIs(cfg: Config, before: State, st: State, f: nat, t: Table, e: Steered)
    requires DesiredEncodable(f, e) && Quiet(cfg, before, st, t)
    ensures WhileSteering(cfg, before, st, f, t, e)
  {
    hide VrfsSafe, SameElsewhere, Ready;
  }

  // After the loop, the tables in `dropped` of those no VM claimed are gone.
  ghost predicate Releasing(cfg: Config, st0: State, st: State, trace: seq<State>, n: nat, f: nat, desired: Desired,
                            claimed: Claims, dropped: set<Table>)
    requires DesiredOk(f, desired)
  {
    && ClaimsOk(cfg, st0, f, desired, claimed)
    && (forall t | t in dropped :: t in OwnTables(st0, f) && t !in claimed.Values && RoutesIn(st, t) == map[])
    && (forall p | p in claimed :: RoutesIn(st, claimed[p]) == SteerRoutes(cfg, f, desired[p]))
    && (forall t | t !in claimed.Values && t !in dropped :: RoutesIn(st, t) == RoutesIn(st0, t))
    && st.sidRules == st0.sidRules + RulesFor(f, AllSteerSids(cfg, f, desired, claimed.Keys))
    && (forall r :: r in st.steerRules <==>
          || (r in st0.steerRules && !(r.iif.f == f && (r.table in claimed.Values || r.table in dropped)))
          || OwnRule(desired, claimed, claimed.Keys, r))
    && NewTablesReady(cfg, st0, st, f, desired) && (VrfsSafe(cfg, st0) ==> VrfsSafe(cfg, st))
    && SteerTraced(cfg, st0, trace, n, f, desired)
  }

  lemma ReleaseStarts(cfg: Config, st0: State, st: State, trace: seq<State>, n: nat, f: nat, desired: Desired,
                      claimed: Claims)
    requires DesiredOk(f, desired)
    requires SteerLoop(cfg, st0, st, trace, n, f, desired, claimed, claimed.Keys, true)
    ensures Releasing(cfg, st0, st, trace, n, f, desired, claimed, {})
  {
    hide RoutesIn, SteerRoutes, SteerSids, RulesFor, AllSteerSids, OwnRule, NewTablesReady, SteerTraced, VrfsSafe, ClaimsOk;
    AllOnTables(claimed);
    ClaimsWithin(cfg, st0, f, desired, claimed);
    StartRoutes(cfg, st0, st, f, desired, claimed);
    hide OnTableOf, DesiredOk;
  }

  lemma AllOnTables(claimed: Claims)
    ensures forall t :: OnTableOf(claimed, claimed.Keys, t) <==> t in claimed.Values
  {
    forall t
      ensures OnTableOf(claimed, claimed.Keys, t) <==> t in claimed.Values
    {
    }
  }

  lemma StartRoutes(cfg: Config, st0: State, st: State, f: nat, desired: Desired, claimed: Claims)
    requires DesiredOk(f, desired) && claimed.Keys <= desired.Keys
    requires AllSteered(cfg, st0, st, f, desired, claimed, claimed.Keys, true)
    ensures forall p | p in claimed :: RoutesIn(st, claimed[p]) == SteerRoutes(cfg, f, desired[p])
    ensures forall t | t !in claimed.Values :: RoutesIn(st, t) == RoutesIn(st0, t)
  {
    AllOnTables(claimed);
    hide RoutesIn, SteerRoutes, SteerSids, RulesFor, AllSteerSids, OwnRule, DesiredEncodable, OnTableOf;
    forall p | p in claimed
      ensures RoutesIn(st, claimed[p]) == SteerRoutes(cfg, f, desired[p])
    {
      MergeEmpty(SteerRoutes(cfg, f, desired[p]));
    }
  }

  lemma MergeEmpty(m: map<Dest, EncapRoute>)
    ensures map[] + m == m
  {
  }

  // What releasing t passes through and ends in.
  ghost predicate WhileReleasing(cfg: Config, before: State, s: State, t: Table) {
    && (VrfsSafe(cfg, before) ==> VrfsSafe(cfg, s))
    && SameElsewhere(before, s, t) && s.sidRules == before.sidRules && s.steerRules <= before.steerRules
  }

  // The table's routes are as they were, or none of the rules is left.
  ghost predicate RulesBeforeRoutes(before: State, s: State, t: Table, rules: set<SteerRule>) {
    RoutesIn(s, t) == RoutesIn(before, t) || s.steerRules !! rules
  }

  lemma ReleasingIs(cfg: Config, before: State, mid: State, s: State, t: Table)
    requires RulesShrunk(before, mid)
    requires s == mid || s == mid.(routes := map k | k in mid.routes && k.0 != t :: mid.routes[k])
    ensures WhileReleasing(cfg, before, s, t)
    ensures s != mid ==> RoutesIn(s, t) == map[]
  {
    SteerRulesOnly(cfg, before, mid.steerRules);
    forall u | u != t
      ensures RoutesIn(s, u) == RoutesIn(mid, u)
    {
    }
  }

  lemma FlushEmpties(st: State, t: Table)
    ensures RoutesIn(st.(routes := map k | k in st.routes && k.0 != t :: st.routes[k]), t) == map[]
  {
  }

  lemma ReleaseStep(cfg: Config, st0: State, before: State, st: State, trace0: seq<State>, trace: seq<State>, n: nat,
                    f: nat, desired: Desired, claimed: Claims, dropped: set<Table>, t: Table)
    requires DesiredOk(f, desired)
    requires Releasing(cfg, st0, before, trace0, n, f, desired, claimed, dropped)
    requires t in OwnTables(st0, f) && t !in claimed.Values && t !in dropped
    requires trace0 <= trace && forall i | |trace0| <= i < |trace| :: WhileReleasing(cfg, before, trace[i], t)
    requires WhileReleasing(cfg, before, st, t) && RoutesIn(st, t) == map[]
    requires st.steerRules == before.steerRules - OnTable(SelectorsOf(st0, f, t), t)
    ensures Releasing(cfg, st0, st, trace, n, f, desired, claimed, dropped + {t})
  {
    hide RoutesIn, SteerRoutes, SteerSids, RulesFor, AllSteerSids, VrfsSafe;
    assert t in UsedTables(st0);
    forall s | WhileReleasing(cfg, before, s, t)
      ensures NewTablesReady(cfg, st0, s, f, desired)
    {
      ReleaseKeepsReady(cfg, st0, before, s, f, desired, t);
    }
    ReleasedRules(cfg, st0, before, st, f, desired, claimed, dropped, t);
    hide NewTablesReady, OwnRule, OwnTables, OnTable, SelectorsOf, UsedTables, SameElsewhere;
    forall p | p in claimed
      ensures claimed[p] != t
    {
      assert claimed[p] in claimed.Values;
    }
    ReleasedRoutes(cfg, st0, before, st, f, desired, claimed, dropped, t);
    ReleasedTrace(cfg, st0, before, trace0, trace, n, f, desired, t);
  }

  lemma ReleasedTrace(cfg: Config, st0: State, before: State, trace0: seq<State>, trace: seq<State>, n: nat,
                      f: nat, desired: Desired, t: Table)
    requires DesiredOk(f, desired) && SteerTraced(cfg, st0, trace0, n, f, desired) && trace0 <= trace
    requires VrfsSafe(cfg, st0) ==> VrfsSafe(cfg, before)
    requires forall i | |trace0| <= i < |trace| :: WhileReleasing(cfg, before, trace[i], t)
    requires forall s | WhileReleasing(cfg, before, s, t) :: NewTablesReady(cfg, st0, s, f, desired)
    ensures SteerTraced(cfg, st0, trace, n, f, desired)
  {
    hide NewTablesReady, VrfsSafe, SameElsewhere;
    forall i | n <= i < |trace|
      ensures NewTablesReady(cfg, st0, trace[i], f, desired) && (VrfsSafe(cfg, st0) ==> VrfsSafe(cfg, trace[i]))
    {
      if i < |trace0| {
        assert trace[i] == trace0[i];
      }
    }
  }

  lemma ReleasedRoutes(cfg: Config, st0: State, before: State, st: State, f: nat, desired: Desired, claimed: Claims,
                       dropped: set<Table>, t: Table)
    requires DesiredOk(f, desired) && claimed.Keys <= desired.Keys
    requires SameElsewhere(before, st, t) && RoutesIn(st, t) == map[]
    requires forall u | u in dropped :: RoutesIn(before, u) == map[]
    requires forall p | p in claimed :: claimed[p] != t && RoutesIn(before, claimed[p]) == SteerRoutes(cfg, f, desired[p])
    requires forall u | u !in claimed.Values && u !in dropped :: RoutesIn(before, u) == RoutesIn(st0, u)
    ensures forall u | u in dropped + {t} :: RoutesIn(st, u) == map[]
    ensures forall p | p in claimed :: RoutesIn(st, claimed[p]) == SteerRoutes(cfg, f, desired[p])
    ensures forall u | u !in claimed.Values && u !in dropped + {t} :: RoutesIn(st, u) == RoutesIn(st0, u)
  {
    hide RoutesIn, SteerRoutes, DesiredOk;
  }

  lemma ReleaseKeepsReady(cfg: Config, st0: State, before: State, s: State, f: nat, desired: Desired, t: Table)
    requires DesiredOk(f, desired) && NewTablesReady(cfg, st0, before, f, desired)
    requires WhileReleasing(cfg, before, s, t) && t in UsedTables(st0)
    ensures NewTablesReady(cfg, st0, s, f, desired)
  {
    hide RoutesIn, VrfsSafe, Ready;
    forall r | r in s.steerRules && r.table !in UsedTables(st0)
      ensures RuleIsReady(cfg, s, f, desired, r)
    {
      assert RuleIsReady(cfg, before, f, desired, r);
      StillReady(cfg, before, s, f, desired, t, r);
    }
  }

  lemma ReleasedRules(cfg: Config, st0: State, before: State, st: State, f: nat, desired: Desired, claimed: Claims,
                      dropped: set<Table>, t: Table)
    requires t !in claimed.Values
    requires forall r :: r in before.steerRules <==>
          || (r in st0.steerRules && !(r.iif.f == f && (r.table in claimed.Values || r.table in dropped)))
          || OwnRule(desired, claimed, claimed.Keys, r)
    requires st.steerRules == before.steerRules - OnTable(SelectorsOf(st0, f, t), t)
    ensures forall r :: r in st.steerRules <==>
          || (r in st0.steerRules && !(r.iif.f == f && (r.table in claimed.Values || r.table in dropped + {t})))
          || OwnRule(desired, claimed, claimed.Keys, r)
  {
    forall r
      ensures r in OnTable(SelectorsOf(st0, f, t), t) <==> r.table == t && r.iif.f == f && r in st0.steerRules
      ensures r.table == t ==> !OwnRule(desired, claimed, claimed.Keys, r)
    {
      OnTableHolds(SelectorsOf(st0, f, t), t, r);
      SelectorsHold(st0, f, t, r.prefix, r.iif);
      assert r == SteerRule(r.prefix, r.iif, r.table);
      OwnRuleIsOnTable(desired, claimed, claimed.Keys, r);
    }
    hide OnTable, SelectorsOf, OwnRule;
  }

  // The steering of a domain after a full sync: every claimed table holds
  // exactly its VM's routes, the domain's other tables are empty, its steer
  // rules are exactly the claimed VMs', and the VRF may reach their SIDs.
  ghost predicate SteeringDone(cfg: Config, st0: State, st: State, f: nat, desired: Desired, claimed: Claims)
    requires DesiredOk(f, desired) && claimed.Keys <= desired.Keys
  {
    && (forall p | p in claimed :: RoutesIn(st, claimed[p]) == SteerRoutes(cfg, f, desired[p]))
    && (forall t | t in OwnTables(st0, f) && t !in claimed.Values :: RoutesIn(st, t) == map[])
    && (forall t | t !in OwnTables(st0, f) && t !in claimed.Values :: RoutesIn(st, t) == RoutesIn(st0, t))
    && st.sidRules == st0.sidRules + RulesFor(f, AllSteerSids(cfg, f, desired, claimed.Keys))
    && (forall r :: r in st.steerRules <==>
          (r in st0.steerRules && r.iif.f != f) || OwnRule(desired, claimed, claimed.Keys, r))
  }

  lemma ReleaseEnds(cfg: Config, st0: State, st: State, trace: seq<State>, n: nat, f: nat, desired: Desired,
                    claimed: Claims, dropped: set<Table>)
    requires DesiredOk(f, desired)
    requires Releasing(cfg, st0, st, trace, n, f, desired, claimed, dropped)
    requires dropped == OwnTables(st0, f) - claimed.Values
    ensures claimed.Keys <= desired.Keys && SteeringDone(cfg, st0, st, f, desired, claimed)
    ensures SteerTraced(cfg, st0, trace, n, f, desired)
    ensures NewTablesReady(cfg, st0, st, f, desired) && (VrfsSafe(cfg, st0) ==> VrfsSafe(cfg, st))
  {
    forall r | r in st0.steerRules && r.iif.f == f
      ensures r.table in OwnTables(st0, f)
    {
    }
    hide RoutesIn, SteerRoutes, SteerSids, RulesFor, AllSteerSids, VrfsSafe, NewTablesReady, OwnRule, OwnTables;
  }

  lemma DesiredIsOk(cfg: Config, f: nat, locators: Locators, gateways: Gateways, routes: seq<Route>, desired: Desired)
    requires AllEncodable(f, locators) && IsDesired(cfg, locators, gateways, routes, desired)
    requires forall n | n in gateways :: gateways[n].f == f
    ensures DesiredOk(f, desired)
  {
    hide AllEncodable, DesiredEncodable;
    forall p | p in desired
      ensures DesiredEncodable(f, desired[p]) && desired[p].iif.f == f
    {
      assert Lookup(desired, p) == DesiredFor(cfg, locators, gateways, routes, p);
      DesiredIsEncodable(cfg, f, locators, gateways, routes, p);
      DesiredGateway(cfg, f, locators, gateways, routes, p);
    }
  }

  lemma {:induction false} DesiredGateway(cfg: Config, f: nat, locators: Locators, gateways: Gateways,
                                          routes: seq<Route>, p: PortId)
    requires forall n | n in gateways :: gateways[n].f == f
    ensures var e := DesiredFor(cfg, locators, gateways, routes, p); e.Some? ==> e.value.iif.f == f
  {
    if routes != [] {
      DesiredGateway(cfg, f, locators, gateways, routes[..|routes| - 1], p);
    }
  }

  function FreeTables(cfg: Config, st: State): set<Table> {
    set t | SteerBase(cfg) <= t < SteerBase(cfg) + STEER_TABLE_SLOTS && t !in UsedTables(st)
  }

  lemma ClaimedAreOk(cfg: Config, st: State, f: nat, desired: Desired, claimed: Claims)
    requires SteerRulesOk(cfg, st)
    requires claimed.Keys <= desired.Keys && Injective(claimed)
    requires forall p | p in claimed :: claimed[p] in FreeTables(cfg, st) || claimed[p] in TablesOf(st, f)
    ensures ClaimsOk(cfg, st, f, desired, claimed)
  {
    hide SelectorsOf;
    forall p | p in claimed
      ensures IsSteerTable(cfg, claimed[p]) && (claimed[p] !in UsedTables(st) || claimed[p] in OwnTables(st, f))
    {
      if claimed[p] in OwnTables(st, f) {
        var r :| r in st.steerRules && r.iif.f == f && r.table == claimed[p];
      }
    }
  }

  lemma FreeIsDisjoint(cfg: Config, st: State, f: nat)
    ensures FreeTables(cfg, st) !! TablesOf(st, f).Keys
  {
    forall t | t in TablesOf(st, f)
      ensures t in UsedTables(st)
    {
      var r :| r in st.steerRules && r.iif.f == f && r.table == t;
    }
  }

  // No two VMs share a table; a claimed table is no VRF's, and no rule of
  // another domain uses it.
  lemma ClaimedTablesAreOwn(cfg: Config, st: State, f: nat, desired: Desired, claimed: Claims)
    requires SteerRulesOk(cfg, st) && ClaimsOk(cfg, st, f, desired, claimed)
    ensures forall p, q | p in claimed && q in claimed && p != q :: claimed[p] != claimed[q]
    ensures forall p | p in claimed :: IsSteerTable(cfg, claimed[p]) && !IsVrfTable(cfg, claimed[p])
    ensures forall p, r | p in claimed && r in st.steerRules && r.table == claimed[p] :: r.iif.f == f
  {
  }

  lemma ClaimsWithin(cfg: Config, st0: State, f: nat, desired: Desired, claimed: Claims)
    requires ClaimsOk(cfg, st0, f, desired, claimed)
    ensures claimed.Keys <= desired.Keys
  {
  }

  lemma NoSids(cfg: Config, f: nat, desired: Desired)
    requires DesiredOk(f, desired)
    ensures AllSteerSids(cfg, f, desired, {}) == {}
  {
  }

  lemma SidsOfNext(cfg: Config, f: nat, desired: Desired, vms: set<PortId>, p: PortId)
    requires DesiredOk(f, desired) && vms <= desired.Keys && p in desired
    ensures DesiredEncodable(f, desired[p])
    ensures AllSteerSids(cfg, f, desired, vms + {p}) == AllSteerSids(cfg, f, desired, vms) + SteerSids(cfg, f, desired[p])
  {
    hide SteerSids;
  }

  lemma TablesAre(st: State, f: nat, tables: Tables)
    requires tables == TablesOf(st, f)
    ensures tables.Keys == OwnTables(st, f)
    ensures forall t: Table :: (if t in tables then tables[t] else {}) == SelectorsOf(st, f, t)
  {
    forall t: Table
      ensures (if t in tables then tables[t] else {}) == SelectorsOf(st, f, t)
    {
    }
  }

  // What the loop knows of the VM it comes to.
  lemma NextVm(cfg: Config, st0: State, before: State, trace: seq<State>, n: nat, f: nat, desired: Desired,
               claimed: Claims, vms: set<PortId>, prune: bool, p: PortId)
    requires DesiredOk(f, desired) && p in claimed && p !in vms
    requires SteerLoop(cfg, st0, before, trace, n, f, desired, claimed, vms, prune)
    ensures p in desired && DesiredEncodable(f, desired[p]) && desired[p].iif.f == f
    ensures IsSteerTable(cfg, claimed[p])
    ensures SelectorsOf(before, f, claimed[p]) == SelectorsOf(st0, f, claimed[p])
  {
    hide AllSteered, NewTablesReady, SteerTraced, VrfsSafe, SelectorsOf;
    UnsteeredTable(cfg, st0, before, f, desired, claimed, vms, prune, p);
  }

  lemma SteerLoopEnds(cfg: Config, st0: State, st: State, trace: seq<State>, n: nat, f: nat, desired: Desired,
                      claimed: Claims, prune: bool)
    requires DesiredOk(f, desired) && SteerLoop(cfg, st0, st, trace, n, f, desired, claimed, claimed.Keys, prune)
    ensures claimed.Keys <= desired.Keys
    ensures AllSteered(cfg, st0, st, f, desired, claimed, claimed.Keys, prune)
    ensures NewTablesReady(cfg, st0, st, f, desired) && (VrfsSafe(cfg, st0) ==> VrfsSafe(cfg, st))
    ensures SteerTraced(cfg, st0, trace, n, f, desired)
  {
    hide AllSteered, NewTablesReady, SteerTraced, VrfsSafe;
  }
}
