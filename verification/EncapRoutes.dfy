// The encap routes a payload asks of a node, as values: what a VRF table and
// its SID rules should hold, and when a kernel state is safe.

module EncapRoutes {
  import opened Wrappers
  import opened Csid
  import opened Sid
  import opened Payload
  import opened Kernel

  const STEER_TABLE_OFFSET: nat := 0x10000

  // What a node encodes with: its host name, the SID others name it by as a
  // waypoint, the encoding, the first VRF table, whether the edge filter
  // covers an address, and the device the underlay reaches one by.
  datatype Config = Config(local: Host, own: Address, usid: bool, base: nat,
                           covers: Address -> bool, devOf: Address -> Option<nat>)

  function VrfTable(cfg: Config, f: nat): Table {
    cfg.base + f
  }

  predicate IsVrfTable(cfg: Config, t: Table) {
    cfg.base <= t < cfg.base + STEER_TABLE_OFFSET
  }

  // ------------------------------------------------------------------
  // One encap route
  // ------------------------------------------------------------------
  // The SID rule it needs is its first segment's, unless it is sealed: a
  // transit first segment the edge filter does not cover.
  datatype Encap = Encap(segments: seq<Address>, sealed: bool, dev: Option<nat>)

  ghost predicate Encodable(f: nat, locator: Prefix) {
    SidFor(locator, f).Some?
  }

  ghost function EncapOf(cfg: Config, f: nat, locator: Prefix, transit: seq<Address>): (e: Encap)
    requires Encodable(f, locator)
    ensures e.segments != []
  {
    var t := Trimmed(transit, cfg.own);
    var segments := Encoded(t + [SidFor(locator, f).value], cfg.usid);
    Encap(segments, t != [] && !cfg.covers(segments[0]), cfg.devOf(segments[0]))
  }

  // The list pushed over `transit`, less the node itself in front of it.
  ghost function Pushed(cfg: Config, f: nat, locator: Prefix, transit: seq<Address>): (pushed: seq<Address>)
    requires Encodable(f, locator)
    ensures pushed != []
  {
    Encoded(Trimmed(transit, cfg.own) + [SidFor(locator, f).value], cfg.usid)
  }

  // Nothing is on the way but the node itself.
  ghost predicate IsDirect(cfg: Config, transit: seq<Address>) {
    forall i | 0 <= i < |transit| :: transit[i] == cfg.own
  }

  lemma EncapIs(cfg: Config, f: nat, locator: Prefix, transit: seq<Address>)
    requires Encodable(f, locator)
    ensures var e := EncapOf(cfg, f, locator, transit);
            && e.segments == Pushed(cfg, f, locator, transit)
            && (e.sealed <==> !IsDirect(cfg, transit) && !cfg.covers(e.segments[0]))
            && e.dev == cfg.devOf(e.segments[0])
  {
    var k := TrimmedIsSuffix(transit, cfg.own);
    hide Encoded, SidFor, Trimmed;
  }

  method ComputeEncap(cfg: Config, f: nat, locator: Prefix, transit: seq<Address>) returns (e: Encap)
    requires Encodable(f, locator)
    ensures e == EncapOf(cfg, f, locator, transit)
    ensures e.segments == Pushed(cfg, f, locator, transit)
    ensures e.sealed <==> !IsDirect(cfg, transit) && !cfg.covers(e.segments[0])
    ensures e.dev == cfg.devOf(e.segments[0])
  {
    EncapIs(cfg, f, locator, transit);
    var remote := SidFor(locator, f).value;
    var t := DropLeading(transit, cfg.own);
    var segments := Encode(t + [remote], cfg.usid);
    e := Encap(segments, t != [] && !cfg.covers(segments[0]), cfg.devOf(segments[0]));
  }

  ghost function AsRoute(e: Encap): EncapRoute
    requires e.dev.Some?
  {
    EncapRoute(e.segments, e.dev.value, e.sealed)
  }

  // ------------------------------------------------------------------
  // What a list of routes asks of a domain's VRF on this node
  // ------------------------------------------------------------------
  type Locators = map<Host, Prefix>

  predicate IsRemote(cfg: Config, locators: Locators, r: Route) {
    r.host != cfg.local && r.host in locators
  }

  ghost predicate AllEncodable(f: nat, locators: Locators) {
    forall h | h in locators :: Encodable(f, locators[h])
  }

  ghost function EncapFor(cfg: Config, f: nat, locators: Locators, r: Route): (e: Encap)
    requires AllEncodable(f, locators) && IsRemote(cfg, locators, r)
    ensures e.segments != []
  {
    assert Encodable(f, locators[r.host]);
    EncapOf(cfg, f, locators[r.host], SegmentsFor(r, cfg.local))
  }

  // The prefixes that should have an encap route.
  ghost function Wanted(cfg: Config, locators: Locators, routes: seq<Route>): set<Dest> {
    set i | 0 <= i < |routes| && IsRemote(cfg, locators, routes[i]) :: routes[i].prefix
  }

  // Their routes; of two for one prefix the later holds. A route towards a
  // SID with no underlay device is left out.
  ghost function Installed(cfg: Config, f: nat, locators: Locators, routes: seq<Route>): map<Dest, EncapRoute>
    requires AllEncodable(f, locators)
  {
    if routes == [] then map[]
    else
      var before, r := Installed(cfg, f, locators, routes[..|routes| - 1]), routes[|routes| - 1];
      if IsRemote(cfg, locators, r) && EncapFor(cfg, f, locators, r).dev.Some?
      then before[r.prefix := AsRoute(EncapFor(cfg, f, locators, r))] else before
  }

  // The SIDs the VRF must reach for them.
  ghost function RuleSids(cfg: Config, f: nat, locators: Locators, routes: seq<Route>): set<Address>
    requires AllEncodable(f, locators)
  {
    set i | 0 <= i < |routes| && IsRemote(cfg, locators, routes[i]) && !EncapFor(cfg, f, locators, routes[i]).sealed
      :: EncapFor(cfg, f, locators, routes[i]).segments[0]
  }

  ghost predicate DevicesKnown(cfg: Config, f: nat, locators: Locators, routes: seq<Route>)
    requires AllEncodable(f, locators)
  {
    forall i | 0 <= i < |routes| && IsRemote(cfg, locators, routes[i]) ::
      EncapFor(cfg, f, locators, routes[i]).dev.Some?
  }

  ghost function RulesFor(f: nat, sids: set<Address>): set<(nat, Address)> {
    set a | a in sids :: (f, a)
  }

  // Every unsealed route of a VRF reaches its first segment.
  ghost predicate Reachable(st: State, f: nat, r: EncapRoute) {
    r.segments != [] && (!r.sealed ==> (f, r.segments[0]) in st.sidRules)
  }

  ghost predicate VrfsSafe(cfg: Config, st: State) {
    forall k | k in st.routes && IsVrfTable(cfg, k.0) :: Reachable(st, k.0 - cfg.base, st.routes[k])
  }

  ghost predicate SafeSince(cfg: Config, trace: seq<State>, from_: nat) {
    forall i | from_ <= i < |trace| :: VrfsSafe(cfg, trace[i])
  }

  lemma InstalledFacts(cfg: Config, f: nat, locators: Locators, routes: seq<Route>)
    requires AllEncodable(f, locators)
    ensures Installed(cfg, f, locators, routes).Keys <= Wanted(cfg, locators, routes)
    ensures DevicesKnown(cfg, f, locators, routes) ==>
              Installed(cfg, f, locators, routes).Keys == Wanted(cfg, locators, routes)
    ensures forall d | d in Installed(cfg, f, locators, routes) ::
              var r := Installed(cfg, f, locators, routes)[d];
              r.segments != [] && (!r.sealed ==> r.segments[0] in RuleSids(cfg, f, locators, routes))
  {
    hide *;
    InstalledKeys(cfg, f, locators, routes);
    forall d | d in Installed(cfg, f, locators, routes)
      ensures var r := Installed(cfg, f, locators, routes)[d];
              r.segments != [] && (!r.sealed ==> r.segments[0] in RuleSids(cfg, f, locators, routes))
    {
      InstalledHasRule(cfg, f, locators, routes, d);
    }
  }

  lemma {:induction false} InstalledKeys(cfg: Config, f: nat, locators: Locators, routes: seq<Route>)
    requires AllEncodable(f, locators)
    ensures Installed(cfg, f, locators, routes).Keys <= Wanted(cfg, locators, routes)
    ensures DevicesKnown(cfg, f, locators, routes) ==>
              Installed(cfg, f, locators, routes).Keys == Wanted(cfg, locators, routes)
  {
    if routes != [] {
      var n := |routes| - 1;
      InstalledKeys(cfg, f, locators, routes[..n]);
      WantedStep(cfg, locators, routes, n + 1);
      InstalledStep(cfg, f, locators, routes, n + 1);
      assert routes[..n + 1] == routes;
      KnownPrefix(cfg, f, locators, routes);
      hide *;
    }
  }

  lemma {:induction false} InstalledHasRule(cfg: Config, f: nat, locators: Locators, routes: seq<Route>, d: Dest)
    requires AllEncodable(f, locators) && d in Installed(cfg, f, locators, routes)
    ensures var r := Installed(cfg, f, locators, routes)[d];
            r.segments != [] && (!r.sealed ==> r.segments[0] in RuleSids(cfg, f, locators, routes))
  {
    var n := |routes| - 1;
    RuleSidsStep(cfg, f, locators, routes, n + 1);
    InstalledStep(cfg, f, locators, routes, n + 1);
    assert routes[..n + 1] == routes;
    EncapMeans(cfg, f, locators, routes[n]);
    hide *;
    if d in Installed(cfg, f, locators, routes[..n]) {
      InstalledHasRule(cfg, f, locators, routes[..n], d);
    }
  }

  lemma EncapMeans(cfg: Config, f: nat, locators: Locators, r: Route)
    requires AllEncodable(f, locators)
    ensures IsRemote(cfg, locators, r) ==>
              var e := EncapFor(cfg, f, locators, r);
              e.segments != [] && (e.dev.Some? ==> AsRoute(e).segments == e.segments && AsRoute(e).sealed == e.sealed)
  {
    hide EncapFor, Encodable;
  }

  lemma KnownPrefix(cfg: Config, f: nat, locators: Locators, routes: seq<Route>)
    requires AllEncodable(f, locators) && routes != []
    ensures var last := routes[|routes| - 1];
            DevicesKnown(cfg, f, locators, routes) ==>
              && DevicesKnown(cfg, f, locators, routes[..|routes| - 1])
              && (IsRemote(cfg, locators, last) ==> EncapFor(cfg, f, locators, last).dev.Some?)
  {
    hide EncapFor;
  }

  lemma WantedStep(cfg: Config, locators: Locators, routes: seq<Route>, n: nat)
    requires 0 < n <= |routes|
    ensures Wanted(cfg, locators, routes[..n]) == Wanted(cfg, locators, routes[..n - 1]) +
              (if IsRemote(cfg, locators, routes[n - 1]) then {routes[n - 1].prefix} else {})
  {
    var a, b := routes[..n], routes[..n - 1];
    assert forall i | 0 <= i < n - 1 :: a[i] == b[i];
    assert a[n - 1] == routes[n - 1];
    forall d | d in Wanted(cfg, locators, b)
      ensures d in Wanted(cfg, locators, a)
    {
      var i :| 0 <= i < |b| && IsRemote(cfg, locators, b[i]) && b[i].prefix == d;
      assert a[i].prefix == d;
    }
    if IsRemote(cfg, locators, routes[n - 1]) {
      assert a[n - 1].prefix in Wanted(cfg, locators, a);
    }
  }

  lemma RuleSidsStep(cfg: Config, f: nat, locators: Locators, routes: seq<Route>, n: nat)
    requires AllEncodable(f, locators) && 0 < n <= |routes|
    ensures RuleSids(cfg, f, locators, routes[..n]) == RuleSids(cfg, f, locators, routes[..n - 1]) +
              (if IsRemote(cfg, locators, routes[n - 1]) && !EncapFor(cfg, f, locators, routes[n - 1]).sealed
               then {EncapFor(cfg, f, locators, routes[n - 1]).segments[0]} else {})
  {
    hide EncapFor;
    var a, b := routes[..n], routes[..n - 1];
    assert forall i | 0 <= i < n - 1 :: a[i] == b[i];
    assert a[n - 1] == routes[n - 1];
    forall s | s in RuleSids(cfg, f, locators, b)
      ensures s in RuleSids(cfg, f, locators, a)
    {
      var i :| 0 <= i < |b| && IsRemote(cfg, locators, b[i]) && !EncapFor(cfg, f, locators, b[i]).sealed
            && EncapFor(cfg, f, locators, b[i]).segments[0] == s;
      assert a[i] == b[i];
    }
    if IsRemote(cfg, locators, routes[n - 1]) && !EncapFor(cfg, f, locators, routes[n - 1]).sealed {
      assert EncapFor(cfg, f, locators, a[n - 1]).segments[0] in RuleSids(cfg, f, locators, a);
    }
  }

  // ------------------------------------------------------------------
  // Effects of the atomic steps on the tables
  // ------------------------------------------------------------------
  lemma ReplaceEffect(st: State, t: Table, d: Dest, r: EncapRoute)
    ensures var st' := st.(routes := st.routes[(t, d) := r]);
            && RoutesIn(st', t) == RoutesIn(st, t)[d := r]
            && (forall u | u != t :: RoutesIn(st', u) == RoutesIn(st, u))
  {
    var st' := st.(routes := st.routes[(t, d) := r]);
    ReplacedThere(st, t, d, r);
    SameOutside(st, st', t);
    hide RoutesIn;
  }

  lemma ReplacedThere(st: State, t: Table, d: Dest, r: EncapRoute)
    ensures RoutesIn(st.(routes := st.routes[(t, d) := r]), t) == RoutesIn(st, t)[d := r]
  {
  }

  // States alike outside t have the same routes in every other table.
  lemma SameOutside(st: State, st': State, t: Table)
    requires forall k: (Table, Dest) | k.0 != t :: (k in st.routes <==> k in st'.routes)
    requires forall k: (Table, Dest) | k.0 != t && k in st.routes && k in st'.routes :: st.routes[k] == st'.routes[k]
    ensures forall u | u != t :: RoutesIn(st', u) == RoutesIn(st, u)
  {
    forall u | u != t
      ensures RoutesIn(st', u) == RoutesIn(st, u)
    {
    }
  }

  lemma ReplaceIsSafe(cfg: Config, st: State, t: Table, d: Dest, r: EncapRoute)
    requires VrfsSafe(cfg, st) && (IsVrfTable(cfg, t) ==> Reachable(st, t - cfg.base, r))
    ensures VrfsSafe(cfg, st.(routes := st.routes[(t, d) := r]))
  {
  }

  lemma DeleteEffect(cfg: Config, st: State, t: Table, d: Dest)
    ensures var st' := st.(routes := st.routes - {(t, d)});
            && RoutesIn(st', t) == RoutesIn(st, t) - {d}
            && (forall u | u != t :: RoutesIn(st', u) == RoutesIn(st, u))
            && (VrfsSafe(cfg, st) ==> VrfsSafe(cfg, st'))
  {
    var st' := st.(routes := st.routes - {(t, d)});
    FewerAreSafe(cfg, st, st');
    DroppedThere(st, t, d);
    SameOutside(st, st', t);
    hide RoutesIn, VrfsSafe;
  }

  lemma DroppedThere(st: State, t: Table, d: Dest)
    ensures RoutesIn(st.(routes := st.routes - {(t, d)}), t) == RoutesIn(st, t) - {d}
  {
  }

  lemma FewerAreSafe(cfg: Config, st: State, st': State)
    requires st'.sidRules == st.sidRules && forall k | k in st'.routes :: k in st.routes && st'.routes[k] == st.routes[k]
    ensures VrfsSafe(cfg, st) ==> VrfsSafe(cfg, st')
  {
  }

  lemma RulesGrow(cfg: Config, st: State, more: set<(nat, Address)>)
    ensures var st' := st.(sidRules := st.sidRules + more);
            && (forall u :: RoutesIn(st', u) == RoutesIn(st, u))
            && (VrfsSafe(cfg, st) ==> VrfsSafe(cfg, st'))
  {
  }

  // The VRF of f holds the routes m besides what it held at st0, and may
  // reach `sids` besides what it could; nothing else has changed.
  ghost predicate VrfGrown(cfg: Config, f: nat, st0: State, st: State, m: map<Dest, EncapRoute>, sids: set<Address>) {
    && RoutesIn(st, VrfTable(cfg, f)) == RoutesIn(st0, VrfTable(cfg, f)) + m
    && (forall t | t != VrfTable(cfg, f) :: RoutesIn(st, t) == RoutesIn(st0, t))
    && st.sidRules == st0.sidRules + RulesFor(f, sids)
    && st.steerRules == st0.steerRules
  }

  // No step since `n` left a VRF unsafe or touched a steer rule.
  ghost predicate Traced(cfg: Config, st0: State, st: State, trace: seq<State>, n: nat) {
    && n <= |trace|
    && (VrfsSafe(cfg, st0) ==> VrfsSafe(cfg, st) && SafeSince(cfg, trace, n))
    && forall i | n <= i < |trace| :: trace[i].steerRules == st0.steerRules
  }

  lemma GrownByNothing(cfg: Config, f: nat, st: State, trace: seq<State>)
    ensures VrfGrown(cfg, f, st, st, map[], {}) && Traced(cfg, st, st, trace, |trace|)
  {
    hide RoutesIn, VrfsSafe;
  }

  lemma GrowRules(cfg: Config, f: nat, st0: State, st: State, m: map<Dest, EncapRoute>, sids: set<Address>,
                  more: set<Address>)
    requires VrfGrown(cfg, f, st0, st, m, sids)
    ensures VrfGrown(cfg, f, st0, st.(sidRules := st.sidRules + RulesFor(f, more)), m, sids + more)
  {
    RulesGrow(cfg, st, RulesFor(f, more));
    assert RulesFor(f, sids + more) == RulesFor(f, sids) + RulesFor(f, more);
    hide RoutesIn, VrfsSafe;
  }

  lemma TraceRules(cfg: Config, st0: State, before: State, st: State, trace0: seq<State>, trace: seq<State>,
                   n: nat, f: nat, more: set<Address>)
    requires trace0 <= trace && Traced(cfg, st0, before, trace0, n) && before.steerRules == st0.steerRules
    requires st == before.(sidRules := before.sidRules + RulesFor(f, more))
    requires VrfsSafe(cfg, before) ==> SafeSince(cfg, trace, |trace0|)
    requires forall i | |trace0| <= i < |trace| :: trace[i].steerRules == before.steerRules
    ensures Traced(cfg, st0, st, trace, n)
  {
    RulesGrow(cfg, before, RulesFor(f, more));
    hide VrfsSafe, RoutesIn;
    forall i | n <= i < |trace|
      ensures trace[i].steerRules == st0.steerRules
      ensures VrfsSafe(cfg, st0) ==> VrfsSafe(cfg, trace[i])
    {
      if i < |trace0| {
        assert trace[i] == trace0[i];
      }
    }
  }

  lemma TraceStep(cfg: Config, st0: State, before: State, st: State, trace0: seq<State>, trace: seq<State>, n: nat)
    requires trace == trace0 + [st] && Traced(cfg, st0, before, trace0, n)
    requires VrfsSafe(cfg, before) ==> VrfsSafe(cfg, st)
    requires st.steerRules == st0.steerRules
    ensures Traced(cfg, st0, st, trace, n)
  {
    hide VrfsSafe;
  }

  lemma SidIncluded(e: Encap, sids: set<Address>)
    requires e.segments != []
    ensures e.sealed || e.segments[0] in sids + {e.segments[0]}
  {
  }

  lemma GrowRoutes(cfg: Config, f: nat, st0: State, st: State, m: map<Dest, EncapRoute>, sids: set<Address>, d: Dest,
                   e: Encap)
    requires f < STEER_TABLE_OFFSET && VrfGrown(cfg, f, st0, st, m, sids)
    requires e.dev.Some? && e.segments != [] && (!e.sealed ==> e.segments[0] in sids)
    ensures var st' := st.(routes := st.routes[(VrfTable(cfg, f), d) := AsRoute(e)]);
            VrfGrown(cfg, f, st0, st', m[d := AsRoute(e)], sids) && (VrfsSafe(cfg, st) ==> VrfsSafe(cfg, st'))
  {
    hide RoutesIn, VrfsSafe;
    ReplaceEffect(st, VrfTable(cfg, f), d, AsRoute(e));
    assert RulesFor(f, sids) <= st.sidRules;
    RuleOf(f, sids, e);
    hide RulesFor, AsRoute, VrfGrown;
    if VrfsSafe(cfg, st) {
      ReplaceIsSafe(cfg, st, VrfTable(cfg, f), d, AsRoute(e));
    }
  }

  lemma RuleOf(f: nat, sids: set<Address>, e: Encap)
    requires e.dev.Some? && e.segments != [] && (!e.sealed ==> e.segments[0] in sids)
    ensures forall st: State | RulesFor(f, sids) <= st.sidRules :: Reachable(st, f, AsRoute(e))
  {
  }

  lemma InstalledStep(cfg: Config, f: nat, locators: Locators, routes: seq<Route>, n: nat)
    requires AllEncodable(f, locators) && 0 < n <= |routes|
    ensures var before, r := Installed(cfg, f, locators, routes[..n - 1]), routes[n - 1];
            Installed(cfg, f, locators, routes[..n]) ==
              if IsRemote(cfg, locators, r) && EncapFor(cfg, f, locators, r).dev.Some?
              then before[r.prefix := AsRoute(EncapFor(cfg, f, locators, r))] else before
  {
    hide EncapFor, AllEncodable;
    assert routes[..n][..n - 1] == routes[..n - 1];
  }

  // ------------------------------------------------------------------
  // The route loop
  // ------------------------------------------------------------------
  // The routes seen so far are in, and their SIDs may be reached.
  ghost predicate Installing(cfg: Config, f: nat, locators: Locators, seen: seq<Route>, st0: State, st: State,
                             trace: seq<State>, n: nat, wanted: set<Dest>, sids: set<Address>)
    requires AllEncodable(f, locators)
  {
    && wanted == Wanted(cfg, locators, seen) && sids == RuleSids(cfg, f, locators, seen)
    && VrfGrown(cfg, f, st0, st, Installed(cfg, f, locators, seen), sids)
    && Traced(cfg, st0, st, trace, n)
  }

  lemma InstallStarts(cfg: Config, f: nat, locators: Locators, routes: seq<Route>, st: State, trace: seq<State>)
    requires AllEncodable(f, locators)
    ensures Installing(cfg, f, locators, routes[..0], st, st, trace, |trace|, {}, {})
  {
    GrownByNothing(cfg, f, st, trace);
    assert Wanted(cfg, locators, routes[..0]) == {} && RuleSids(cfg, f, locators, routes[..0]) == {};
    hide VrfGrown, Traced;
  }

  // A route that is not for this VRF leaves everything as it is.
  lemma InstallStep(cfg: Config, f: nat, locators: Locators, routes: seq<Route>, i: nat, st0: State, st: State,
                    trace: seq<State>, n: nat, wanted: set<Dest>, sids: set<Address>)
    requires AllEncodable(f, locators) && i < |routes|
    requires Installing(cfg, f, locators, routes[..i], st0, st, trace, n, wanted, sids)
    ensures VrfGrown(cfg, f, st0, st, Installed(cfg, f, locators, routes[..i]), sids) && Traced(cfg, st0, st, trace, n)
    ensures wanted == Wanted(cfg, locators, routes[..i]) && sids == RuleSids(cfg, f, locators, routes[..i])
    ensures routes[i].host == cfg.local || routes[i].host !in locators ==>
              Installing(cfg, f, locators, routes[..i + 1], st0, st, trace, n, wanted, sids)
  {
    WantedStep(cfg, locators, routes, i + 1);
    RuleSidsStep(cfg, f, locators, routes, i + 1);
    InstalledStep(cfg, f, locators, routes, i + 1);
    hide VrfGrown, Traced, Wanted, RuleSids, Installed, EncapFor, AllEncodable;
  }

  lemma RemoteIs(cfg: Config, f: nat, locators: Locators, r: Route)
    requires AllEncodable(f, locators) && r.host != cfg.local && r.host in locators
    ensures IsRemote(cfg, locators, r) && Encodable(f, locators[r.host])
    ensures EncapFor(cfg, f, locators, r) == EncapOf(cfg, f, locators[r.host], SegmentsFor(r, cfg.local))
  {
    hide EncapOf;
  }

  lemma InstalledNext(cfg: Config, f: nat, locators: Locators, routes: seq<Route>, i: nat, st0: State, st: State,
                      trace: seq<State>, n: nat, wanted: set<Dest>, sids: set<Address>)
    requires AllEncodable(f, locators) && i < |routes| && IsRemote(cfg, locators, routes[i])
    requires wanted == Wanted(cfg, locators, routes[..i]) + {routes[i].prefix}
    requires var e := EncapFor(cfg, f, locators, routes[i]);
             && sids == RuleSids(cfg, f, locators, routes[..i]) + (if e.sealed then {} else {e.segments[0]})
             && VrfGrown(cfg, f, st0, st,
                         if e.dev.Some? then Installed(cfg, f, locators, routes[..i])[routes[i].prefix := AsRoute(e)]
                         else Installed(cfg, f, locators, routes[..i]), sids)
    requires Traced(cfg, st0, st, trace, n)
    ensures Installing(cfg, f, locators, routes[..i + 1], st0, st, trace, n, wanted, sids)
  {
    WantedStep(cfg, locators, routes, i + 1);
    RuleSidsStep(cfg, f, locators, routes, i + 1);
    InstalledStep(cfg, f, locators, routes, i + 1);
    hide VrfGrown, Traced, Wanted, RuleSids, Installed, EncapFor, AllEncodable, AsRoute;
  }

  lemma InstallEnds(cfg: Config, f: nat, locators: Locators, routes: seq<Route>, seen: seq<Route>, st0: State, st: State,
                    trace: seq<State>, n: nat, wanted: set<Dest>, sids: set<Address>)
    requires AllEncodable(f, locators) && seen == routes[..|routes|]
    requires Installing(cfg, f, locators, seen, st0, st, trace, n, wanted, sids)
    ensures wanted == Wanted(cfg, locators, routes) && sids == RuleSids(cfg, f, locators, routes)
    ensures VrfGrown(cfg, f, st0, st, Installed(cfg, f, locators, routes), sids) && Traced(cfg, st0, st, trace, n)
  {
    assert seen == routes;
    hide VrfGrown, Traced, Wanted, RuleSids, Installed;
  }

  // ------------------------------------------------------------------
  // Pruning a table
  // ------------------------------------------------------------------
  // The table lost exactly the routes `doomed` names.
  ghost predicate TablePruned(t: Table, st0: State, st: State, doomed: Dest -> bool) {
    && RoutesIn(st, t) == Kept(RoutesIn(st0, t), doomed)
    && (forall u | u != t :: RoutesIn(st, u) == RoutesIn(st0, u))
    && st.sidRules == st0.sidRules && st.steerRules == st0.steerRules
  }

  ghost function Kept(m: map<Dest, EncapRoute>, doomed: Dest -> bool): map<Dest, EncapRoute> {
    map d | d in m && !doomed(d) :: m[d]
  }

  // Some of them are gone already.
  ghost predicate TablePruning(t: Table, st0: State, st: State, doomed: Dest -> bool) {
    && (forall d | d in RoutesIn(st0, t) && !doomed(d) :: d in RoutesIn(st, t))
    && (forall d | d in RoutesIn(st, t) :: d in RoutesIn(st0, t) && RoutesIn(st, t)[d] == RoutesIn(st0, t)[d])
    && (forall u | u != t :: RoutesIn(st, u) == RoutesIn(st0, u))
    && st.sidRules == st0.sidRules && st.steerRules == st0.steerRules
  }

  ghost predicate PruneTraced(cfg: Config, t: Table, st0: State, trace: seq<State>, n: nat, doomed: Dest -> bool) {
    n <= |trace| && forall i | n <= i < |trace| ::
      TablePruning(t, st0, trace[i], doomed) && (VrfsSafe(cfg, st0) ==> VrfsSafe(cfg, trace[i]))
  }

  ghost predicate Pruning(cfg: Config, t: Table, st0: State, st: State, trace: seq<State>, n: nat,
                          doomed: Dest -> bool, todo: set<Dest>) {
    && TablePruning(t, st0, st, doomed)
    && (forall d :: d in todo <==> d in RoutesIn(st, t) && doomed(d))
    && (VrfsSafe(cfg, st0) ==> VrfsSafe(cfg, st))
    && PruneTraced(cfg, t, st0, trace, n, doomed)
  }

  lemma PruneStarts(cfg: Config, t: Table, st: State, trace: seq<State>, doomed: Dest -> bool, todo: set<Dest>)
    requires todo == set k | k in st.routes && k.0 == t && doomed(k.1) :: k.1
    ensures Pruning(cfg, t, st, st, trace, |trace|, doomed, todo)
  {
    forall d | d in RoutesIn(st, t) && doomed(d)
      ensures d in todo
    {
      assert (t, d) in st.routes;
    }
    hide VrfsSafe;
  }

  lemma PruneStep(cfg: Config, t: Table, st0: State, st: State, trace: seq<State>, n: nat,
                  doomed: Dest -> bool, todo: set<Dest>, d: Dest)
    requires Pruning(cfg, t, st0, st, trace, n, doomed, todo) && d in todo
    ensures var st' := st.(routes := st.routes - {(t, d)});
            Pruning(cfg, t, st0, st', trace + [st'], n, doomed, todo - {d})
  {
    DeleteEffect(cfg, st, t, d);
    hide RoutesIn, VrfsSafe;
  }

  lemma PruneEnds(cfg: Config, t: Table, st0: State, st: State, trace: seq<State>, n: nat, doomed: Dest -> bool)
    requires Pruning(cfg, t, st0, st, trace, n, doomed, {})
    ensures TablePruned(t, st0, st, doomed)
    ensures VrfsSafe(cfg, st0) ==> VrfsSafe(cfg, st)
    ensures PruneTraced(cfg, t, st0, trace, n, doomed)
  {
    hide RoutesIn, VrfsSafe, PruneTraced;
    assert RoutesIn(st, t) == Kept(RoutesIn(st0, t), doomed);
  }

  // st differs from st0 only in SID rules of f outside `wanted` that are gone.
  ghost predicate RulesBetween(st0: State, st: State, f: nat, wanted: set<Address>) {
    && st == st0.(sidRules := st.sidRules)
    && st.sidRules <= st0.sidRules
    && forall r | r in st0.sidRules && (r.0 == f ==> r.1 in wanted) :: r in st.sidRules
  }
}
