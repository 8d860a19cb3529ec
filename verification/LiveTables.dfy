// A steer table that is in use while it is rewritten: its routes change
// before the SID rules they need are added.

module LiveTables {
  import opened Wrappers
  import opened Csid
  import opened Sid
  import opened Payload
  import opened Kernel
  import opened EncapRoutes
  import opened Steering

  // The domain f reaches the first segment of every unsealed route of t.
  ghost predicate TableSafe(st: State, f: nat, t: Table) {
    forall x | x in RoutesIn(st, t) :: Reachable(st, f, RoutesIn(st, t)[x])
  }

  // The VM's routes could all be reached before it was steered.
  ghost predicate NewRoutesReachable(cfg: Config, before: State, f: nat, e: Steered)
    requires DesiredEncodable(f, e)
  {
    forall x | x in SteerRoutes(cfg, f, e) :: Reachable(before, f, SteerRoutes(cfg, f, e)[x])
  }

  // While a VM is steered into t, each route of t is one it held or one of
  // the VM's, and SID rules are only added.
  ghost predicate TableWithin(cfg: Config, before: State, s: State, f: nat, t: Table, e: Steered)
    requires DesiredEncodable(f, e)
  {
    && before.sidRules <= s.sidRules
    && forall x | x in RoutesIn(s, t) ::
         || (x in RoutesIn(before, t) && RoutesIn(s, t)[x] == RoutesIn(before, t)[x])
         || (x in SteerRoutes(cfg, f, e) && RoutesIn(s, t)[x] == SteerRoutes(cfg, f, e)[x])
  }

  ghost predicate WithinSince(cfg: Config, before: State, trace: seq<State>, n: nat, f: nat, t: Table, e: Steered)
    requires DesiredEncodable(f, e)
  {
    n <= |trace| && forall i | n <= i < |trace| :: TableWithin(cfg, before, trace[i], f, t, e)
  }

  // All the VM's routes are in, and no SID rule is new yet.
  ghost predicate Filled(cfg: Config, before: State, s: State, f: nat, t: Table, e: Steered)
    requires DesiredEncodable(f, e)
  {
    s.sidRules == before.sidRules && RoutesIn(s, t) == RoutesIn(before, t) + SteerRoutes(cfg, f, e)
  }

  ghost predicate WasFilled(cfg: Config, before: State, trace: seq<State>, n: nat, f: nat, t: Table, e: Steered)
    requires DesiredEncodable(f, e)
  {
    Filled(cfg, before, before, f, t, e) || exists i :: n <= i < |trace| && Filled(cfg, before, trace[i], f, t, e)
  }

  // Every step of steering a VM into a table that was safe keeps it safe if
  // and only if the VM's routes could be reached to begin with.
  lemma LiveTableIff(cfg: Config, before: State, trace: seq<State>, n: nat, f: nat, t: Table, e: Steered)
    requires DesiredEncodable(f, e) && TableSafe(before, f, t)
    requires WithinSince(cfg, before, trace, n, f, t, e) && WasFilled(cfg, before, trace, n, f, t, e)
    ensures (forall i | n <= i < |trace| :: TableSafe(trace[i], f, t)) <==> NewRoutesReachable(cfg, before, f, e)
  {
    hide TableSafe, TableWithin, Filled, NewRoutesReachable;
    if forall i | n <= i < |trace| :: TableSafe(trace[i], f, t) {
      if Filled(cfg, before, before, f, t, e) {
        FilledIsSafe(cfg, before, before, f, t, e);
      } else {
        var i :| n <= i < |trace| && Filled(cfg, before, trace[i], f, t, e);
        FilledIsSafe(cfg, before, trace[i], f, t, e);
      }
    }
    if NewRoutesReachable(cfg, before, f, e) {
      forall i | n <= i < |trace|
        ensures TableSafe(trace[i], f, t)
      {
        WithinIsSafe(cfg, before, trace[i], f, t, e);
      }
    }
  }

  lemma FilledIsSafe(cfg: Config, before: State, s: State, f: nat, t: Table, e: Steered)
    requires DesiredEncodable(f, e) && Filled(cfg, before, s, f, t, e) && TableSafe(s, f, t)
    ensures NewRoutesReachable(cfg, before, f, e)
  {
    hide RoutesIn, SteerRoutes;
    forall x | x in SteerRoutes(cfg, f, e)
      ensures Reachable(before, f, SteerRoutes(cfg, f, e)[x])
    {
      assert x in RoutesIn(s, t) && RoutesIn(s, t)[x] == SteerRoutes(cfg, f, e)[x];
      assert Reachable(s, f, RoutesIn(s, t)[x]);
    }
  }

  lemma WithinIsSafe(cfg: Config, before: State, s: State, f: nat, t: Table, e: Steered)
    requires DesiredEncodable(f, e) && TableSafe(before, f, t) && NewRoutesReachable(cfg, before, f, e)
    requires TableWithin(cfg, before, s, f, t, e)
    ensures TableSafe(s, f, t)
  {
    hide RoutesIn, SteerRoutes;
    forall x | x in RoutesIn(s, t)
      ensures Reachable(s, f, RoutesIn(s, t)[x])
    {
      if x in RoutesIn(before, t) && RoutesIn(s, t)[x] == RoutesIn(before, t)[x] {
        assert Reachable(before, f, RoutesIn(before, t)[x]);
      } else {
        assert Reachable(before, f, SteerRoutes(cfg, f, e)[x]);
      }
    }
  }

  // A table in use, whose VM is moved onto a path with another first segment:
  // the new route cannot be reached until its SID rule follows.
  lemma LiveTableMayStrand() returns (cfg: Config, before: State, f: nat, t: Table, e: Steered)
    ensures DesiredEncodable(f, e) && IsSteerTable(cfg, t) && TableSafe(before, f, t)
    ensures exists r :: r in before.steerRules && r in SteerRulesOf(e, t)
    ensures !NewRoutesReachable(cfg, before, f, e)
  {
    var locator := Prefix(0, 48);
    FunctionFits(locator);
    var sid := SidFor(locator, 1).value;
    cfg := Config(1, 0, false, 0, a => false, a => Some(3));
    f, t := 1, STEER_TABLE_OFFSET;
    e := Steered(Gateway(1, 10), {5}, map[7 := (locator, [])]);
    before := State(map[(t, 7) := EncapRoute([sid + 1], 3, false)], {(1, sid + 1)}, {SteerRule(5, Gateway(1, 10), t)});
    OneNewRoute(cfg, locator, e, sid);
    assert RoutesIn(before, t) == map[7 := EncapRoute([sid + 1], 3, false)];
    WantedRulesHold(e, t, SteerRule(5, Gateway(1, 10), t));
    hide SidFor, SteerRoutes, DesiredEncodable, RoutesIn, SteerRulesOf;
    assert (5, Gateway(1, 10)) in Wanting(e);
    assert !Reachable(before, f, SteerRoutes(cfg, f, e)[7]);
  }

  lemma OneNewRoute(cfg: Config, locator: Prefix, e: Steered, sid: Address)
    requires SidFor(locator, 1) == Some(sid) && !cfg.usid && cfg.devOf(sid) == Some(3)
    requires e.routes == map[7 := (locator, [])]
    ensures DesiredEncodable(1, e) && 7 in SteerRoutes(cfg, 1, e) && SteerRoutes(cfg, 1, e)[7] == EncapRoute([sid], 3, false)
  {
    hide SidFor;
    assert Encodable(1, locator);
    var x := SteerEncap(cfg, 1, e, 7);
    assert x.segments == [sid] && !x.sealed && x.dev == Some(3);
  }

  // ------------------------------------------------------------------
  // The steps
  // ------------------------------------------------------------------
  lemma NothingSince(cfg: Config, before: State, trace: seq<State>, f: nat, t: Table, e: Steered)
    requires DesiredEncodable(f, e)
    ensures WithinSince(cfg, before, trace, |trace|, f, t, e)
  {
    hide TableWithin;
  }

  lemma FillingIsWithin(cfg: Config, before: State, st: State, f: nat, t: Table, e: Steered, todo: set<Dest>,
                        wanted: set<Dest>, sids: set<Address>)
    requires DesiredEncodable(f, e) && Filling(cfg, before, st, f, t, e, todo, wanted, sids)
    ensures TableWithin(cfg, before, st, f, t, e)
  {
    hide RoutesIn, SteerRoutes, FilledSids, SameElsewhere, VrfsSafe;
  }

  lemma WithinAppend(cfg: Config, before: State, trace: seq<State>, st: State, n: nat, f: nat, t: Table, e: Steered)
    requires DesiredEncodable(f, e) && WithinSince(cfg, before, trace, n, f, t, e) && TableWithin(cfg, before, st, f, t, e)
    ensures WithinSince(cfg, before, trace + [st], n, f, t, e)
  {
    hide TableWithin;
  }

  // The newest state of a history in which all routes are in.
  lemma FilledNow(cfg: Config, before: State, st: State, calls0: seq<Command>, trace0: seq<State>, calls: seq<Command>,
                  trace: seq<State>, f: nat, t: Table, e: Steered)
    requires DesiredEncodable(f, e) && IsHistory(calls0, trace0, before) && IsHistory(calls, trace, st) && trace0 <= trace
    requires st.sidRules == before.sidRules && RoutesIn(st, t) == RoutesIn(before, t) + SteerRoutes(cfg, f, e)
    ensures WasFilled(cfg, before, trace, |trace0|, f, t, e)
  {
    hide RoutesIn, SteerRoutes, Run;
    assert Filled(cfg, before, st, f, t, e);
    if |trace| > |trace0| {
      assert Filled(cfg, before, trace[|trace| - 1], f, t, e);
    } else {
      assert trace == trace0;
    }
  }

  // Steps that leave the routes alone.
  lemma WithinSameRoutes(cfg: Config, before: State, mid: State, trace0: seq<State>, trace: seq<State>, n: nat, f: nat,
                         t: Table, e: Steered)
    requires DesiredEncodable(f, e) && WithinSince(cfg, before, trace0, n, f, t, e) && TableWithin(cfg, before, mid, f, t, e)
    requires trace0 <= trace
    requires forall i | |trace0| <= i < |trace| :: trace[i].routes == mid.routes && mid.sidRules <= trace[i].sidRules
    ensures WithinSince(cfg, before, trace, n, f, t, e)
  {
    hide TableWithin;
    forall i | n <= i < |trace|
      ensures TableWithin(cfg, before, trace[i], f, t, e)
    {
      if i < |trace0| {
        assert trace[i] == trace0[i];
      } else {
        SameRoutesWithin(cfg, before, mid, trace[i], f, t, e);
      }
    }
  }

  lemma SameRoutesWithin(cfg: Config, before: State, mid: State, s: State, f: nat, t: Table, e: Steered)
    requires DesiredEncodable(f, e) && TableWithin(cfg, before, mid, f, t, e)
    requires s.routes == mid.routes && mid.sidRules <= s.sidRules
    ensures TableWithin(cfg, before, s, f, t, e)
  {
    hide SteerRoutes;
    assert RoutesIn(s, t) == RoutesIn(mid, t);
    hide RoutesIn;
  }

  lemma ShrunkRoutes(mid: State, st: State, trace: seq<State>, n: nat)
    requires ShrunkSince(mid, trace, n) && RulesShrunk(mid, st)
    ensures forall i | n <= i < |trace| :: trace[i].routes == mid.routes && mid.sidRules <= trace[i].sidRules
    ensures st.routes == mid.routes && mid.sidRules <= st.sidRules
  {
  }

  // Steps that drop routes of the table.
  lemma WithinPruned(cfg: Config, before: State, mid: State, trace0: seq<State>, trace: seq<State>, n: nat, f: nat,
                     t: Table, e: Steered, doomed: Dest -> bool)
    requires DesiredEncodable(f, e) && WithinSince(cfg, before, trace0, n, f, t, e) && TableWithin(cfg, before, mid, f, t, e)
    requires trace0 <= trace && PruneTraced(cfg, t, mid, trace, |trace0|, doomed)
    ensures WithinSince(cfg, before, trace, n, f, t, e)
  {
    hide TableWithin, TablePruning, VrfsSafe;
    forall i | n <= i < |trace|
      ensures TableWithin(cfg, before, trace[i], f, t, e)
    {
      if i < |trace0| {
        assert trace[i] == trace0[i];
      } else {
        PrunedWithin(cfg, before, mid, trace[i], f, t, e, doomed);
      }
    }
  }

  lemma PrunedWithin(cfg: Config, before: State, mid: State, s: State, f: nat, t: Table, e: Steered, doomed: Dest -> bool)
    requires DesiredEncodable(f, e) && TableWithin(cfg, before, mid, f, t, e) && TablePruning(t, mid, s, doomed)
    ensures TableWithin(cfg, before, s, f, t, e)
  {
    hide RoutesIn, SteerRoutes;
  }

  lemma PrunedNow(cfg: Config, before: State, mid: State, s: State, f: nat, t: Table, e: Steered, doomed: Dest -> bool)
    requires DesiredEncodable(f, e) && TableWithin(cfg, before, mid, f, t, e) && TablePruned(t, mid, s, doomed)
    ensures TableWithin(cfg, before, s, f, t, e)
  {
    hide RoutesIn, SteerRoutes;
  }

  lemma WasFilledMore(cfg: Config, before: State, trace0: seq<State>, trace: seq<State>, n: nat, f: nat, t: Table, e: Steered)
    requires DesiredEncodable(f, e) && WasFilled(cfg, before, trace0, n, f, t, e) && trace0 <= trace
    ensures WasFilled(cfg, before, trace, n, f, t, e)
  {
    hide Filled;
    if !Filled(cfg, before, before, f, t, e) {
      var i :| n <= i < |trace0| && Filled(cfg, before, trace0[i], f, t, e);
      assert trace[i] == trace0[i];
    }
  }
}
