// How far a pass may go beyond te_auto_max_paths and
// te_auto_max_rules_per_host, and hence exactly when it passes one of them.

module ReoptOverrun {
  import opened Graph
  import opened ReoptMemory
  import opened PairView
  import opened ReoptPass
  import opened ReoptRun
  import opened ReoptCaps
  import opened Reopt
  import opened OverrunPass
  import opened OverrunReading

  // A pass of the controller, from what it reads and the state it starts in.
  ghost predicate IsPass(conf: Conf, capacity: Rates, r: Reading, w: World, p: Pass, looks: seq<Step>, tries: seq<Step>, end: World) {
    && conf.steering && capacity != map[] && !r.outage && NoNegative(r.view) && RowsOk(w.paths)
    && PassReads(conf, capacity, r, p.now, w.m.linkMoved, p) && PassOk(capacity, p)
    && PassRun(conf, capacity, p, looks, tries, Refreshed(conf, p.now, w), end)
  }

  // The caps and counts it has to do with, those of node h among them.
  ghost predicate CaseIs(x: Case, conf: Conf, p: Pass, looks: seq<Step>, h: Node) {
    var stale := AutoPairs(p.paths.Values);
    && conf.maxPaths == x.paths && conf.maxRules == x.rules && conf.maxMoves - Releases(looks) == x.budget
    && |p.congested| == x.links && |stale| == x.stale
    && OnePlace(p, h) && |VmsOn(p, stale, h)| == x.held && |SteeredOn(stale, p.hosts, h)| == x.counted
  }

  // The family's pass ends with as many more automatic paths, and as many more
  // steered VMs on the node, as the bounds allow.
  lemma MostIsReached(x: Case) returns (tries: seq<Step>, end: World)
    requires CaseOk(x) && Quota(x) > 0
    ensures Begun(x, 0).m == Memory(map[], map[], map[], map[])
    ensures IsPass(Settings(x), Capacity(x), TightReading(x), Begun(x, 0), TightPass(x), IdleLooks(x, x.stale), tries, end)
    ensures CaseIs(x, Settings(x), TightPass(x), IdleLooks(x, x.stale), 0)
    ensures |AutoPairs(end.paths.Values)| == x.stale + Most(x)
    ensures |VmsOn(TightPass(x), AutoPairs(end.paths.Values), 0)| == x.held + Most(x)
  {
    hide *;
    tries, end := TightRun(x);
    EndsWith(x);
    TightReads(x);
    TightIsOk(x);
    TightIs(x);
    ReadingIs(x);
    BegunAfresh(x);
    SettingsAre(x);
    LinksThere(x);
    PassIf(Settings(x), Capacity(x), TightReading(x), Begun(x, 0), TightPass(x), IdleLooks(x, x.stale), tries, end);
    TightCase(x);
  }

  lemma BegunAfresh(x: Case)
    ensures Begun(x, 0).m == Memory(map[], map[], map[], map[]) && Refreshed(Settings(x), 0.0, Begun(x, 0)) == Begun(x, 0)
    ensures RowsOk(Begun(x, 0).paths)
  {
    RowsAre(x, 0);
    hide Rows, Settings;
    assert (map id | id in Span(0, 0) :: 0.0) == map[];
  }

  lemma LinksThere(x: Case)
    ensures Capacity(x) != map[]
  {
    CapacityIs(x);
    hide Capacity, Hot, Far;
    assert (0, 3) in Capacity(x);
  }

  lemma PassIf(conf: Conf, capacity: Rates, r: Reading, w: World, p: Pass, looks: seq<Step>, tries: seq<Step>, end: World)
    requires conf.steering && capacity != map[] && !r.outage && NoNegative(r.view) && RowsOk(w.paths)
    requires PassReads(conf, capacity, r, p.now, w.m.linkMoved, p) && PassOk(capacity, p)
    requires PassRun(conf, capacity, p, looks, tries, w, end) && Refreshed(conf, p.now, w) == w
    ensures IsPass(conf, capacity, r, w, p, looks, tries, end)
  {
    hide NoNegative, RowsOk, PassReads, PassOk, PassRun, Refreshed;
  }

  lemma TightCase(x: Case)
    requires CaseOk(x)
    ensures CaseIs(x, Settings(x), TightPass(x), IdleLooks(x, x.stale), 0)
  {
    hide *;
    TightIs(x);
    TightIsOk(x);
    FullIs(x);
    SettingsAre(x);
    StaleAre(x);
    StaleVms(x);
    LooksAre(x, x.stale);
    KeysCount(x);
    SpanCounts(Stale(x, 0), x.held);
    SpanCounts(Stale(x, 0), x.counted);
    HotCounts(x);
    CaseFrom(x, Settings(x), TightPass(x), IdleLooks(x, x.stale), 0);
  }

  lemma HotCounts(x: Case)
    ensures |Full(x)| == x.links
  {
    FullIs(x);
    hide Full, Hot;
    assert |Full(x)| == |Full(x).Keys|;
  }

  lemma CaseFrom(x: Case, conf: Conf, p: Pass, looks: seq<Step>, h: Node)
    requires var stale := AutoPairs(p.paths.Values);
             && conf.maxPaths == x.paths && conf.maxRules == x.rules && conf.maxMoves - Releases(looks) == x.budget
             && |p.congested| == x.links && |stale| == x.stale
             && OnePlace(p, h) && |VmsOn(p, stale, h)| == x.held && |SteeredOn(stale, p.hosts, h)| == x.counted
    ensures CaseIs(x, conf, p, looks, h)
  {
    hide OnePlace, VmsOn, SteeredOn, AutoPairs, Releases;
  }

  // No pass goes further.
  lemma MostIsMost(x: Case, conf: Conf, capacity: Rates, r: Reading, w: World, p: Pass, looks: seq<Step>, tries: seq<Step>,
                   end: World, h: Node)
    requires IsPass(conf, capacity, r, w, p, looks, tries, end) && CaseIs(x, conf, p, looks, h)
    ensures x.counted <= x.held <= x.stale && |VmsOn(p, AutoPairs(end.paths.Values), h)| <= x.held + Most(x)
  {
    hide *;
    PassIs(conf, capacity, r, w, p, looks, tries, end);
    CaseParts(x, conf, p, looks, h);
    var stale := AutoPairs(p.paths.Values);
    RulesGrowth(conf, capacity, p, looks, tries, Refreshed(conf, p.now, w), end, h);
    VmsCount(p, stale, h);
    CountedHere(p, stale, h);
    CountWithin(SteeredOn(stale, p.hosts, h), VmsOn(p, stale, h));
    MostIs(x, |VmsOn(p, AutoPairs(end.paths.Values), h)| - |VmsOn(p, stale, h)|);
  }

  lemma PassIs(conf: Conf, capacity: Rates, r: Reading, w: World, p: Pass, looks: seq<Step>, tries: seq<Step>, end: World)
    requires IsPass(conf, capacity, r, w, p, looks, tries, end)
    ensures PassOk(capacity, p) && PassRun(conf, capacity, p, looks, tries, Refreshed(conf, p.now, w), end)
  {
    hide NoNegative, RowsOk, PassReads, PassOk, PassRun, Refreshed;
  }

  lemma CaseParts(x: Case, conf: Conf, p: Pass, looks: seq<Step>, h: Node)
    requires CaseIs(x, conf, p, looks, h)
    ensures var stale := AutoPairs(p.paths.Values);
            && conf.maxPaths == x.paths && conf.maxRules == x.rules && conf.maxMoves - Releases(looks) == x.budget
            && |p.congested| == x.links && |stale| == x.stale
            && OnePlace(p, h) && |VmsOn(p, stale, h)| == x.held && |SteeredOn(stale, p.hosts, h)| == x.counted
  {
    hide OnePlace, VmsOn, SteeredOn, AutoPairs, Releases;
  }

  lemma CountedHere(p: Pass, pairs: set<Pair>, h: Node)
    ensures SteeredOn(pairs, p.hosts, h) <= VmsOn(p, pairs, h)
  {
  }

  lemma MostIs(x: Case, n: int)
    requires n <= x.budget && n <= x.links * Least(Spare(x.rules, x.counted), Spare(x.paths, x.stale))
    ensures n <= Most(x)
  {
  }

  // ------------------------------------------------------------------
  // Exactly when
  // ------------------------------------------------------------------
  // A pass that starts its moves within te_auto_max_paths and ends above it.
  ghost predicate IsOverrun(paths: nat, stale: nat, budget: nat, links: nat, conf: Conf, capacity: Rates, r: Reading, w: World,
                            p: Pass, looks: seq<Step>, tries: seq<Step>, end: World) {
    && IsPass(conf, capacity, r, w, p, looks, tries, end)
    && conf.maxPaths == paths && conf.maxMoves - Releases(looks) == budget && |p.congested| == links
    && |AutoPairs(p.paths.Values)| == stale <= paths < |AutoPairs(end.paths.Values)|
  }

  // A pass can end above te_auto_max_paths if and only if at least two links
  // are congested, the moves find the cap not reached, and the budget left
  // exceeds what the cap leaves.
  lemma OverrunIff(paths: nat, stale: nat, budget: nat, links: nat)
    ensures (exists conf, capacity, r, w, p, looks, tries, end ::
               IsOverrun(paths, stale, budget, links, conf, capacity, r, w, p, looks, tries, end))
            <==> links >= 2 && stale < paths && budget > paths - stale
  {
    hide *;
    if links >= 2 && stale < paths && budget > paths - stale {
      var x := Case(paths, paths, budget, stale, 0, 0, links);
      PathsCase(x);
      var tries, end := MostIsReached(x);
      CaseParts(x, Settings(x), TightPass(x), IdleLooks(x, x.stale), 0);
      OverrunFrom(x, Settings(x), Capacity(x), TightReading(x), Begun(x, 0), TightPass(x), IdleLooks(x, x.stale), tries, end);
    }
    forall conf, capacity, r, w, p, looks, tries, end |
      IsOverrun(paths, stale, budget, links, conf, capacity, r, w, p, looks, tries, end)
      ensures links >= 2 && stale < paths && budget > paths - stale
    {
      OverrunMeans(paths, stale, budget, links, conf, capacity, r, w, p, looks, tries, end);
    }
  }

  lemma PathsCase(x: Case)
    requires x.links >= 2 && x.stale < x.paths == x.rules && x.budget > x.paths - x.stale && x.held == x.counted == 0
    ensures CaseOk(x) && Quota(x) > 0 && x.stale + Most(x) > x.paths
  {
    var room := x.paths - x.stale;
    assert Quota(x) == room;
    assert x.links * room >= 2 * room;
  }

  lemma OverrunFrom(x: Case, conf: Conf, capacity: Rates, r: Reading, w: World, p: Pass, looks: seq<Step>, tries: seq<Step>, end: World)
    requires IsPass(conf, capacity, r, w, p, looks, tries, end)
    requires conf.maxPaths == x.paths && conf.maxMoves - Releases(looks) == x.budget && |p.congested| == x.links
    requires |AutoPairs(p.paths.Values)| == x.stale <= x.paths < |AutoPairs(end.paths.Values)|
    ensures IsOverrun(x.paths, x.stale, x.budget, x.links, conf, capacity, r, w, p, looks, tries, end)
  {
    hide IsPass, AutoPairs, Releases;
  }

  lemma OverrunMeans(paths: nat, stale: nat, budget: nat, links: nat, conf: Conf, capacity: Rates, r: Reading, w: World, p: Pass,
                     looks: seq<Step>, tries: seq<Step>, end: World)
    requires IsOverrun(paths, stale, budget, links, conf, capacity, r, w, p, looks, tries, end)
    ensures links >= 2 && stale < paths && budget > paths - stale
  {
    PassIs(conf, capacity, r, w, p, looks, tries, end);
    OverrunNeeds(conf, capacity, p, looks, tries, Refreshed(conf, p.now, w), end);
    hide IsPass, PassOk, PassRun, AutoPairs, Releases, Refreshed;
  }

  // A pass that starts its moves with a node's steered VMs within
  // te_auto_max_rules_per_host and ends with more.
  ghost predicate IsRulesOverrun(x: Case, conf: Conf, capacity: Rates, r: Reading, w: World, p: Pass, looks: seq<Step>,
                                 tries: seq<Step>, end: World, h: Node) {
    && IsPass(conf, capacity, r, w, p, looks, tries, end) && CaseIs(x, conf, p, looks, h)
    && x.held <= x.rules < |VmsOn(p, AutoPairs(end.paths.Values), h)|
  }

  ghost predicate RulesCanOverrun(x: Case) {
    exists conf, capacity, r, w, p, looks, tries, end, h :: IsRulesOverrun(x, conf, capacity, r, w, p, looks, tries, end, h)
  }

  // A pass can end with more steered VMs on a node than
  // te_auto_max_rules_per_host if and only if the budget, and what the caps
  // leave for all its congested links together, exceed what the node may take.
  // Where every VM with a path was measured, the node may take what the cap
  // leaves.
  lemma RulesOverrunIff(x: Case)
    ensures RulesCanOverrun(x) <==> x.counted <= x.held <= x.stale && x.held <= x.rules < x.held + Most(x)
    ensures x.counted == x.held ==>
              (RulesCanOverrun(x) <==> x.held <= x.stale && x.held < x.rules && x.budget > x.rules - x.held
                                       && x.links * Least(Spare(x.rules, x.held), Spare(x.paths, x.stale)) > x.rules - x.held)
  {
    hide *;
    if x.counted <= x.held <= x.stale && x.held <= x.rules < x.held + Most(x) {
      RulesCase(x);
      var tries, end := MostIsReached(x);
      RulesOverrunFrom(x, Settings(x), Capacity(x), TightReading(x), Begun(x, 0), TightPass(x), IdleLooks(x, x.stale), tries, end, 0);
    }
    if RulesCanOverrun(x) {
      RulesOverrunMeans(x);
    }
    MostExceeds(x);
  }

  lemma RulesCase(x: Case)
    requires x.counted <= x.held <= x.stale && x.held <= x.rules < x.held + Most(x)
    ensures CaseOk(x) && Quota(x) > 0
  {
    assert x.links * Quota(x) > 0;
    assert Quota(x) > 0;
  }

  lemma MostExceeds(x: Case)
    ensures var room := Least(Spare(x.rules, x.counted), Spare(x.paths, x.stale));
            x.held <= x.rules < x.held + Most(x) <==>
            x.held <= x.rules && x.budget > x.rules - x.held && x.links * room > x.rules - x.held
    ensures x.counted == x.held <= x.rules < x.held + Most(x) ==> x.held < x.rules
  {
    if x.counted == x.held == x.rules {
      assert Quota(x) == 0;
      assert x.links * Quota(x) == 0;
    }
  }

  lemma RulesOverrunFrom(x: Case, conf: Conf, capacity: Rates, r: Reading, w: World, p: Pass, looks: seq<Step>, tries: seq<Step>,
                         end: World, h: Node)
    requires IsPass(conf, capacity, r, w, p, looks, tries, end) && CaseIs(x, conf, p, looks, h)
    requires x.held <= x.rules < |VmsOn(p, AutoPairs(end.paths.Values), h)|
    ensures RulesCanOverrun(x)
  {
    hide IsPass, CaseIs, VmsOn, AutoPairs;
    assert IsRulesOverrun(x, conf, capacity, r, w, p, looks, tries, end, h);
  }

  lemma RulesOverrunMeans(x: Case)
    requires RulesCanOverrun(x)
    ensures x.counted <= x.held <= x.stale && x.held <= x.rules < x.held + Most(x)
  {
    var conf, capacity, r, w, p, looks, tries, end, h :| IsRulesOverrun(x, conf, capacity, r, w, p, looks, tries, end, h);
    MostIsMost(x, conf, capacity, r, w, p, looks, tries, end, h);
    hide IsPass, CaseIs, VmsOn, AutoPairs, Most;
  }
}
