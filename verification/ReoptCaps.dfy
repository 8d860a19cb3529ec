// What a pass changes, counted: the actions it logs, the paths it makes, and
// the two caps on them.

module ReoptCaps {
  import opened Graph
  import opened TeRows
  import opened ReoptMemory
  import opened ReoptPass
  import opened ReoptRun

  // ------------------------------------------------------------------
  // Paths change only by logged actions
  // ------------------------------------------------------------------
  ghost predicate ActedOn(actions: seq<Action>, n: nat, k: Pair) {
    exists i :: n <= i < |actions| && actions[i].pair == k
  }

  // A row is as before, or an action on its pair was logged.
  ghost predicate Accounted(before: map<PathId, TePath>, after: map<PathId, TePath>, actions: seq<Action>, n: nat) {
    && (forall id | id in before :: (id in after && after[id] == before[id])
                                    || (IsAuto(before[id]) && ActedOn(actions, n, PairOf(before[id]))))
    && forall id | id in after :: (id in before && after[id] == before[id])
                                  || (IsAuto(after[id]) && ActedOn(actions, n, PairOf(after[id])))
  }

  lemma ActedMore(actions: seq<Action>, n: nat, a: Action)
    requires n <= |actions|
    ensures forall k :: ActedOn(actions + [a], n, k) <==> ActedOn(actions, n, k) || a.pair == k
  {
    var more := actions + [a];
    assert more[|actions|] == a;
    forall k
      ensures ActedOn(more, n, k) <==> ActedOn(actions, n, k) || a.pair == k
    {
      if ActedOn(actions, n, k) {
        var i :| n <= i < |actions| && actions[i].pair == k;
        assert more[i] == actions[i];
      }
    }
  }

  lemma {:induction false} LooksAccounted(conf: Conf, capacity: Rates, p: Pass, start: World, run: seq<Step>, log: Log)
    requires Looks(conf, capacity, p, start, run)
    ensures var actions := LooksLog(capacity, p, log, run).actions;
            && |actions| == |log.actions| + Releases(run) && log.actions <= actions
            && Accounted(start.paths, EndOf(start, run).paths, actions, |log.actions|)
  {
    hide LookOk, ActedOn, LookLog;
    if run != [] {
      var s, prior := run[|run| - 1], run[..|run| - 1];
      LooksAccounted(conf, capacity, p, start, prior, log);
      var before := LooksLog(capacity, p, log, prior);
      LookIsAuto(conf, capacity, p, s);
      LookAccounts(conf, capacity, p, s, before);
      if s.released {
        ActedMore(before.actions, |log.actions|, LookLog(capacity, p, before, s).actions[|before.actions|]);
      }
    }
  }

  lemma LookAccounts(conf: Conf, capacity: Rates, p: Pass, s: Step, log: Log)
    requires LookOk(conf, capacity, p, s)
    ensures s.Look? && IsAuto(s.row) && s.row.id in s.before.paths && s.before.paths[s.row.id] == s.row
    ensures s.after.paths == if s.released then s.before.paths - {s.row.id} else s.before.paths
    ensures var actions := LookLog(capacity, p, log, s).actions;
            if s.released then |actions| == |log.actions| + 1 && actions == log.actions + [actions[|log.actions|]]
                               && actions[|log.actions|].pair == PairOf(s.row)
            else actions == log.actions
  {
    hide FloorIs, Due, HopsOf, IdleAfter, WhyOf, DefaultLinks, MarkAll;
  }

  lemma {:induction false} TriesAccounted(conf: Conf, capacity: Rates, p: Pass, spent: nat, start: World, run: seq<Step>, log: Log)
    requires PassOk(capacity, p) && Tries(conf, capacity, p, spent, start, run)
    ensures var actions := TriesLog(capacity, p, log, run).actions;
            && |actions| == |log.actions| + Moves(run) && log.actions <= actions
            && Accounted(start.paths, EndOf(start, run).paths, actions, |log.actions|)
  {
    hide TryOk, Accounted, PlacementOf, PassOk;
    if run == [] {
      NothingChanged(start.paths, log.actions);
    } else {
      var s, prior := run[|run| - 1], run[..|run| - 1];
      TriesAccounted(conf, capacity, p, spent, start, prior, log);
      var before := TriesLog(capacity, p, log, prior);
      if IsStored(s) {
        StoredParts(conf, capacity, p, prior, s);
        SinceCongested(capacity, p, s.link);
        StoredRow(conf, capacity, p, prior, s);
        RowChanged(start.paths, s.before.paths, before.actions, |log.actions|, s.outcome.row,
                   Placed(p.now, s.pair, PlacementOf(capacity, p, prior, s)));
      } else {
        NothingStored(conf, capacity, p, prior, s);
      }
    }
  }

  lemma NothingChanged(paths: map<PathId, TePath>, actions: seq<Action>)
    ensures Accounted(paths, paths, actions, |actions|)
  {
  }

  lemma RowChanged(paths0: map<PathId, TePath>, paths: map<PathId, TePath>, actions: seq<Action>, n: nat, row: TePath, a: Action)
    requires Accounted(paths0, paths, actions, n) && n <= |actions| && IsAuto(row) && a.pair == PairOf(row)
    requires row.id in paths ==> IsAuto(paths[row.id]) && PairOf(paths[row.id]) == PairOf(row)
    ensures Accounted(paths0, paths[row.id := row], actions + [a], n)
  {
    ActedMore(actions, n, a);
    hide ActedOn;
  }

  // What a stored row is.
  lemma StoredRow(conf: Conf, capacity: Rates, p: Pass, prior: seq<Step>, s: Step)
    requires PassOk(capacity, p) && TryOk(conf, capacity, p, prior, s) && IsStored(s)
    ensures s.pair in p.pairs
    ensures var row, autos := s.outcome.row, AutosAt(p, prior, s.link);
            && IsAuto(row) && PairOf(row) == s.pair && s.after.paths == s.before.paths[row.id := row]
            && (row.id in s.before.paths <==> s.pair in autos)
            && (s.pair in autos ==>
                  && row == s.before.paths[row.id].(via := row.via)
                  && IsAuto(s.before.paths[row.id]) && PairOf(s.before.paths[row.id]) == s.pair)
            && (s.pair !in autos ==>
                  && RoomForAnother(conf, p.pairs[s.pair], autos, p.hosts) && row.domain == p.pairs[s.pair].domain
                  && forall id | id in s.before.paths ::
                       !(s.before.paths[id].domain == row.domain && s.before.paths[id].to == row.to
                         && s.before.paths[id].from_ == row.from_))
  {
    NextIsCandidate(conf, capacity, p, prior, s.link, s.pair);
    CandidateParts(conf, capacity, p, s.link, s.pair);
    hide PassOk, IsNext, Load, RoomForAnother, Chosen, NoneChosen, AutosAt, PairsOn, Remembered, HeldDown, Candidates;
  }

  lemma AccountedTwice(a: map<PathId, TePath>, b: map<PathId, TePath>, c: map<PathId, TePath>, some: seq<Action>,
                       actions: seq<Action>, n: nat)
    requires n <= |some| <= |actions| && some <= actions
    requires Accounted(a, b, some, n) && Accounted(b, c, actions, |some|)
    ensures Accounted(a, c, actions, n)
  {
    forall k
      ensures ActedOn(some, n, k) || ActedOn(actions, |some|, k) ==> ActedOn(actions, n, k)
    {
      if ActedOn(some, n, k) {
        var i :| n <= i < |some| && some[i].pair == k;
        assert actions[i] == some[i];
      }
    }
    hide ActedOn;
  }

  // A pass logs one action for each release and each move, at most the
  // budget; and no stored path changes, comes or goes without one on its pair.
  lemma ChangesAreLogged(conf: Conf, capacity: Rates, p: Pass, looks: seq<Step>, tries: seq<Step>, start: World, end: World, log: Log)
    requires PassOk(capacity, p) && PassRun(conf, capacity, p, looks, tries, start, end)
    ensures var actions := PassLog(capacity, p, log, looks, tries).actions;
            && log.actions <= actions && |actions| == |log.actions| + Releases(looks) + Moves(tries) <= |log.actions| + conf.maxMoves
            && Accounted(start.paths, end.paths, actions, |log.actions|)
  {
    LooksAccounted(conf, capacity, p, start, looks, log);
    var middle := LooksLog(capacity, p, log, looks);
    TriesAccounted(conf, capacity, p, Releases(looks), EndOf(start, looks), tries, middle);
    var actions := PassLog(capacity, p, log, looks, tries).actions;
    AccountedTwice(start.paths, EndOf(start, looks).paths, end.paths, middle.actions, actions, |log.actions|);
    hide Looks, Tries, PassOk, LooksDone, Accounted;
  }

  // ------------------------------------------------------------------
  // New paths
  // ------------------------------------------------------------------
  predicate IsBirth(s: Step) {
    IsStored(s) && s.outcome.row.id !in s.before.paths
  }

  function Births(run: seq<Step>): nat {
    if run == [] then 0 else Births(run[..|run| - 1]) + if IsBirth(run[|run| - 1]) then 1 else 0
  }

  function BirthsAt(run: seq<Step>, l: Link): nat {
    if run == [] then 0
    else BirthsAt(run[..|run| - 1], l) + if IsBirth(run[|run| - 1]) && run[|run| - 1].link == l then 1 else 0
  }

  function BirthsWithin(run: seq<Step>, links: set<Link>): nat {
    if run == [] then 0
    else BirthsWithin(run[..|run| - 1], links) + if IsBirth(run[|run| - 1]) && run[|run| - 1].link in links then 1 else 0
  }

  lemma StoredAtStep(prior: seq<Step>, s: Step, run: seq<Step>, l: Link)
    requires run == prior + [s]
    ensures StoredAt(run, l) == StoredAt(prior, l) + if IsStored(s) && s.link == l then {s.pair} else {}
  {
    assert run[|prior|] == s && forall i | 0 <= i < |prior| :: run[i] == prior[i];
    forall k
      ensures k in StoredAt(run, l) <==> k in StoredAt(prior, l) || (IsStored(s) && s.link == l && s.pair == k)
    {
      if k in StoredAt(prior, l) {
        var i :| 0 <= i < |prior| && IsStored(prior[i]) && prior[i].link == l && prior[i].pair == k;
        assert run[i] == prior[i];
      }
    }
  }

  // While a link is steered, the paths counted are those read first and those
  // made for it; a new one for it found them below the cap.
  lemma {:induction false} AutosCount(conf: Conf, capacity: Rates, p: Pass, spent: nat, start: World, run: seq<Step>, l: Link)
    requires PassOk(capacity, p) && Tries(conf, capacity, p, spent, start, run)
    ensures |AutosAt(p, run, l)| == |AutoPairs(p.paths.Values)| + BirthsAt(run, l)
    ensures BirthsAt(run, l) > 0 ==> |AutosAt(p, run, l)| <= conf.maxPaths
  {
    hide TryOk, AutoPairs, PassOk, StoredAt;
    if run == [] {
      NothingStoredAt(l);
      assert AutosAt(p, run, l) == AutoPairs(p.paths.Values);
    } else {
      var s, prior := run[|run| - 1], run[..|run| - 1];
      assert run == prior + [s];
      AutosCount(conf, capacity, p, spent, start, prior, l);
      StoredAtStep(prior, s, run, l);
      if IsStored(s) && s.link == l {
        StoredRow(conf, capacity, p, prior, s);
        RoomMeans(conf, p.pairs[s.pair], AutosAt(p, prior, l), p.hosts);
        assert AutosAt(p, run, l) == AutosAt(p, prior, l) + {s.pair};
        if s.pair in AutosAt(p, prior, l) {
          assert AutosAt(p, run, l) == AutosAt(p, prior, l);
        } else {
          assert IsBirth(s);
        }
      } else {
        assert AutosAt(p, run, l) == AutosAt(p, prior, l);
      }
    }
  }

  lemma NothingStoredAt(l: Link)
    ensures StoredAt([], l) == {}
  {
  }

  lemma RoomMeans(conf: Conf, pr: PairInfo, autos: set<Pair>, hosts: map<Port, Node>)
    ensures RoomForAnother(conf, pr, autos, hosts) ==> |autos| < conf.maxPaths
  {
  }

  lemma {:induction false} BirthsAreMoves(run: seq<Step>)
    ensures Births(run) <= Moves(run)
  {
    if run != [] {
      BirthsAreMoves(run[..|run| - 1]);
    }
  }

  lemma {:induction false} BirthsSplit(run: seq<Step>, links: set<Link>, l: Link)
    requires l in links
    ensures BirthsWithin(run, links) == BirthsWithin(run, links - {l}) + BirthsAt(run, l)
  {
    if run != [] {
      BirthsSplit(run[..|run| - 1], links, l);
    }
  }

  lemma {:induction false} BirthsAll(conf: Conf, capacity: Rates, p: Pass, spent: nat, start: World, run: seq<Step>)
    requires Tries(conf, capacity, p, spent, start, run)
    ensures BirthsWithin(run, p.congested.Keys) == Births(run)
  {
    hide IsNext, OutcomeOk, Load, PairsOn;
    if run != [] {
      BirthsAll(conf, capacity, p, spent, start, run[..|run| - 1]);
    }
  }

  lemma {:induction false} BirthsNowhere(run: seq<Step>)
    ensures BirthsWithin(run, {}) == 0
  {
    if run != [] {
      BirthsNowhere(run[..|run| - 1]);
    }
  }

  // Each of the links makes at most what the cap leaves.
  lemma {:induction false} BirthsBound(conf: Conf, capacity: Rates, p: Pass, spent: nat, start: World, run: seq<Step>,
                                       links: set<Link>, room: nat)
    requires PassOk(capacity, p) && Tries(conf, capacity, p, spent, start, run)
    requires if |AutoPairs(p.paths.Values)| <= conf.maxPaths then room == conf.maxPaths - |AutoPairs(p.paths.Values)| else room == 0
    ensures BirthsWithin(run, links) <= |links| * room
    decreases links
  {
    hide Tries, AutoPairs, PassOk;
    if links == {} {
      BirthsNowhere(run);
    } else {
      var l :| l in links;
      BirthsBound(conf, capacity, p, spent, start, run, links - {l}, room);
      BirthsSplit(run, links, l);
      AutosCount(conf, capacity, p, spent, start, run, l);
      assert |links - {l}| == |links| - 1;
      assert |links| * room == (|links| - 1) * room + room;
    }
  }

  // ------------------------------------------------------------------
  // The stored automatic paths, counted
  // ------------------------------------------------------------------
  // Every automatic row is for a pair the pass began with, or was made in it.
  ghost predicate Grown(p: Pass, paths: map<PathId, TePath>) {
    forall id | id in paths && IsAuto(paths[id]) ::
      PairOf(paths[id]) in AutoPairs(p.paths.Values) || IsOwn(p, paths[id])
  }

  ghost predicate IsOwn(p: Pass, row: TePath)
    requires IsAuto(row)
  {
    PairOf(row) in p.pairs && row.domain == p.pairs[PairOf(row)].domain
  }

  lemma {:induction false} RowsCount(conf: Conf, capacity: Rates, p: Pass, spent: nat, start: World, run: seq<Step>)
    requires PassOk(capacity, p) && Tries(conf, capacity, p, spent, start, run) && start.paths == p.paths
    ensures |AutoPairs(EndOf(start, run).paths.Values)| == |AutoPairs(p.paths.Values)| + Births(run)
    ensures Grown(p, EndOf(start, run).paths)
  {
    hide TryOk, AutoPairs, PassOk;
    if run == [] {
      InValues(p.paths);
    } else {
      var s, prior := run[|run| - 1], run[..|run| - 1];
      RowsCount(conf, capacity, p, spent, start, prior);
      if IsStored(s) {
        StoredRow(conf, capacity, p, prior, s);
        if IsBirth(s) {
          BirthIsNew(p, prior, s);
          PairsWith(s.before.paths, s.outcome.row);
        } else {
          PairsMoved(s.before.paths, s.outcome.row);
        }
      } else {
        NothingStored(conf, capacity, p, prior, s);
      }
    }
  }

  lemma InValues(paths: map<PathId, TePath>)
    ensures forall id | id in paths && IsAuto(paths[id]) :: PairOf(paths[id]) in AutoPairs(paths.Values)
  {
    forall id | id in paths && IsAuto(paths[id])
      ensures PairOf(paths[id]) in AutoPairs(paths.Values)
    {
      assert paths[id] in paths.Values;
    }
  }

  lemma BirthIsNew(p: Pass, prior: seq<Step>, s: Step)
    requires IsBirth(s) && IsAuto(s.outcome.row) && PairOf(s.outcome.row) == s.pair && s.pair in p.pairs
    requires s.pair !in AutosAt(p, prior, s.link) && Grown(p, s.before.paths)
    requires s.outcome.row.domain == p.pairs[s.pair].domain
    requires forall id | id in s.before.paths ::
               !(s.before.paths[id].domain == s.outcome.row.domain && s.before.paths[id].to == s.outcome.row.to
                 && s.before.paths[id].from_ == s.outcome.row.from_)
    ensures s.pair !in AutoPairs(s.before.paths.Values)
  {
    hide StoredAt;
    forall id | id in s.before.paths && IsAuto(s.before.paths[id])
      ensures PairOf(s.before.paths[id]) != s.pair
    {
      assert PairOf(s.before.paths[id]) in AutoPairs(p.paths.Values) || IsOwn(p, s.before.paths[id]);
    }
  }

  lemma PairsWith(paths: map<PathId, TePath>, row: TePath)
    requires row.id !in paths && IsAuto(row)
    ensures AutoPairs(paths[row.id := row].Values) == AutoPairs(paths.Values) + {PairOf(row)}
  {
    assert paths[row.id := row].Values == paths.Values + {row} by {
      assert row.id in paths[row.id := row];
      forall v | v in paths.Values
        ensures v in paths[row.id := row].Values
      {
        var id :| id in paths && paths[id] == v;
        assert paths[row.id := row][id] == v;
      }
    }
  }

  lemma PairsMoved(paths: map<PathId, TePath>, row: TePath)
    requires row.id in paths && IsAuto(row) && IsAuto(paths[row.id]) && PairOf(paths[row.id]) == PairOf(row)
    ensures AutoPairs(paths[row.id := row].Values) == AutoPairs(paths.Values)
  {
    var after := paths[row.id := row];
    forall k
      ensures k in AutoPairs(after.Values) <==> k in AutoPairs(paths.Values)
    {
      InValues(after);
      InValues(paths);
      if k in AutoPairs(after.Values) {
        var q :| q in after.Values && IsAuto(q) && PairOf(q) == k;
        var id :| id in after && after[id] == q;
        assert IsAuto(paths[id]) && PairOf(paths[id]) == k;
      }
      if k in AutoPairs(paths.Values) {
        var q :| q in paths.Values && IsAuto(q) && PairOf(q) == k;
        var id :| id in paths && paths[id] == q;
        assert IsAuto(after[id]) && PairOf(after[id]) == k;
      }
    }
  }

  // ------------------------------------------------------------------
  // te_auto_max_paths
  // ------------------------------------------------------------------
  // A pass ends with the automatic paths its moves found and those it made:
  // at most what is left of the budget, and for each congested link at most
  // what the cap left when the moves began.
  lemma CapBound(conf: Conf, capacity: Rates, p: Pass, looks: seq<Step>, tries: seq<Step>, start: World, end: World)
    requires PassOk(capacity, p) && PassRun(conf, capacity, p, looks, tries, start, end)
    ensures var stale := |AutoPairs(p.paths.Values)|;
            var room := if stale <= conf.maxPaths then conf.maxPaths - stale else 0;
            && |AutoPairs(end.paths.Values)| == stale + Births(tries)
            && Births(tries) <= conf.maxMoves - Releases(looks)
            && Births(tries) <= |p.congested| * room
  {
    hide *;
    PassParts(conf, capacity, p, looks, tries, start, end);
    var stale := |AutoPairs(p.paths.Values)|;
    var room: nat := if stale <= conf.maxPaths then conf.maxPaths - stale else 0;
    RowsCount(conf, capacity, p, Releases(looks), EndOf(start, looks), tries);
    BirthsAreMoves(tries);
    BirthsAll(conf, capacity, p, Releases(looks), EndOf(start, looks), tries);
    BirthsBound(conf, capacity, p, Releases(looks), EndOf(start, looks), tries, p.congested.Keys, room);
    assert |p.congested.Keys| == |p.congested|;
  }

  lemma PassParts(conf: Conf, capacity: Rates, p: Pass, looks: seq<Step>, tries: seq<Step>, start: World, end: World)
    requires PassRun(conf, capacity, p, looks, tries, start, end)
    ensures Tries(conf, capacity, p, Releases(looks), EndOf(start, looks), tries) && EndOf(start, looks).paths == p.paths
    ensures Releases(looks) + Moves(tries) <= conf.maxMoves && end == EndOf(EndOf(start, looks), tries)
  {
    hide Looks, Tries, LooksDone, LinkLeft;
  }

  // Whoever passes the cap had two congested links, room for one more path,
  // and a budget larger than that room.
  lemma OverrunNeeds(conf: Conf, capacity: Rates, p: Pass, looks: seq<Step>, tries: seq<Step>, start: World, end: World)
    requires PassOk(capacity, p) && PassRun(conf, capacity, p, looks, tries, start, end)
    requires |AutoPairs(p.paths.Values)| <= conf.maxPaths < |AutoPairs(end.paths.Values)|
    ensures |p.congested| >= 2 && |AutoPairs(p.paths.Values)| < conf.maxPaths
    ensures conf.maxMoves - Releases(looks) > conf.maxPaths - |AutoPairs(p.paths.Values)|
  {
    hide *;
    CapBound(conf, capacity, p, looks, tries, start, end);
    OverrunNumbers(|p.congested|, |AutoPairs(p.paths.Values)|, conf.maxPaths, Births(tries), conf.maxMoves - Releases(looks));
  }

  lemma OverrunNumbers(n: nat, stale: nat, cap: nat, births: nat, budget: int)
    requires stale <= cap < stale + births && births <= budget && births <= n * (cap - stale)
    ensures n >= 2 && stale < cap && budget > cap - stale
  {
    Products(n, cap - stale);
  }

  lemma Products(n: nat, room: nat)
    ensures n == 0 || room == 0 ==> n * room == 0
    ensures n == 1 ==> n * room == room
  {
  }

  // ------------------------------------------------------------------
  // te_auto_max_rules_per_host
  // ------------------------------------------------------------------
  // Every VM the pass measured on a node is there by every measurement.
  predicate OnePlace(p: Pass, h: Node) {
    forall k | k in p.pairs && k.0 in p.hosts && p.hosts[k.0] == h :: p.pairs[k].shost == h
  }

  // While one link is steered, the VMs of a node that are counted for it, the
  // stored ones and those it moved itself, stay within the cap unless more
  // were stored already.
  lemma {:induction false} RulesBound(conf: Conf, capacity: Rates, p: Pass, spent: nat, start: World, run: seq<Step>, l: Link, h: Node)
    requires PassOk(capacity, p) && Tries(conf, capacity, p, spent, start, run) && OnePlace(p, h)
    ensures |SteeredOn(AutosAt(p, run, l), p.hosts, h)| <= conf.maxRules
            || SteeredOn(AutosAt(p, run, l), p.hosts, h) == SteeredOn(AutoPairs(p.paths.Values), p.hosts, h)
  {
    hide TryOk, AutoPairs, PassOk, StoredAt, SteeredOn;
    if run == [] {
      NothingStoredAt(l);
      assert AutosAt(p, run, l) == AutoPairs(p.paths.Values);
    } else {
      var s, prior := run[|run| - 1], run[..|run| - 1];
      assert run == prior + [s];
      RulesBound(conf, capacity, p, spent, start, prior, l, h);
      StoredAtStep(prior, s, run, l);
      if IsStored(s) && s.link == l {
        StoredRow(conf, capacity, p, prior, s);
        NextPart(conf, capacity, p, prior, s);
        assert AutosAt(p, run, l) == AutosAt(p, prior, l) + {s.pair};
        if s.pair in AutosAt(p, prior, l) {
          assert AutosAt(p, run, l) == AutosAt(p, prior, l);
        } else {
          SteeredWith(conf, p, AutosAt(p, prior, l), s.pair, h);
        }
      } else {
        assert AutosAt(p, run, l) == AutosAt(p, prior, l);
      }
    }
  }

  lemma NextPart(conf: Conf, capacity: Rates, p: Pass, prior: seq<Step>, s: Step)
    requires PassOk(capacity, p) && TryOk(conf, capacity, p, prior, s)
    ensures s.pair in p.pairs && p.pairs[s.pair].sport == s.pair.0
  {
    NextIsCandidate(conf, capacity, p, prior, s.link, s.pair);
    CandidateParts(conf, capacity, p, s.link, s.pair);
    hide PassOk, IsNext, Load, AutosAt, PairsOn, OutcomeOk, Candidates;
  }

  lemma SteeredWith(conf: Conf, p: Pass, autos: set<Pair>, k: Pair, h: Node)
    requires k in p.pairs && p.pairs[k].sport == k.0 && RoomForAnother(conf, p.pairs[k], autos, p.hosts) && OnePlace(p, h)
    ensures |SteeredOn(autos + {k}, p.hosts, h)| <= conf.maxRules
            || SteeredOn(autos + {k}, p.hosts, h) == SteeredOn(autos, p.hosts, h)
  {
    var before, after := SteeredOn(autos, p.hosts, h), SteeredOn(autos + {k}, p.hosts, h);
    if k.0 in p.hosts && p.hosts[k.0] == h && k.0 !in before {
      assert after == before + {k.0};
      assert p.pairs[k].shost == h;
    } else {
      assert after == before;
    }
  }

  // ------------------------------------------------------------------
  // The steered VMs of a node over a whole pass
  // ------------------------------------------------------------------
  // Where each VM is: where it was measured, or else where it is bound.
  function Homes(p: Pass): map<Port, Node> {
    p.bound + p.hosts
  }

  // The VMs on a node that have automatic paths, measured or not.
  function VmsOn(p: Pass, pairs: set<Pair>, h: Node): set<Port> {
    SteeredOn(pairs, Homes(p), h)
  }

  function Spare(cap: nat, held: nat): nat {
    if held <= cap then cap - held else 0
  }

  function Least(a: nat, b: nat): nat {
    if a <= b then a else b
  }

  ghost function StoredFor(run: seq<Step>, links: set<Link>): set<Pair> {
    set i | 0 <= i < |run| && IsStored(run[i]) && run[i].link in links :: run[i].pair
  }

  lemma CountWithin<T>(a: set<T>, b: set<T>)
    requires a <= b
    ensures |a| <= |b|
  {
    assert b == a + (b - a);
  }

  lemma CountBoth<T>(a: set<T>, b: set<T>)
    ensures |a + b| <= |a| + |b|
  {
    assert a + b == a + (b - a);
    CountWithin(b - a, b);
  }

  lemma {:induction false} CountSources(pairs: set<Pair>, hosts: map<Port, Node>, h: Node)
    ensures |SteeredOn(pairs, hosts, h)| <= |pairs|
    decreases pairs
  {
    if pairs != {} {
      var k :| k in pairs;
      CountSources(pairs - {k}, hosts, h);
      CountWithin(SteeredOn(pairs, hosts, h), SteeredOn(pairs - {k}, hosts, h) + {k.0});
    }
  }

  lemma SteeredBoth(a: set<Pair>, b: set<Pair>, hosts: map<Port, Node>, h: Node)
    ensures SteeredOn(a + b, hosts, h) == SteeredOn(a, hosts, h) + SteeredOn(b, hosts, h)
  {
  }

  // A pass ends with the automatic paths its moves found and those it stored.
  lemma {:induction false} PairsAfter(conf: Conf, capacity: Rates, p: Pass, spent: nat, start: World, run: seq<Step>)
    requires PassOk(capacity, p) && Tries(conf, capacity, p, spent, start, run) && start.paths == p.paths
    ensures AutoPairs(EndOf(start, run).paths.Values) == AutoPairs(p.paths.Values) + StoredIn(run)
  {
    hide TryOk, AutoPairs, PassOk, StoredIn, Moves;
    if run == [] {
      NothingStoredIn();
    } else {
      var s, prior := run[|run| - 1], run[..|run| - 1];
      assert run == prior + [s];
      PairsAfter(conf, capacity, p, spent, start, prior);
      StoredInStep(prior, s, run);
      PairsStep(conf, capacity, p, prior, s);
    }
  }

  lemma PairsStep(conf: Conf, capacity: Rates, p: Pass, prior: seq<Step>, s: Step)
    requires PassOk(capacity, p) && TryOk(conf, capacity, p, prior, s)
    ensures AutoPairs(s.after.paths.Values) == AutoPairs(s.before.paths.Values) + if IsStored(s) then {s.pair} else {}
  {
    hide TryOk, AutoPairs, PassOk;
    if IsStored(s) {
      StoredRow(conf, capacity, p, prior, s);
      if IsBirth(s) {
        PairsWith(s.before.paths, s.outcome.row);
      } else {
        InValues(s.before.paths);
        PairsMoved(s.before.paths, s.outcome.row);
      }
    } else {
      NothingStored(conf, capacity, p, prior, s);
    }
  }

  // What is stored is stored for a congested link, and of a measured pair.
  lemma {:induction false} StoredParts0(conf: Conf, capacity: Rates, p: Pass, spent: nat, start: World, run: seq<Step>, i: nat)
    requires PassOk(capacity, p) && Tries(conf, capacity, p, spent, start, run) && i < |run| && IsStored(run[i])
    ensures run[i].link in p.congested && run[i].pair in p.pairs && run[i].pair.0 in p.hosts
  {
    var prior := run[..|run| - 1];
    if i == |run| - 1 {
      TriedOk(conf, capacity, p, spent, start, run);
      StoredParts(conf, capacity, p, prior, run[i]);
      MeasuredHost(capacity, p, run[i].pair);
    } else {
      hide TryOk, PassOk, Moves;
      assert prior[i] == run[i];
      StoredParts0(conf, capacity, p, spent, start, prior, i);
    }
  }

  lemma TriedOk(conf: Conf, capacity: Rates, p: Pass, spent: nat, start: World, run: seq<Step>)
    requires Tries(conf, capacity, p, spent, start, run) && run != []
    ensures TryOk(conf, capacity, p, run[..|run| - 1], run[|run| - 1])
  {
    hide TryOk;
  }

  lemma MeasuredHost(capacity: Rates, p: Pass, k: Pair)
    requires PassOk(capacity, p) && k in p.pairs
    ensures k.0 in p.hosts
  {
    hide HeatOk;
    assert p.pairs[k].sport == k.0;
  }

  lemma StoredForAll(conf: Conf, capacity: Rates, p: Pass, spent: nat, start: World, run: seq<Step>)
    requires PassOk(capacity, p) && Tries(conf, capacity, p, spent, start, run)
    ensures StoredFor(run, p.congested.Keys) == StoredIn(run)
  {
    hide PassOk, Tries;
    forall i | 0 <= i < |run| && IsStored(run[i])
      ensures run[i].link in p.congested
    {
      StoredParts0(conf, capacity, p, spent, start, run, i);
    }
  }

  lemma StoredForSplit(run: seq<Step>, links: set<Link>, l: Link)
    requires l in links
    ensures StoredFor(run, links) == StoredFor(run, links - {l}) + StoredAt(run, l)
  {
  }

  // One link adds to a node at most what either cap left.
  lemma LinkAdds(conf: Conf, capacity: Rates, p: Pass, spent: nat, start: World, run: seq<Step>, l: Link, h: Node)
    requires PassOk(capacity, p) && Tries(conf, capacity, p, spent, start, run) && OnePlace(p, h)
    ensures var stale := AutoPairs(p.paths.Values);
            var added := VmsOn(p, StoredAt(run, l), h) - VmsOn(p, stale, h);
            |added| <= Least(Spare(conf.maxRules, |SteeredOn(stale, p.hosts, h)|), Spare(conf.maxPaths, |stale|))
  {
    hide *;
    var stale := AutoPairs(p.paths.Values);
    StoredMeasured(conf, capacity, p, spent, start, run, l);
    FreshVms(p, stale, StoredAt(run, l), h);
    AutosAtIs(p, run, l);
    RulesBound(conf, capacity, p, spent, start, run, l, h);
    AutosCount(conf, capacity, p, spent, start, run, l);
    AddedFits(conf, p, stale, StoredAt(run, l), h, BirthsAt(run, l));
  }

  lemma AutosAtIs(p: Pass, run: seq<Step>, l: Link)
    ensures AutosAt(p, run, l) == AutoPairs(p.paths.Values) + StoredAt(run, l)
  {
  }

  lemma AddedFits(conf: Conf, p: Pass, stale: set<Pair>, stored: set<Pair>, h: Node, births: nat)
    requires var added := VmsOn(p, stored, h) - VmsOn(p, stale, h);
             && added <= SteeredOn(stale + stored, p.hosts, h) - SteeredOn(stale, p.hosts, h)
             && added <= SteeredOn(stale + stored - stale, Homes(p), h)
    requires |SteeredOn(stale + stored, p.hosts, h)| <= conf.maxRules
             || SteeredOn(stale + stored, p.hosts, h) == SteeredOn(stale, p.hosts, h)
    requires |stale + stored| == |stale| + births && (births > 0 ==> |stale + stored| <= conf.maxPaths)
    ensures |VmsOn(p, stored, h) - VmsOn(p, stale, h)|
            <= Least(Spare(conf.maxRules, |SteeredOn(stale, p.hosts, h)|), Spare(conf.maxPaths, |stale|))
  {
    var added := VmsOn(p, stored, h) - VmsOn(p, stale, h);
    var before, after := SteeredOn(stale, p.hosts, h), SteeredOn(stale + stored, p.hosts, h);
    SteeredBoth(stale, stored, p.hosts, h);
    hide SteeredOn, VmsOn, Homes;
    CountWithin(added, after - before);
    CountApart(before, after);
    CountWithin(added, SteeredOn(stale + stored - stale, Homes(p), h));
    CountSources(stale + stored - stale, Homes(p), h);
    CountApart(stale, stale + stored);
  }

  lemma CountApart<T>(a: set<T>, b: set<T>)
    requires a <= b
    ensures |b - a| == |b| - |a|
  {
    assert b == a + (b - a);
  }

  lemma StoredMeasured(conf: Conf, capacity: Rates, p: Pass, spent: nat, start: World, run: seq<Step>, l: Link)
    requires PassOk(capacity, p) && Tries(conf, capacity, p, spent, start, run)
    ensures forall k | k in StoredAt(run, l) :: k.0 in p.hosts
  {
    hide PassOk, Tries;
    forall k | k in StoredAt(run, l)
      ensures k.0 in p.hosts
    {
      var i :| 0 <= i < |run| && IsStored(run[i]) && run[i].link == l && run[i].pair == k;
      StoredParts0(conf, capacity, p, spent, start, run, i);
    }
  }

  // A VM newly steered was measured, so both counts see it.
  lemma FreshVms(p: Pass, stale: set<Pair>, stored: set<Pair>, h: Node)
    requires forall k | k in stored :: k.0 in p.hosts
    ensures var added := VmsOn(p, stored, h) - VmsOn(p, stale, h);
            && added <= SteeredOn(stale + stored, p.hosts, h) - SteeredOn(stale, p.hosts, h)
            && added <= SteeredOn(stale + stored - stale, Homes(p), h)
  {
  }

  lemma {:induction false} LinksAdd(conf: Conf, capacity: Rates, p: Pass, spent: nat, start: World, run: seq<Step>,
                                    links: set<Link>, h: Node, room: nat)
    requires PassOk(capacity, p) && Tries(conf, capacity, p, spent, start, run) && OnePlace(p, h)
    requires var stale := AutoPairs(p.paths.Values);
             room == Least(Spare(conf.maxRules, |SteeredOn(stale, p.hosts, h)|), Spare(conf.maxPaths, |stale|))
    ensures var stale := AutoPairs(p.paths.Values);
            |VmsOn(p, StoredFor(run, links), h) - VmsOn(p, stale, h)| <= |links| * room
    decreases links
  {
    hide *;
    var stale := AutoPairs(p.paths.Values);
    var held := VmsOn(p, stale, h);
    if links == {} {
      NothingFor(p, run, h);
      assert VmsOn(p, StoredFor(run, links), h) - held == {};
    } else {
      var l :| l in links;
      LinksAdd(conf, capacity, p, spent, start, run, links - {l}, h, room);
      LinkAdds(conf, capacity, p, spent, start, run, l, h);
      StoredForSplit(run, links, l);
      VmsBoth(p, StoredFor(run, links - {l}), StoredAt(run, l), h);
      var some, more := VmsOn(p, StoredFor(run, links - {l}), h) - held, VmsOn(p, StoredAt(run, l), h) - held;
      assert VmsOn(p, StoredFor(run, links), h) - held == some + more;
      CountBoth(some, more);
      assert |links - {l}| == |links| - 1;
      assert |links| * room == (|links| - 1) * room + room;
    }
  }

  lemma NothingFor(p: Pass, run: seq<Step>, h: Node)
    ensures VmsOn(p, StoredFor(run, {}), h) == {}
  {
  }

  lemma VmsBoth(p: Pass, a: set<Pair>, b: set<Pair>, h: Node)
    ensures VmsOn(p, a + b, h) == VmsOn(p, a, h) + VmsOn(p, b, h)
  {
    SteeredBoth(a, b, Homes(p), h);
  }

  // The moves of a pass take no steered VM off a node, and add to it at most
  // what is left of the budget, and for each congested link at most what the
  // two caps left when they began. Of the VMs that have a path then, only the
  // measured ones count against te_auto_max_rules_per_host.
  lemma RulesGrowth(conf: Conf, capacity: Rates, p: Pass, looks: seq<Step>, tries: seq<Step>, start: World, end: World, h: Node)
    requires PassOk(capacity, p) && PassRun(conf, capacity, p, looks, tries, start, end) && OnePlace(p, h)
    ensures var stale := AutoPairs(p.paths.Values);
            var before, after := VmsOn(p, stale, h), VmsOn(p, AutoPairs(end.paths.Values), h);
            var room := Least(Spare(conf.maxRules, |SteeredOn(stale, p.hosts, h)|), Spare(conf.maxPaths, |stale|));
            && before <= after
            && |after| - |before| <= conf.maxMoves - Releases(looks)
            && |after| - |before| <= |p.congested| * room
  {
    hide *;
    PassParts(conf, capacity, p, looks, tries, start, end);
    var spent, middle, stale := Releases(looks), EndOf(start, looks), AutoPairs(p.paths.Values);
    var before, after := VmsOn(p, stale, h), VmsOn(p, AutoPairs(end.paths.Values), h);
    var room := Least(Spare(conf.maxRules, |SteeredOn(stale, p.hosts, h)|), Spare(conf.maxPaths, |stale|));
    PairsAfter(conf, capacity, p, spent, middle, tries);
    RowsCount(conf, capacity, p, spent, middle, tries);
    BirthsAreMoves(tries);
    VmsBoth(p, stale, StoredIn(tries), h);
    var made := AutoPairs(end.paths.Values) - stale;
    VmsBoth(p, stale, made, h);
    assert stale + made == AutoPairs(end.paths.Values);
    CountApart(stale, AutoPairs(end.paths.Values));
    VmsCount(p, made, h);
    CountApart(before, after);
    CountWithin(after - before, VmsOn(p, made, h));
    StoredForAll(conf, capacity, p, spent, middle, tries);
    LinksAdd(conf, capacity, p, spent, middle, tries, p.congested.Keys, h, room);
    assert after - before == VmsOn(p, StoredIn(tries), h) - before;
    assert |p.congested.Keys| == |p.congested|;
  }

  lemma VmsCount(p: Pass, pairs: set<Pair>, h: Node)
    ensures |VmsOn(p, pairs, h)| <= |pairs|
  {
    CountSources(pairs, Homes(p), h);
  }
}
