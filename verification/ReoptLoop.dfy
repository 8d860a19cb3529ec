// The loops of a pass, step by step: what holds between two tries.

module ReoptLoop {
  import opened Graph
  import opened Totals
  import opened TeRows
  import opened ReoptMemory
  import opened ReoptPass
  import opened ReoptRun

  // ------------------------------------------------------------------
  // The looks
  // ------------------------------------------------------------------
  // The automatic paths not looked at yet are still stored as they were.
  ghost predicate Looking(conf: Conf, capacity: Rates, p: Pass, start: World, run: seq<Step>, now: World, todo: set<TePath>) {
    && Looks(conf, capacity, p, start, run) && EndOf(start, run) == now && RowsOk(start.paths) && RowsOk(now.paths)
    && Releases(run) <= conf.maxMoves
    && (forall row | row in todo :: row.auto && row.id in now.paths && now.paths[row.id] == row && !LookedAt(run, row.id))
    && forall id | id in start.paths && start.paths[id].auto :: start.paths[id] in todo || LookedAt(run, id)
  }

  lemma LooksStart(conf: Conf, capacity: Rates, p: Pass, start: World, todo: set<TePath>)
    requires RowsOk(start.paths) && todo == set id | id in start.paths && start.paths[id].auto :: start.paths[id]
    ensures Looking(conf, capacity, p, start, [], start, todo)
  {
  }

  lemma LookedAtStep(run: seq<Step>, s: Step, id: PathId)
    ensures LookedAt(run + [s], id) <==> LookedAt(run, id) || (s.Look? && s.row.id == id)
  {
    var more := run + [s];
    assert more[|run|] == s;
    if LookedAt(run, id) {
      var i :| 0 <= i < |run| && run[i].Look? && run[i].row.id == id;
      assert more[i] == run[i];
    }
  }

  lemma LooksStep(conf: Conf, capacity: Rates, p: Pass, start: World, run: seq<Step>, now: World, todo: set<TePath>, s: Step)
    requires Looking(conf, capacity, p, start, run, now, todo) && Releases(run) < conf.maxMoves
    requires LookOk(conf, capacity, p, s) && s.before == now && s.row in todo
    ensures Looking(conf, capacity, p, start, run + [s], s.after, todo - {s.row})
    ensures Releases(run + [s]) == Releases(run) + if s.released then 1 else 0
  {
    var more := run + [s];
    assert more[..|more| - 1] == run;
    forall id
      ensures LookedAt(more, id) <==> LookedAt(run, id) || s.row.id == id
    {
      LookedAtStep(run, s, id);
    }
    LookKeeps(conf, capacity, p, s);
    hide LookOk, LookedAt;
    forall row | row in todo - {s.row}
      ensures row.auto && row.id in s.after.paths && s.after.paths[row.id] == row && !LookedAt(more, row.id)
    {
      assert row.id != s.row.id;
    }
    forall id | id in start.paths && start.paths[id].auto
      ensures start.paths[id] in todo - {s.row} || LookedAt(more, id)
    {
      assert start.paths[id].id == id;
    }
    assert Looks(conf, capacity, p, start, more);
    hide Looks;
  }

  lemma LookKeeps(conf: Conf, capacity: Rates, p: Pass, s: Step)
    requires LookOk(conf, capacity, p, s)
    ensures s.after.paths == if s.released then s.before.paths - {s.row.id} else s.before.paths
    ensures s.after.refused == s.before.refused
  {
    hide FloorIs, Due, HopsOf, IdleAfter;
  }

  lemma LooksEnd(conf: Conf, capacity: Rates, p: Pass, start: World, run: seq<Step>, now: World, todo: set<TePath>)
    requires Looking(conf, capacity, p, start, run, now, todo)
    requires todo == {} || Releases(run) == conf.maxMoves
    ensures Looks(conf, capacity, p, start, run) && LooksDone(conf, start, run) && EndOf(start, run) == now && RowsOk(now.paths)
    ensures Releases(run) <= conf.maxMoves
  {
    hide Looks, LookedAt;
  }

  // The looks do not depend on the paths read after them.
  lemma {:induction false} LooksBefore(conf: Conf, capacity: Rates, p: Pass, start: World, run: seq<Step>, q: Pass)
    requires Looks(conf, capacity, p, start, run) && q == p.(paths := q.paths)
    ensures Looks(conf, capacity, q, start, run)
  {
    hide LookOk, LookedAt;
    if run != [] {
      LooksBefore(conf, capacity, p, start, run[..|run| - 1], q);
      LookBefore(conf, capacity, p, run[|run| - 1], q);
    }
  }

  lemma LookBefore(conf: Conf, capacity: Rates, p: Pass, s: Step, q: Pass)
    requires LookOk(conf, capacity, p, s) && q == p.(paths := q.paths)
    ensures LookOk(conf, capacity, q, s)
  {
    hide FloorIs, RoomAgain, LinksOf, DefaultLinks, HeldDown, MarkAll;
  }

  // ------------------------------------------------------------------
  // The tries
  // ------------------------------------------------------------------
  // Rows stored before stay in place.
  ghost predicate Kept(paths0: map<PathId, TePath>, paths: map<PathId, TePath>) {
    forall id | id in paths0 :: id in paths && paths[id] == paths0[id].(via := paths[id].via)
  }

  ghost predicate AutosHere(autos: map<Pair, TePath>, paths: map<PathId, TePath>) {
    forall k | k in autos :: IsHere(k, autos[k].id, paths)
  }

  ghost predicate IsHere(k: Pair, id: PathId, paths: map<PathId, TePath>) {
    id in paths && IsAuto(paths[id]) && PairOf(paths[id]) == k
  }

  ghost predicate Trying(conf: Conf, capacity: Rates, p: Pass, spent: nat, start: World, run: seq<Step>, now: World) {
    && PassOk(capacity, p) && Tries(conf, capacity, p, spent, start, run) && EndOf(start, run) == now
    && RowsOk(now.paths) && Kept(p.paths, now.paths) && spent + Moves(run) <= conf.maxMoves
  }

  ghost predicate HotterLeft(conf: Conf, capacity: Rates, p: Pass, run: seq<Step>, l: Link) {
    forall m | m in p.congested && m != l && HotterFirst(capacity, p.congested, m, l) :: LinkLeft(conf, capacity, p, run, m)
  }

  ghost function Untried(conf: Conf, capacity: Rates, p: Pass, run: seq<Step>, l: Link): set<Pair> {
    set k | k in Candidates(conf, capacity, p, l) && !TriedAt(run, l, k)
  }

  // While the pairs of a link are gone through.
  ghost predicate AtLink(conf: Conf, capacity: Rates, p: Pass, l: Link, run: seq<Step>, load: real, moved: map<Pair, PairInfo>,
                         todo: set<Pair>) {
    && l in p.congested && l in capacity && |PairsOn(p.pairs, l)| > 1
    && load == Load(capacity, p, run, l) && moved == MovedIn(p, run)
    && HotterLeft(conf, capacity, p, run, l) && todo == Untried(conf, capacity, p, run, l)
  }

  ghost predicate AutosOk(p: Pass, l: Link, run: seq<Step>, autos: map<Pair, TePath>, paths: map<PathId, TePath>) {
    autos.Keys == AutosAt(p, run, l) && AutosHere(autos, paths)
  }

  // The links tried so far.
  ghost predicate TriedOnly(run: seq<Step>, links: set<Link>) {
    forall i | 0 <= i < |run| :: run[i].Try? && run[i].link in links
  }

  lemma HotterIsOrder(capacity: Rates, congested: Rates, a: Link, b: Link)
    requires HotterFirst(capacity, congested, a, b) && HotterFirst(capacity, congested, b, a)
    ensures a == b
  {
    hide Heat;
  }

  lemma AheadIsOrder(pairs: map<Pair, PairInfo>, a: Pair, b: Pair)
    requires a in pairs && b in pairs && Ahead(pairs, a, b) && Ahead(pairs, b, a)
    ensures a == b
  {
  }

  lemma TriedStep(run: seq<Step>, s: Step, l: Link, k: Pair)
    ensures TriedAt(run + [s], l, k) <==> TriedAt(run, l, k) || (s.Try? && s.link == l && s.pair == k)
  {
    var more := run + [s];
    assert more[|run|] == s;
    if TriedAt(run, l, k) {
      var i :| 0 <= i < |run| && run[i].Try? && run[i].link == l && run[i].pair == k;
      assert more[i] == run[i];
    }
  }

  lemma StoredStep(run: seq<Step>, s: Step, l: Link)
    ensures StoredIn(run + [s]) == StoredIn(run) + if IsStored(s) then {s.pair} else {}
    ensures StoredAt(run + [s], l) == StoredAt(run, l) + if IsStored(s) && s.link == l then {s.pair} else {}
  {
    var more := run + [s];
    assert more[|run|] == s && forall i | 0 <= i < |run| :: more[i] == run[i];
    forall k
      ensures k in StoredIn(more) <==> k in StoredIn(run) || (IsStored(s) && s.pair == k)
      ensures k in StoredAt(more, l) <==> k in StoredAt(run, l) || (IsStored(s) && s.link == l && s.pair == k)
    {
      if k in StoredIn(run) {
        var i :| 0 <= i < |run| && IsStored(run[i]) && run[i].pair == k;
        assert more[i] == run[i];
      }
      if k in StoredAt(run, l) {
        var i :| 0 <= i < |run| && IsStored(run[i]) && run[i].link == l && run[i].pair == k;
        assert more[i] == run[i];
      }
    }
  }

  lemma LoadStep(capacity: Rates, p: Pass, run: seq<Step>, s: Step, l: Link)
    ensures Load(capacity, p, run + [s], l) ==
            Load(capacity, p, run, l) - if Unloads(capacity, p, run, s, l) then RateOn(p.pairs[s.pair].links, l) else 0.0
  {
    assert (run + [s])[..|run|] == run;
  }

  // A cooler link's tries leave a hotter one as it was.
  lemma LeftStays(conf: Conf, capacity: Rates, p: Pass, run: seq<Step>, s: Step, m: Link)
    requires LinkLeft(conf, capacity, p, run, m)
    requires s.Try? && m != s.link && HotterFirst(capacity, p.congested, m, s.link)
    ensures LinkLeft(conf, capacity, p, run + [s], m)
  {
    LoadStep(capacity, p, run, s, m);
    if HotterFirst(capacity, p.congested, s.link, m) {
      HotterIsOrder(capacity, p.congested, m, s.link);
    }
    hide HotterFirst, Load, Candidates, PairsOn, Part;
    forall k | TriedAt(run, m, k)
      ensures TriedAt(run + [s], m, k)
    {
      TriedStep(run, s, m, k);
    }
    hide TriedAt;
  }

  lemma HotterStays(conf: Conf, capacity: Rates, p: Pass, run: seq<Step>, s: Step, l: Link)
    requires HotterLeft(conf, capacity, p, run, l) && s.Try? && s.link == l
    ensures HotterLeft(conf, capacity, p, run + [s], l)
  {
    hide LinkLeft, HotterFirst;
    forall m | m in p.congested && m != l && HotterFirst(capacity, p.congested, m, l)
      ensures LinkLeft(conf, capacity, p, run + [s], m)
    {
      LeftStays(conf, capacity, p, run, s, m);
    }
  }

  lemma NextIs(conf: Conf, capacity: Rates, p: Pass, l: Link, run: seq<Step>, load: real, moved: map<Pair, PairInfo>,
               todo: set<Pair>, k: Pair)
    requires AtLink(conf, capacity, p, l, run, load, moved, todo)
    requires k in todo && todo <= p.pairs.Keys && forall j | j in todo :: Ahead(p.pairs, k, j)
    ensures IsNext(conf, capacity, p, run, l, k)
  {
    hide LinkLeft, Load, MovedIn, HotterFirst;
    forall j | j in Candidates(conf, capacity, p, l) && j != k && Ahead(p.pairs, j, k)
      ensures TriedAt(run, l, j)
    {
      if !TriedAt(run, l, j) {
        assert j in todo;
        AheadIsOrder(p.pairs, j, k);
      }
    }
  }

  lemma UntriedAre(conf: Conf, capacity: Rates, p: Pass, l: Link, run: seq<Step>, load: real, moved: map<Pair, PairInfo>,
                   todo: set<Pair>)
    requires PassOk(capacity, p) && AtLink(conf, capacity, p, l, run, load, moved, todo)
    ensures todo <= p.pairs.Keys && forall k | k in todo :: l in p.pairs[k].links
  {
    hide LinkLeft, Load, MovedIn, HotterFirst, TriedAt;
    forall k | k in todo
      ensures k in p.pairs && l in p.pairs[k].links
    {
      CandidateParts(conf, capacity, p, l, k);
    }
  }

  lemma AtLinkStep(conf: Conf, capacity: Rates, p: Pass, l: Link, run: seq<Step>, load: real, moved: map<Pair, PairInfo>,
                   todo: set<Pair>, s: Step)
    requires AtLink(conf, capacity, p, l, run, load, moved, todo)
    requires s.Try? && s.link == l && s.pair in todo && s.pair in p.pairs && l in p.pairs[s.pair].links
    ensures AtLink(conf, capacity, p, l, run + [s],
                   if IsStored(s) then load - p.pairs[s.pair].links[l] else load,
                   if IsStored(s) then moved[s.pair := p.pairs[s.pair]] else moved, todo - {s.pair})
  {
    LoadStep(capacity, p, run, s, l);
    StoredStep(run, s, l);
    HotterStays(conf, capacity, p, run, s, l);
    UntriedStep(conf, capacity, p, run, l, s);
    hide HotterLeft, HotterFirst, Load, PairsOn, StoredIn, Untried;
  }

  lemma UntriedStep(conf: Conf, capacity: Rates, p: Pass, run: seq<Step>, l: Link, s: Step)
    requires s.Try? && s.link == l
    ensures Untried(conf, capacity, p, run + [s], l) == Untried(conf, capacity, p, run, l) - {s.pair}
  {
    hide Candidates;
    forall k
      ensures TriedAt(run + [s], l, k) <==> TriedAt(run, l, k) || s.pair == k
    {
      TriedStep(run, s, l, k);
    }
    hide TriedAt;
  }

  lemma TryingStep(conf: Conf, capacity: Rates, p: Pass, spent: nat, start: World, run: seq<Step>, now: World, l: Link,
                   load: real, moved: map<Pair, PairInfo>, todo: set<Pair>, autos: map<Pair, TePath>, s: Step)
    requires Trying(conf, capacity, p, spent, start, run, now) && spent + Moves(run) < conf.maxMoves
    requires AtLink(conf, capacity, p, l, run, load, moved, todo) && load > Part(conf.low, capacity[l])
    requires AutosOk(p, l, run, autos, now.paths)
    requires s.Try? && s.link == l && s.pair in todo && todo <= p.pairs.Keys && forall j | j in todo :: Ahead(p.pairs, s.pair, j)
    requires s.before == now && OutcomeOk(conf, capacity, p, autos.Keys, s)
    ensures Trying(conf, capacity, p, spent, start, run + [s], s.after)
    ensures Moves(run + [s]) == Moves(run) + if IsStored(s) then 1 else 0
    ensures AutosOk(p, l, run + [s], if IsStored(s) then autos[s.pair := s.outcome.row] else autos, s.after.paths)
  {
    hide *;
    TryingParts(conf, capacity, p, spent, start, run, now);
    NextIs(conf, capacity, p, l, run, load, moved, todo, s.pair);
    TryIs(conf, capacity, p, l, run, load, moved, todo, autos, now.paths, s);
    PairIsNamed(conf, capacity, p, autos.Keys, s);
    RowsStep(conf, capacity, p, autos.Keys, s);
    KeptMore(p.paths, now.paths, s.after.paths);
    AutosStep(p, l, run, autos, s);
    TriesStep(conf, capacity, p, spent, start, run, s);
  }

  lemma TryingParts(conf: Conf, capacity: Rates, p: Pass, spent: nat, start: World, run: seq<Step>, now: World)
    requires Trying(conf, capacity, p, spent, start, run, now)
    ensures PassOk(capacity, p) && Tries(conf, capacity, p, spent, start, run) && EndOf(start, run) == now
    ensures RowsOk(now.paths) && Kept(p.paths, now.paths)
  {
    hide PassOk, Tries, Kept, RowsOk;
  }

  lemma TriesStep(conf: Conf, capacity: Rates, p: Pass, spent: nat, start: World, run: seq<Step>, s: Step)
    requires PassOk(capacity, p) && Tries(conf, capacity, p, spent, start, run) && s.before == EndOf(start, run)
    requires TryOk(conf, capacity, p, run, s) && spent + Moves(run) < conf.maxMoves
    requires RowsOk(s.after.paths) && Kept(p.paths, s.after.paths)
    ensures Trying(conf, capacity, p, spent, start, run + [s], s.after)
    ensures Moves(run + [s]) == Moves(run) + if IsStored(s) then 1 else 0
  {
    hide TryOk, RowsOk, Kept, PassOk;
    var more := run + [s];
    assert more[..|more| - 1] == run;
  }

  lemma TryIs(conf: Conf, capacity: Rates, p: Pass, l: Link, run: seq<Step>, load: real, moved: map<Pair, PairInfo>,
              todo: set<Pair>, autos: map<Pair, TePath>, paths: map<PathId, TePath>, s: Step)
    requires AtLink(conf, capacity, p, l, run, load, moved, todo) && load > Part(conf.low, capacity[l])
    requires AutosOk(p, l, run, autos, paths) && s.Try? && s.link == l
    requires IsNext(conf, capacity, p, run, l, s.pair) && OutcomeOk(conf, capacity, p, autos.Keys, s)
    ensures TryOk(conf, capacity, p, run, s)
  {
    hide IsNext, OutcomeOk, Load, AutosAt, AutosHere, PairsOn, MovedIn, HotterLeft, Untried, Part;
  }

  // Whatever a try stores, the rows there stay in place.
  lemma RowsStep(conf: Conf, capacity: Rates, p: Pass, autos: set<Pair>, s: Step)
    requires OutcomeOk(conf, capacity, p, autos, s) && RowsOk(s.before.paths)
    requires s.pair == (p.pairs[s.pair].sport, p.pairs[s.pair].dport)
    ensures RowsOk(s.after.paths) && Kept(s.before.paths, s.after.paths)
    ensures IsStored(s) ==> IsHere(s.pair, s.outcome.row.id, s.after.paths)
  {
    hide Chosen, NoneChosen, RoomForAnother, HeldDown, Remembered;
  }

  lemma KeptMore(a: map<PathId, TePath>, b: map<PathId, TePath>, c: map<PathId, TePath>)
    requires Kept(a, b) && Kept(b, c)
    ensures Kept(a, c)
  {
  }

  lemma AutosStayHere(autos: map<Pair, TePath>, before: map<PathId, TePath>, after: map<PathId, TePath>)
    requires AutosHere(autos, before) && Kept(before, after)
    ensures AutosHere(autos, after)
  {
    forall k | k in autos
      ensures IsHere(k, autos[k].id, after)
    {
      assert IsHere(k, autos[k].id, before);
    }
  }

  lemma AutosStep(p: Pass, l: Link, run: seq<Step>, autos: map<Pair, TePath>, s: Step)
    requires AutosOk(p, l, run, autos, s.before.paths) && s.Try? && s.link == l
    requires Kept(s.before.paths, s.after.paths)
    requires IsStored(s) ==> IsHere(s.pair, s.outcome.row.id, s.after.paths)
    ensures AutosOk(p, l, run + [s], if IsStored(s) then autos[s.pair := s.outcome.row] else autos, s.after.paths)
  {
    StoredStep(run, s, l);
    AutosStayHere(autos, s.before.paths, s.after.paths);
    hide StoredAt, AutoPairs, IsHere, Kept;
  }

  lemma PairIsNamed(conf: Conf, capacity: Rates, p: Pass, autos: set<Pair>, s: Step)
    requires PassOk(capacity, p) && OutcomeOk(conf, capacity, p, autos, s)
    ensures s.Try? && s.pair in p.pairs && s.pair == (p.pairs[s.pair].sport, p.pairs[s.pair].dport)
  {
    hide HeatOk, HostsAre, Chosen, NoneChosen, RowFor, RoomForAnother;
  }

  // The start of the pass's tries, and of a link's.
  lemma TryingStarts(conf: Conf, capacity: Rates, p: Pass, spent: nat, start: World)
    requires PassOk(capacity, p) && RowsOk(start.paths) && p.paths == start.paths && spent <= conf.maxMoves
    ensures Trying(conf, capacity, p, spent, start, [], start)
  {
    hide PassOk;
  }

  lemma AutosStart(p: Pass, l: Link, run: seq<Step>, autos: map<Pair, TePath>, paths: map<PathId, TePath>, links: set<Link>)
    requires RowsOk(p.paths) && Kept(p.paths, paths) && TriedOnly(run, links) && l !in links
    requires autos.Keys == AutoPairs(p.paths.Values)
    requires forall k | k in autos :: autos[k] in p.paths.Values && IsAuto(autos[k]) && PairOf(autos[k]) == k
    ensures AutosOk(p, l, run, autos, paths)
  {
    assert StoredAt(run, l) == {};
    forall k | k in autos
      ensures IsHere(k, autos[k].id, paths)
    {
      var id :| id in p.paths && p.paths[id] == autos[k];
    }
    hide AutoPairs;
  }

  lemma LinkStarts(conf: Conf, capacity: Rates, p: Pass, l: Link, run: seq<Step>, moved: map<Pair, PairInfo>, load: real,
                   links: set<Link>)
    requires l in p.congested && l in capacity && |PairsOn(p.pairs, l)| > 1
    requires load == Load(capacity, p, run, l) && moved == MovedIn(p, run)
    requires HotterLeft(conf, capacity, p, run, l) && TriedOnly(run, links) && l !in links
    ensures AtLink(conf, capacity, p, l, run, load, moved, Candidates(conf, capacity, p, l))
  {
    forall k
      ensures !TriedAt(run, l, k)
    {
    }
    assert Untried(conf, capacity, p, run, l) == Candidates(conf, capacity, p, l);
    hide HotterLeft, Load, PairsOn, MovedIn;
  }

  // When a link is come to, its load is its last measurement less the pairs
  // the pass has moved.
  lemma {:induction false} LoadAtFirst(capacity: Rates, p: Pass, run: seq<Step>, l: Link, links: set<Link>)
    requires PassOk(capacity, p) && l in p.congested && l !in links && TriedOnly(run, links)
    requires forall m | m in links :: HotterFirst(capacity, p.congested, m, l)
    ensures Load(capacity, p, run, l) == p.congested[l] - MovedOff(MovedIn(p, run), l)
  {
    hide HotterFirst, PassOk, Load, MovedOff;
    if run == [] {
      assert MovedIn(p, run) == map[];
      MovedNothing(l);
      LoadIs(capacity, p, l);
    } else {
      var s, prior := run[|run| - 1], run[..|run| - 1];
      assert run == prior + [s];
      LoadAtFirst(capacity, p, prior, l, links);
      LoadStep(capacity, p, prior, s, l);
      StoredStep(prior, s, l);
      assert s.link in links;
      if IsStored(s) && s.pair in p.pairs && s.pair !in StoredIn(prior) {
        assert MovedIn(p, run) == MovedIn(p, prior)[s.pair := p.pairs[s.pair]];
        MovedMore(MovedIn(p, prior), s.pair, p.pairs[s.pair], l);
      } else {
        assert MovedIn(p, run) == MovedIn(p, prior);
      }
    }
  }

  lemma LoadIs(capacity: Rates, p: Pass, l: Link)
    requires l in p.congested
    ensures Load(capacity, p, [], l) == p.congested[l]
  {
  }

  lemma MovedNothing(l: Link)
    ensures MovedOff(map[], l) == 0.0
  {
    var none: map<Pair, PairInfo> := map[];
    assert (map k | k in none :: RateOn(none[k].links, l)) == map[];
  }

  lemma MovedMore(moved: map<Pair, PairInfo>, k: Pair, pr: PairInfo, l: Link)
    requires k !in moved
    ensures MovedOff(moved[k := pr], l) == MovedOff(moved, l) + RateOn(pr.links, l)
  {
    var shares := map j | j in moved :: RateOn(moved[j].links, l);
    var after := moved[k := pr];
    assert (map j | j in after :: RateOn(after[j].links, l)) == shares[k := RateOn(pr.links, l)];
    TotalUpdate(shares, k, RateOn(pr.links, l));
    assert shares - {k} == shares;
  }

  // How a link's tries may end.
  lemma LinkEnds(conf: Conf, capacity: Rates, p: Pass, l: Link, run: seq<Step>, load: real, moved: map<Pair, PairInfo>,
                 todo: set<Pair>)
    requires AtLink(conf, capacity, p, l, run, load, moved, todo)
    requires todo == {} || load <= Part(conf.low, capacity[l])
    ensures LinkLeft(conf, capacity, p, run, l)
  {
    hide HotterLeft, Load, PairsOn, MovedIn, Candidates, TriedAt, Part;
    if todo == {} {
      forall k | k in Candidates(conf, capacity, p, l)
        ensures TriedAt(run, l, k)
      {
        assert k !in Untried(conf, capacity, p, run, l);
      }
    }
  }

  // ------------------------------------------------------------------
  // The loop over the links
  // ------------------------------------------------------------------
  ghost predicate AllLinks(conf: Conf, capacity: Rates, p: Pass, run: seq<Step>, todo: set<Link>) {
    && todo <= p.congested.Keys && TriedOnly(run, p.congested.Keys - todo)
    && (forall m | m in p.congested && m !in todo :: LinkLeft(conf, capacity, p, run, m))
    && forall m, l | m in p.congested && m !in todo && l in todo :: HotterFirst(capacity, p.congested, m, l)
  }

  lemma HotterAreDone(conf: Conf, capacity: Rates, p: Pass, run: seq<Step>, todo: set<Link>, l: Link)
    requires AllLinks(conf, capacity, p, run, todo) && l in todo
    requires forall m | m in todo :: HotterFirst(capacity, p.congested, l, m)
    ensures HotterLeft(conf, capacity, p, run, l)
    ensures forall m | m in p.congested.Keys - todo :: HotterFirst(capacity, p.congested, m, l)
    ensures TriedOnly(run, p.congested.Keys - todo) && l in p.congested
  {
    hide LinkLeft, TriedOnly, HotterFirst;
    forall m | m in p.congested && m != l && HotterFirst(capacity, p.congested, m, l)
      ensures LinkLeft(conf, capacity, p, run, m)
    {
      if m in todo {
        HotterIsOrder(capacity, p.congested, m, l);
      }
    }
  }

  lemma LinksStep(conf: Conf, capacity: Rates, p: Pass, run: seq<Step>, more: seq<Step>, todo: set<Link>, l: Link)
    requires AllLinks(conf, capacity, p, run, todo) && l in todo
    requires forall m | m in todo :: HotterFirst(capacity, p.congested, l, m)
    requires HotterLeft(conf, capacity, p, more, l) && LinkLeft(conf, capacity, p, more, l)
    requires TriedOnly(more, (p.congested.Keys - todo) + {l})
    ensures AllLinks(conf, capacity, p, more, todo - {l})
  {
    hide LinkLeft, HotterFirst;
    assert p.congested.Keys - (todo - {l}) == (p.congested.Keys - todo) + {l};
    hide TriedOnly;
  }

  lemma TriedOnlyStep(run: seq<Step>, s: Step, links: set<Link>)
    requires TriedOnly(run, links) && s.Try? && s.link in links
    ensures TriedOnly(run + [s], links)
  {
  }

  lemma TriedOnlyMore(run: seq<Step>, links: set<Link>, more: set<Link>)
    requires TriedOnly(run, links) && links <= more
    ensures TriedOnly(run, more)
  {
  }
}
