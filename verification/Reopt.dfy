// The re-optimisation: the path table it writes, and the controller.

module Reopt {
  import opened Wrappers
  import opened Graph
  import opened TeRows
  import opened ReoptMemory
  import opened PairView
  import opened ReoptPass
  import opened ReoptRun
  import opened ReoptLoop

  class Plugin {
    const capacity: Rates
    var paths: map<PathId, TePath>
    // New paths the table would not take: which pair's, and which path.
    ghost var refused: seq<(Pair, seq<Node>)>

    constructor (capacity: Rates)
      ensures this.capacity == capacity && paths == map[] && refused == []
    {
      this.capacity, this.paths := capacity, map[];
      refused := [];
    }

    // Moves the pair's path, or creates one. A new one may be refused: a port
    // went, or somebody else made the same path first.
    method PlaceAutoPath(pr: PairInfo, k: Pair, path: seq<Node>, existing: Option<TePath>) returns (placed: Option<TePath>)
      requires RowsOk(paths) && (existing.Some? ==> IsHere(k, existing.value.id, paths))
      modifies this
      ensures placed.Some? ==>
                && RowFor(pr, k, path, old(paths), existing.Some?, placed.value)
                && paths == old(paths)[placed.value.id := placed.value] && refused == old(refused)
      ensures placed.None? ==> existing.None? && paths == old(paths) && refused == old(refused) + [(k, path)]
    {
      if existing.Some? {
        placed := Some(paths[existing.value.id].(via := Via(path)));
        paths := paths[existing.value.id := placed.value];
        return;
      }
      var id: PathId := *;
      var raced: bool := *;
      if raced || id in paths || exists p | p in paths.Keys ::
           paths[p].domain == pr.domain && paths[p].to == ToPort(pr.dport) && paths[p].from_ == FromPort(pr.sport) {
        refused := refused + [(k, path)];
        return None;
      }
      placed := Some(TePath(id, pr.domain, ToPort(pr.dport), FromPort(pr.sport), Via(path), true));
      paths := paths[id := placed.value];
    }

    method ReleaseAutoPath(p: TePath) returns (gone: bool)
      modifies this`paths
      ensures gone <==> p.id in old(paths)
      ensures paths == old(paths) - {p.id}
    {
      gone := p.id in paths;
      paths := paths - {p.id};
    }
  }

  ghost predicate PassReads(conf: Conf, capacity: Rates, r: Reading, now: Time, linkMoved: map<Link, Time>, p: Pass) {
    && p.now == now && IsView(r.view, p.pairs) && HostsAre(p.pairs, p.hosts) && p.bound == r.hostOf
    && p.measured == r.measured && p.dead == r.dead
    && CongestedIs(conf, capacity, r.series, linkMoved, p.congested)
    && p.since == JudgedSince(conf, r.series, p.congested.Keys)
  }

  // What a pass starts from: the memory without what is out of date.
  ghost function Refreshed(conf: Conf, now: Time, w: World): World {
    w.(m := Memory(Unexpired(w.m.moved, now - conf.holdDown), w.m.linkMoved,
                   map id | id in w.m.idleSince && id in w.paths && w.paths[id].auto :: w.m.idleSince[id],
                   StillPending(w.m.pending, now - conf.window)))
  }

  lemma AllArePinned(conf: Conf, capacity: Rates, reading: Pass, p: Pass, looks: seq<Step>, tries: seq<Step>, start: World, end: World)
    requires PassOk(capacity, reading) && p == reading.(paths := p.paths) && PassRun(conf, capacity, p, looks, tries, start, end)
    ensures forall k | k in StoredIn(tries) :: Pinned(p, end, k)
  {
    hide *;
    PassStillOk(capacity, reading, p);
    TriesOf(conf, capacity, p, looks, tries, start, end);
    forall k | k in StoredIn(tries)
      ensures Pinned(p, end, k)
    {
      AllPinned(conf, capacity, p, Releases(looks), EndOf(start, looks), tries, k);
    }
  }

  lemma TriesOf(conf: Conf, capacity: Rates, p: Pass, looks: seq<Step>, tries: seq<Step>, start: World, end: World)
    requires PassRun(conf, capacity, p, looks, tries, start, end)
    ensures Tries(conf, capacity, p, Releases(looks), EndOf(start, looks), tries) && end == EndOf(EndOf(start, looks), tries)
  {
    hide Looks, Tries, LooksDone, LinkLeft;
  }

  lemma RefreshIsSound(conf: Conf, capacity: Rates, clock: Time, now: Time, w: World, log: Log)
    requires Sound(conf, capacity, clock, w.m, log) && clock <= now
    ensures Sound(conf, capacity, now, Refreshed(conf, now, w).m, log)
  {
    hide *;
    var m := w.m.(moved := Unexpired(w.m.moved, now - conf.holdDown), pending := StillPending(w.m.pending, now - conf.window));
    var alive := AutoIds(w.paths);
    SoundPrune(conf, capacity, clock, now, w.m, log);
    SoundForget(conf, capacity, now, m, log, alive);
    RefreshForgets(conf, now, w);
  }

  ghost function AutoIds(paths: map<PathId, TePath>): set<PathId> {
    set id | id in paths && paths[id].auto
  }

  lemma RefreshForgets(conf: Conf, now: Time, w: World)
    ensures var m := w.m.(moved := Unexpired(w.m.moved, now - conf.holdDown), pending := StillPending(w.m.pending, now - conf.window));
            Refreshed(conf, now, w).m ==
            m.(idleSince := map id | id in m.idleSince && id in AutoIds(w.paths) :: m.idleSince[id])
  {
    hide Unexpired, StillPending;
  }

  lemma ReadIsOk(conf: Conf, capacity: Rates, r: Reading, clock: Time, now: Time, m: Memory, log: Log, p: Pass)
    requires NoNegative(r.view) && PassReads(conf, capacity, r, now, m.linkMoved, p) && Sound(conf, capacity, clock, m, log)
    ensures PassOk(capacity, p) && FreshFor(p.now, p.since, log.actions)
  {
    hide *;
    ReadParts(conf, capacity, r, now, m.linkMoved, p);
    ViewNatural(r.view, p.pairs);
    SamplesAreFresh(conf, capacity, r.series, clock, now, m, log, p.congested);
    PassIsOk(capacity, p);
  }

  lemma ReadParts(conf: Conf, capacity: Rates, r: Reading, now: Time, linkMoved: map<Link, Time>, p: Pass)
    requires PassReads(conf, capacity, r, now, linkMoved, p)
    ensures p.now == now && IsView(r.view, p.pairs) && HostsAre(p.pairs, p.hosts)
    ensures CongestedIs(conf, capacity, r.series, linkMoved, p.congested)
    ensures p.since == JudgedSince(conf, r.series, p.congested.Keys)
  {
    hide IsView, HostsAre, CongestedIs, JudgedSince;
  }

  lemma PassIsOk(capacity: Rates, p: Pass)
    requires forall k | k in p.pairs :: RatesNatural(p.pairs[k]) && p.pairs[k].sport == k.0 && p.pairs[k].dport == k.1
    requires HeatOk(capacity, p.congested) && p.congested.Keys <= p.since.Keys && HostsAre(p.pairs, p.hosts)
    ensures PassOk(capacity, p)
  {
    hide HeatOk, HostsAre, RatesNatural;
  }

  lemma AutosAre(p: Pass, l: Link, run: seq<Step>, autos: map<Pair, TePath>, paths: map<PathId, TePath>)
    requires AutosOk(p, l, run, autos, paths)
    ensures AutosHere(autos, paths)
  {
    hide AutosHere, AutosAt;
  }

  lemma StoredMeans(s: Step, placed: Option<TePath>)
    requires placed == if IsStored(s) then Some(s.outcome.row) else None
    ensures placed.Some? <==> IsStored(s)
    ensures IsStored(s) ==> s.outcome.row == placed.value
  {
  }

  lemma AtLinkIs(conf: Conf, capacity: Rates, p: Pass, l: Link, run: seq<Step>, load: real, moved: map<Pair, PairInfo>,
                 todo: set<Pair>)
    requires AtLink(conf, capacity, p, l, run, load, moved, todo)
    ensures HotterLeft(conf, capacity, p, run, l) && moved == MovedIn(p, run)
  {
    hide HotterLeft, Load, MovedIn, Untried, PairsOn;
  }

  lemma LinksStart(conf: Conf, capacity: Rates, p: Pass, spent: nat)
    ensures AllLinks(conf, capacity, p, [], p.congested.Keys) && Moves([]) == 0 && MovedIn(p, []) == map[]
  {
    hide LinkLeft;
  }

  lemma CongestedAre(capacity: Rates, p: Pass)
    requires PassOk(capacity, p)
    ensures HeatOk(capacity, p.congested) && forall l | l in p.congested :: l in capacity
  {
    hide HostsAre;
  }

  lemma LightIsLeft(conf: Conf, capacity: Rates, p: Pass, run: seq<Step>, l: Link)
    requires l in capacity && Load(capacity, p, run, l) <= Part(conf.low, capacity[l])
    ensures LinkLeft(conf, capacity, p, run, l)
  {
    hide Load, Part, Candidates, PairsOn, TriedAt;
  }

  lemma AllDone(conf: Conf, capacity: Rates, p: Pass, spent: nat, run: seq<Step>, todo: set<Link>)
    requires spent + Moves(run) <= conf.maxMoves
    requires spent + Moves(run) == conf.maxMoves || (todo == {} && AllLinks(conf, capacity, p, run, todo))
    ensures TriesDone(conf, capacity, p, spent, run)
  {
    hide LinkLeft, TriedOnly, HotterFirst;
  }

  lemma PassStillOk(capacity: Rates, p: Pass, q: Pass)
    requires PassOk(capacity, p) && q == p.(paths := q.paths)
    ensures PassOk(capacity, q)
  {
    hide HeatOk, HostsAre;
  }

  lemma PassIs(conf: Conf, capacity: Rates, p: Pass, looks: seq<Step>, tries: seq<Step>, start: World, end: World)
    requires Looks(conf, capacity, p, start, looks) && LooksDone(conf, start, looks)
    requires p.paths == EndOf(start, looks).paths
    requires Trying(conf, capacity, p, Releases(looks), EndOf(start, looks), tries, end)
    requires TriesDone(conf, capacity, p, Releases(looks), tries)
    ensures PassRun(conf, capacity, p, looks, tries, start, end)
  {
    hide Looks, LooksDone, Tries, TriesDone, PassOk, Kept, RowsOk;
  }

  lemma ReadsAre(conf: Conf, capacity: Rates, r: Reading, now: Time, linkMoved: map<Link, Time>, p: Pass)
    requires p.now == now && IsView(r.view, p.pairs) && HostsAre(p.pairs, p.hosts) && p.bound == r.hostOf
    requires p.measured == r.measured && p.dead == r.dead && CongestedIs(conf, capacity, r.series, linkMoved, p.congested)
    requires p.since == JudgedSince(conf, r.series, p.congested.Keys)
    ensures PassReads(conf, capacity, r, now, linkMoved, p)
  {
    hide IsView, HostsAre, CongestedIs, JudgedSince;
  }

  lemma ReadsOn(conf: Conf, capacity: Rates, r: Reading, now: Time, linkMoved: map<Link, Time>, p: Pass, q: Pass)
    requires PassReads(conf, capacity, r, now, linkMoved, p) && q == p.(paths := q.paths)
    ensures PassReads(conf, capacity, r, now, linkMoved, q)
  {
    hide IsView, HostsAre, CongestedIs, JudgedSince;
  }

  // The two halves of the refresh: moves and reservations before the looks,
  // idle spells with them.
  lemma RefreshedIs(conf: Conf, now: Time, w: World, v: World)
    requires v == w.(m := w.m.(moved := Unexpired(w.m.moved, now - conf.holdDown),
                               pending := StillPending(w.m.pending, now - conf.window)))
    ensures v.(m := v.m.(idleSince := Refreshed(conf, now, v).m.idleSince)) == Refreshed(conf, now, w)
  {
    hide Unexpired, StillPending;
  }

  class TeReoptimiser {
    const plugin: Plugin
    const conf: Conf
    // pair -> its last move or release
    var moved: map<Pair, Time>
    // link -> the last move off it
    var linkMoved: map<Link, Time>
    // automatic path -> its first idle pass
    var idleSince: map<PathId, Time>
    // pair -> what it was just placed on, until the fabric has shown it
    var pending: Pendings
    ghost var log: Log
    ghost var clock: Time

    ghost function Mem(): Memory
      reads this
    {
      Memory(moved, linkMoved, idleSince, pending)
    }

    ghost function Now(): World
      reads this, plugin
    {
      World(Mem(), plugin.paths, plugin.refused)
    }

    // Hold-down, idle spells, reservations and placements, over the whole
    // run so far.
    ghost predicate Valid()
      reads this
    {
      conf.holdDown >= 0.0 && Sound(conf, plugin.capacity, clock, Mem(), log)
    }

    constructor (plugin: Plugin, conf: Conf, ghost clock: Time)
      requires conf.holdDown >= 0.0 && conf.fit >= 0.0 && forall l | l in plugin.capacity :: plugin.capacity[l] >= 0.0
      ensures Valid() && this.plugin == plugin && this.conf == conf
      ensures log == Log([], [], map[]) && this.clock == clock
    {
      this.plugin, this.conf := plugin, conf;
      moved, linkMoved, idleSince, pending := map[], map[], map[], map[];
      this.log, this.clock := Log([], [], map[]), clock;
      SoundAtFirst(conf, plugin.capacity, clock);
    }

    // ----------------------------------------------------------------
    // Releases
    // ----------------------------------------------------------------
    // An idle path keeps its spell or starts one; a busy one ends it.
    method Judge(p: Pass, row: TePath) returns (due: bool, ghost floor: real)
      requires IsAuto(row)
      modifies this`idleSince
      ensures FloorIs(conf, plugin.capacity, HopsOf(p, row), floor)
      ensures idleSince == IdleAfter(old(Mem()), ExamOf(p, row, floor))
      ensures due <==> Due(conf, plugin.capacity, p, idleSince, ExamOf(p, row, floor), PairOf(row))
    {
      hide FloorIs, LinksOf, RoomAgain;
      var k, rate := PairOf(row), RateOf(p, PairOf(row));
      var least := Floor(conf, plugin.capacity, HopsOf(p, row));
      floor := least;
      if rate == 0.0 || rate < least {
        if row.id !in idleSince {
          idleSince := idleSince[row.id := p.now];
        }
        due := p.now - idleSince[row.id] >= conf.releaseAfter;
      } else {
        idleSince := idleSince - {row.id};
        var pr := p.pairs[k];
        due := HasRoomAgain(conf, plugin.capacity, rate, pr.links, p.measured, Usable(plugin.capacity, p.dead), pr.shost, pr.dhost,
                            p.congested);
      }
    }

    // One automatic path: looked at and, if it is due, released.
    method LookAt(p: Pass, row: TePath) returns (gone: bool, ghost s: Step)
      requires IsAuto(row) && row.id in plugin.paths && plugin.paths[row.id] == row
      modifies this`moved, this`linkMoved, this`idleSince, plugin`paths
      ensures LookOk(conf, plugin.capacity, p, s) && s.row == row && s.released == gone
      ensures s.before == old(Now()) && s.after == Now()
    {
      hide FloorIs, Due, HopsOf, DefaultLink, MarkAll, IdleAfter, Usable;
      ghost var w := Now();
      var k := PairOf(row);
      var due;
      ghost var floor;
      due, floor := Judge(p, row);
      gone := false;
      if due && !HeldDown(moved, k, p.now - conf.holdDown) {
        gone := plugin.ReleaseAutoPath(row);
        moved := moved[k := p.now];
        idleSince := idleSince - {row.id};
        var links := FindDefaultLinks(Usable(plugin.capacity, p.dead), SourceOf(p, k), DestinationOf(p, k));
        linkMoved := MarkAll(linkMoved, links, p.now);
      }
      s := Look(row, floor, gone, w, Now());
    }

    // Idle spells of paths that are gone.
    method ForgetGone(now: Time)
      modifies this`idleSince
      ensures Now() == old(Now()).(m := old(Mem()).(idleSince := Refreshed(conf, now, old(Now())).m.idleSince))
    {
      hide Unexpired, StillPending;
      idleSince := map id | id in idleSince && id in plugin.paths && plugin.paths[id].auto :: idleSince[id];
    }

    // The automatic paths, until the budget is spent.
    method Release(p: Pass) returns (released: nat, ghost looks: seq<Step>)
      requires RowsOk(plugin.paths)
      modifies this`moved, this`linkMoved, this`idleSince, plugin`paths
      ensures var start := old(Now()).(m := old(Mem()).(idleSince := Refreshed(conf, p.now, old(Now())).m.idleSince));
              Looks(conf, plugin.capacity, p, start, looks) && LooksDone(conf, start, looks) && EndOf(start, looks) == Now()
      ensures released == Releases(looks) <= conf.maxMoves && RowsOk(plugin.paths)
    {
      var todo := set id | id in plugin.paths && plugin.paths[id].auto :: plugin.paths[id];
      ForgetGone(p.now);
      released, looks := 0, [];
      ghost var start := Now();
      LooksStart(conf, plugin.capacity, p, start, todo);
      hide *;
      while todo != {} && released < conf.maxMoves
        invariant Looking(conf, plugin.capacity, p, start, looks, Now(), todo) && released == Releases(looks)
        decreases todo
      {
        var row: TePath :| row in todo;
        LookingAt(p, start, looks, todo, row);
        ghost var s;
        var gone;
        gone, s := LookAt(p, row);
        LooksStep(conf, plugin.capacity, p, start, looks, s.before, todo, s);
        looks := looks + [s];
        todo := todo - {row};
        if gone {
          released := released + 1;
        }
      }
      LooksEnd(conf, plugin.capacity, p, start, looks, Now(), todo);
      NowIs();
    }

    lemma NowIs()
      ensures Now() == World(Mem(), plugin.paths, plugin.refused) && Mem() == Memory(moved, linkMoved, idleSince, pending)
    {
    }

    lemma ValidIf()
      requires conf.holdDown >= 0.0 && Sound(conf, plugin.capacity, clock, Mem(), log)
      ensures Valid()
    {
    }

    lemma ValidMeans()
      requires Valid()
      ensures conf.holdDown >= 0.0 && Sound(conf, plugin.capacity, clock, Mem(), log)
    {
    }

    lemma LookingAt(p: Pass, start: World, looks: seq<Step>, todo: set<TePath>, row: TePath)
      requires Looking(conf, plugin.capacity, p, start, looks, Now(), todo) && row in todo
      ensures IsAuto(row) && row.id in plugin.paths && plugin.paths[row.id] == row
    {
      hide Looks, LookedAt;
    }

    // ----------------------------------------------------------------
    // One pair
    // ----------------------------------------------------------------
    // The memory of a placement.
    method Remember(p: Pass, k: Pair, path: seq<Node>, id: PathId)
      requires k in p.pairs
      modifies this`moved, this`linkMoved, this`idleSince, this`pending
      ensures Mem() == Remembered(p, old(Mem()), k, path, id)
    {
      hide MarkAll, OnPath;
      pending := pending[k := Reservation(p.now, OnPath(path, p.pairs[k].rate))];
      moved := moved[k := p.now];
      idleSince := idleSince - {id};
      linkMoved := MarkAll(linkMoved, p.pairs[k].links.Keys, p.now);
    }

    // One candidate: placed, or left for one of four reasons.
    method TryPair(p: Pass, l: Link, k: Pair, cap: Rates, autos: map<Pair, TePath>)
      returns (placed: Option<TePath>, ghost s: Step)
      requires k in p.pairs && cap == Usable(plugin.capacity, Avoid(p))
      requires RowsOk(plugin.paths) && AutosHere(autos, plugin.paths)
      modifies this`moved, this`linkMoved, this`idleSince, this`pending, plugin
      ensures s.before == old(Now()) && s.after == Now() && s.Try? && s.link == l && s.pair == k
      ensures OutcomeOk(conf, plugin.capacity, p, autos.Keys, s)
      ensures placed == if IsStored(s) then Some(s.outcome.row) else None
      ensures IsStored(s) && PairsNamed(p) ==> Pinned(p, Now(), k)
    {
      hide RoomForAnother, Chosen, NoneChosen, RowsOk, IsHere, Usable, RowFor, Remembered, Pinned, PairsNamed;
      ghost var w := Now();
      placed := None;
      if HeldDown(moved, k, p.now - conf.holdDown) {
        return placed, Try(l, k, HeldBack, w, w);
      }
      var existing := if k in autos then Some(autos[k]) else None;
      if existing.None? && !RoomForAnother(conf, p.pairs[k], autos.Keys, p.hosts) {
        return placed, Try(l, k, CapsReached, w, w);
      }
      var path := FindPath(conf, plugin.capacity, p, k, cap, pending);
      if path.None? {
        return placed, Try(l, k, NoRoom, w, w);
      }
      placed := plugin.PlaceAutoPath(p.pairs[k], k, path.value, existing);
      if placed.None? {
        return placed, Try(l, k, Refused(path.value), w, Now());
      }
      Remember(p, k, path.value, placed.value.id);
      s := Try(l, k, Stored(path.value, placed.value), w, Now());
      if PairsNamed(p) {
        StoredIsPinned(conf, plugin.capacity, p, autos.Keys, s);
      }
    }

    // ----------------------------------------------------------------
    // One link
    // ----------------------------------------------------------------
    // The largest pair not tried.
    method SteerNext(p: Pass, l: Link, cap: Rates, todo: set<Pair>, load: real, moved0: map<Pair, PairInfo>,
                     autos: map<Pair, TePath>, ghost spent: nat, ghost start: World, ghost tries0: seq<Step>,
                     ghost links: set<Link>)
      returns (k: Pair, placed: Option<TePath>, ghost tries: seq<Step>)
      requires Trying(conf, plugin.capacity, p, spent, start, tries0, Now()) && cap == Usable(plugin.capacity, Avoid(p))
      requires AtLink(conf, plugin.capacity, p, l, tries0, load, moved0, todo) && AutosOk(p, l, tries0, autos, plugin.paths)
      requires todo != {} && l in plugin.capacity && load > Part(conf.low, plugin.capacity[l])
      requires spent + Moves(tries0) < conf.maxMoves && TriedOnly(tries0, links) && l in links
      modifies this`moved, this`linkMoved, this`idleSince, this`pending, plugin
      ensures Trying(conf, plugin.capacity, p, spent, start, tries, Now())
      ensures Moves(tries) == Moves(tries0) + (if placed.Some? then 1 else 0) && TriedOnly(tries, links)
      ensures k in todo && k in p.pairs && l in p.pairs[k].links
      ensures AtLink(conf, plugin.capacity, p, l, tries,
                     if placed.Some? then load - p.pairs[k].links[l] else load,
                     if placed.Some? then moved0[k := p.pairs[k]] else moved0, todo - {k})
      ensures AutosOk(p, l, tries, if placed.Some? then autos[k := placed.value] else autos, plugin.paths)
    {
      hide *;
      TryingParts(conf, plugin.capacity, p, spent, start, tries0, Now());
      UntriedAre(conf, plugin.capacity, p, l, tries0, load, moved0, todo);
      AutosAre(p, l, tries0, autos, plugin.paths);
      NowIs();
      k := Largest(todo, p.pairs);
      ghost var s;
      ghost var now := Now();
      placed, s := TryPair(p, l, k, cap, autos);
      NowIs();
      StoredMeans(s, placed);
      TryingStep(conf, plugin.capacity, p, spent, start, tries0, now, l, load, moved0, todo, autos, s);
      AtLinkStep(conf, plugin.capacity, p, l, tries0, load, moved0, todo, s);
      TriedOnlyStep(tries0, s, links);
      tries := tries0 + [s];
    }

    // The largest pairs leave the link until it carries little enough or the
    // budget is spent.
    method SteerPairs(p: Pass, l: Link, load0: real, cap: Rates, budget: nat, moved0: map<Pair, PairInfo>,
                      ghost spent: nat, ghost start: World, ghost tries0: seq<Step>, ghost links: set<Link>)
      returns (moves: nat, movedNow: map<Pair, PairInfo>, ghost tries: seq<Step>)
      requires Trying(conf, plugin.capacity, p, spent, start, tries0, Now()) && cap == Usable(plugin.capacity, Avoid(p))
      requires spent + Moves(tries0) + budget == conf.maxMoves && RowsOk(p.paths)
      requires l in p.congested && l in plugin.capacity && HotterLeft(conf, plugin.capacity, p, tries0, l)
      requires TriedOnly(tries0, links) && l !in links
      requires load0 == Load(plugin.capacity, p, tries0, l) && moved0 == MovedIn(p, tries0)
      modifies this`moved, this`linkMoved, this`idleSince, this`pending, plugin
      ensures Trying(conf, plugin.capacity, p, spent, start, tries, Now())
      ensures Moves(tries) == Moves(tries0) + moves && moves <= budget && movedNow == MovedIn(p, tries)
      ensures HotterLeft(conf, plugin.capacity, p, tries, l) && TriedOnly(tries, links + {l})
      ensures moves == budget || LinkLeft(conf, plugin.capacity, p, tries, l)
    {
      moves, movedNow, tries := 0, moved0, tries0;
      TriedOnlyMore(tries, links, links + {l});
      if |PairsOn(p.pairs, l)| <= 1 {
        return;
      }
      hide *;
      TryingParts(conf, plugin.capacity, p, spent, start, tries, Now());
      NowIs();
      var autos := Autos(p.paths.Values);
      AutosStart(p, l, tries, autos, plugin.paths, links);
      var todo := Candidates(conf, plugin.capacity, p, l);
      LinkStarts(conf, plugin.capacity, p, l, tries, moved0, load0, links);
      var load, limit := load0, Part(conf.low, plugin.capacity[l]);
      while todo != {} && moves < budget && load > limit
        invariant Trying(conf, plugin.capacity, p, spent, start, tries, Now())
        invariant AtLink(conf, plugin.capacity, p, l, tries, load, movedNow, todo)
        invariant AutosOk(p, l, tries, autos, plugin.paths)
        invariant Moves(tries) == Moves(tries0) + moves && moves <= budget
        invariant TriedOnly(tries, links + {l})
        decreases todo
      {
        var k, placed;
        k, placed, tries := SteerNext(p, l, cap, todo, load, movedNow, autos, spent, start, tries, links + {l});
        todo := todo - {k};
        if placed.Some? {
          autos := autos[k := placed.value];
          movedNow := movedNow[k := p.pairs[k]];
          moves := moves + 1;
          load := load - p.pairs[k].links[l];
        }
      }
      AtLinkIs(conf, plugin.capacity, p, l, tries, load, movedNow, todo);
      if moves < budget {
        LinkEnds(conf, plugin.capacity, p, l, tries, load, movedNow, todo);
      }
    }

    // Hottest link first, each with its load less what the pass has moved,
    // until the budget is spent.
    method SteerLinks(p: Pass, released: nat, ghost start: World) returns (ghost tries: seq<Step>)
      requires Trying(conf, plugin.capacity, p, released, start, [], Now()) && start == Now() && RowsOk(p.paths)
      modifies this`moved, this`linkMoved, this`idleSince, this`pending, plugin
      ensures Trying(conf, plugin.capacity, p, released, start, tries, Now())
      ensures TriesDone(conf, plugin.capacity, p, released, tries)
    {
      tries := [];
      var moves, movedNow: map<Pair, PairInfo> := released, map[];
      var cap, todo := Usable(plugin.capacity, Avoid(p)), p.congested.Keys;
      LinksStart(conf, plugin.capacity, p, released);
      hide *;
      while todo != {} && moves < conf.maxMoves
        invariant Trying(conf, plugin.capacity, p, released, start, tries, Now())
        invariant moves == conf.maxMoves || AllLinks(conf, plugin.capacity, p, tries, todo)
        invariant moves == released + Moves(tries) <= conf.maxMoves && movedNow == MovedIn(p, tries)
        invariant todo <= p.congested.Keys
        decreases todo
      {
        TryingParts(conf, plugin.capacity, p, released, start, tries, Now());
        CongestedAre(plugin.capacity, p);
        var l := Hottest(todo, plugin.capacity, p.congested);
        HotterAreDone(conf, plugin.capacity, p, tries, todo, l);
        ghost var links, tries0 := p.congested.Keys - todo, tries;
        LoadAtFirst(plugin.capacity, p, tries, l, links);
        var off := MovedLoad(movedNow, l);
        var load := p.congested[l] - off;
        if load > Part(conf.low, plugin.capacity[l]) {
          var steered;
          steered, movedNow, tries := SteerPairs(p, l, load, cap, conf.maxMoves - moves, movedNow, released, start, tries, links);
          moves := moves + steered;
        } else {
          LightIsLeft(conf, plugin.capacity, p, tries, l);
          TriedOnlyMore(tries, links, links + {l});
        }
        if moves < conf.maxMoves {
          LinksStep(conf, plugin.capacity, p, tries0, tries, todo, l);
        }
        todo := todo - {l};
      }
      AllDone(conf, plugin.capacity, p, released, tries, todo);
    }

    // ----------------------------------------------------------------
    // A pass
    // ----------------------------------------------------------------
    method Congested(series: map<Link, seq<(Time, Option<real>)>>) returns (congested: Rates)
      ensures CongestedIs(conf, plugin.capacity, series, linkMoved, congested)
    {
      congested := map[];
      var todo := series.Keys;
      hide Part;
      while todo != {}
        invariant todo <= series.Keys
        invariant forall l :: l in congested <==> l !in todo && IsCongested(conf, plugin.capacity, series, linkMoved, l)
        invariant forall l | l in congested :: congested[l] == LatestOf(series[l])
      {
        var l: Link :| l in todo;
        todo := todo - {l};
        var s := series[l];
        if l in plugin.capacity && plugin.capacity[l] > 0.0 && 0 < conf.samples <= |s| {
          var last := s[|s| - conf.samples..];
          if (forall x | x in last :: x.1.Some? && x.1.value > Part(conf.high, plugin.capacity[l]))
             && (l in linkMoved ==> last[0].0 > linkMoved[l]) {
            assert s[|s| - 1] == last[conf.samples - 1];
            congested := congested[l := s[|s| - 1].1.value];
          }
        }
      }
    }

    // Releases first, then moves, on one budget.
    method Act(reading: Pass) returns (ghost p: Pass, ghost looks: seq<Step>, ghost tries: seq<Step>)
      requires RowsOk(plugin.paths) && PassOk(plugin.capacity, reading)
      modifies this`moved, this`linkMoved, this`idleSince, this`pending, plugin
      ensures p == reading.(paths := p.paths) && RowsOk(plugin.paths)
      ensures var start := old(Now()).(m := old(Mem()).(idleSince := Refreshed(conf, p.now, old(Now())).m.idleSince));
              PassRun(conf, plugin.capacity, p, looks, tries, start, Now())
    {
      hide *;
      ghost var start := Now().(m := Mem().(idleSince := Refreshed(conf, reading.now, Now()).m.idleSince));
      var released;
      released, looks := Release(reading);
      var pass := reading.(paths := plugin.paths);
      p := pass;
      NowIs();
      LooksBefore(conf, plugin.capacity, reading, start, looks, p);
      PassStillOk(plugin.capacity, reading, p);
      ghost var middle := Now();
      TryingStarts(conf, plugin.capacity, p, released, middle);
      tries := SteerLinks(pass, released, middle);
      TryingParts(conf, plugin.capacity, p, released, middle, tries, Now());
      NowIs();
      PassIs(conf, plugin.capacity, p, looks, tries, start, Now());
    }

    // What no longer matters is forgotten, and the pairs are gathered.
    method Refresh(r: Reading, now: Time, congested: Rates) returns (reading: Pass)
      requires Valid() && clock <= now && NoNegative(r.view) && CongestedIs(conf, plugin.capacity, r.series, linkMoved, congested)
      modifies this`moved, this`pending
      ensures PassReads(conf, plugin.capacity, r, now, linkMoved, reading) && PassOk(plugin.capacity, reading)
      ensures FreshFor(now, reading.since, log.actions)
      ensures Now().(m := Mem().(idleSince := Refreshed(conf, now, Now()).m.idleSince)) == Refreshed(conf, now, old(Now()))
      ensures Sound(conf, plugin.capacity, now, Refreshed(conf, now, old(Now())).m, log)
    {
      hide *;
      NowIs();
      ValidMeans();
      ghost var w := Now();
      var since := JudgedSince(conf, r.series, congested.Keys);
      RefreshIsSound(conf, plugin.capacity, clock, now, w, log);
      moved := Unexpired(moved, now - conf.holdDown);
      pending := StillPending(pending, now - conf.window);
      NowIs();
      var pairs := Pairs(r.view);
      var hosts := SourceHosts(pairs);
      reading := Pass(now, pairs, hosts, r.hostOf, map[], r.measured, congested, r.dead, since);
      ReadsAre(conf, plugin.capacity, r, now, linkMoved, reading);
      ReadIsOk(conf, plugin.capacity, r, clock, now, w.m, log, reading);
      RefreshedIs(conf, now, w, Now());
    }

    // The log of the pass.
    ghost method Finish(r: Reading, now: Time, w: World, reading: Pass, p: Pass, looks: seq<Step>, tries: seq<Step>,
                        linkMoved0: map<Link, Time>)
      requires conf.holdDown >= 0.0 && PassReads(conf, plugin.capacity, r, now, linkMoved0, reading)
      requires PassOk(plugin.capacity, reading) && FreshFor(now, reading.since, log.actions)
      requires p == reading.(paths := p.paths) && p.now == now
      requires PassRun(conf, plugin.capacity, p, looks, tries, Refreshed(conf, now, w), Now())
      requires Sound(conf, plugin.capacity, now, Refreshed(conf, now, w).m, log)
      modifies this`log, this`clock
      ensures Valid() && clock == now && log == PassLog(plugin.capacity, p, old(log), looks, tries)
      ensures PassReads(conf, plugin.capacity, r, now, linkMoved0, p)
    {
      hide *;
      NowIs();
      ReadsOn(conf, plugin.capacity, r, now, linkMoved0, reading, p);
      PassStillOk(plugin.capacity, reading, p);
      PassIsSound(conf, plugin.capacity, p, looks, tries, Refreshed(conf, now, w), Now(), log);
      log := PassLog(plugin.capacity, p, log, looks, tries);
      clock := now;
      NowIs();
      ValidIf();
    }

    // One pass of the controller: every step it takes, and its log.
    method Check(r: Reading, now: Time) returns (ghost p: Pass, ghost looks: seq<Step>, ghost tries: seq<Step>)
      requires Valid() && RowsOk(plugin.paths) && clock <= now && NoNegative(r.view)
      modifies this, plugin
      ensures Valid() && RowsOk(plugin.paths)
      ensures plugin.capacity == map[] || !conf.steering || r.outage ==>
                looks == [] && tries == [] && log == old(log) && Now() == old(Now())
      ensures plugin.capacity != map[] && conf.steering && !r.outage ==>
                && clock == now && PassReads(conf, plugin.capacity, r, now, old(linkMoved), p)
                && PassRun(conf, plugin.capacity, p, looks, tries, Refreshed(conf, now, old(Now())), Now())
                && log == PassLog(plugin.capacity, p, old(log), looks, tries)
                && forall k | k in StoredIn(tries) :: Pinned(p, Now(), k)
    {
      p, looks, tries := Pass(now, map[], map[], map[], map[], map[], map[], {}, map[]), [], [];
      if plugin.capacity == map[] || !conf.steering || r.outage {
        return;
      }
      hide *;
      var congested := Congested(r.series);
      ghost var w, log0, linkMoved0 := Now(), log, linkMoved;
      var reading := Refresh(r, now, congested);
      p, looks, tries := Act(reading);
      AllArePinned(conf, plugin.capacity, reading, p, looks, tries, Refreshed(conf, now, w), Now());
      Finish(r, now, w, reading, p, looks, tries, linkMoved0);
    }
  }
}
