// One pass of the re-optimisation as the steps it takes: what each step may
// do in the state it finds, when the pass may end, and that every pass keeps
// the memory sound.

module ReoptRun {
  import opened Graph
  import opened TeRows
  import opened ReoptMemory
  import opened ReoptPass
  import Pce

  // What a step may change: the controller's memory, the stored paths, and
  // what the path table has refused to store.
  datatype World = World(m: Memory, paths: map<PathId, TePath>, refused: seq<(Pair, seq<Node>)>)

  // A look at an automatic path; or a try to move a pair off a link.
  datatype Step =
    | Look(row: TePath, floor: real, released: bool, before: World, after: World)
    | Try(link: Link, pair: Pair, outcome: Outcome, before: World, after: World)

  datatype Outcome =
    | HeldBack
    | CapsReached
    | NoRoom
    | Refused(path: seq<Node>)
    | Stored(path: seq<Node>, row: TePath)

  predicate IsStored(s: Step) {
    s.Try? && s.outcome.Stored?
  }

  ghost function EndOf(start: World, run: seq<Step>): World {
    if run == [] then start else run[|run| - 1].after
  }

  function Moves(run: seq<Step>): (n: nat)
    ensures n <= |run|
  {
    if run == [] then 0 else Moves(run[..|run| - 1]) + if IsStored(run[|run| - 1]) then 1 else 0
  }

  function Releases(run: seq<Step>): nat {
    if run == [] then 0
    else Releases(run[..|run| - 1]) + if run[|run| - 1].Look? && run[|run| - 1].released then 1 else 0
  }

  // ------------------------------------------------------------------
  // Looking at an automatic path
  // ------------------------------------------------------------------
  ghost predicate LookedAt(run: seq<Step>, id: PathId) {
    exists i :: 0 <= i < |run| && run[i].Look? && run[i].row.id == id
  }

  // The pair's rate now, against the floor of the links its path runs over.
  function ExamOf(p: Pass, row: TePath, floor: real): Exam
    requires IsAuto(row)
  {
    Exam(p.now, row.id, if PairOf(row) in p.pairs then p.pairs[PairOf(row)].rate else 0.0, floor, HopsOf(p, row))
  }

  // An idle path keeps its spell or starts one; a busy one ends it.
  function IdleAfter(m: Memory, e: Exam): map<PathId, Time> {
    if !IsIdle(e) then m.idleSince - {e.id}
    else if e.id in m.idleSince then m.idleSince
    else m.idleSince[e.id := e.at]
  }

  // Idle for long enough; or busy, and the default links have room again.
  ghost predicate Due(conf: Conf, capacity: Rates, p: Pass, idleSince: map<PathId, Time>, e: Exam, k: Pair) {
    if IsIdle(e) then e.id in idleSince && p.now - idleSince[e.id] >= conf.releaseAfter
    else
      && k in p.pairs
      && var pr := p.pairs[k];
         RoomAgain(conf, pr.rate, pr.links, p.measured, Usable(capacity, p.dead), pr.shost, pr.dhost, p.congested.Keys)
  }

  // The state after a release: the pair held down, the links its traffic goes
  // back to marked, the path gone.
  ghost function WithoutPath(capacity: Rates, p: Pass, w: World, idleSince: map<PathId, Time>, k: Pair, id: PathId): World {
    World(
      Memory(w.m.moved[k := p.now],
             MarkAll(w.m.linkMoved, DefaultLinks(Usable(capacity, p.dead), SourceOf(p, k), DestinationOf(p, k)), p.now),
             idleSince - {id}, w.m.pending),
      w.paths - {id}, w.refused)
  }

  // A path is released exactly when it is due and its pair is not held down.
  ghost predicate LookOk(conf: Conf, capacity: Rates, p: Pass, s: Step) {
    && s.Look? && IsAuto(s.row) && s.row.id in s.before.paths && s.before.paths[s.row.id] == s.row
    && FloorIs(conf, capacity, HopsOf(p, s.row), s.floor)
    && var e, k := ExamOf(p, s.row, s.floor), PairOf(s.row);
       var idleSince := IdleAfter(s.before.m, e);
       && (s.released <==> Due(conf, capacity, p, idleSince, e, k) && !HeldDown(s.before.m.moved, k, p.now - conf.holdDown))
       && s.after == if s.released then WithoutPath(capacity, p, s.before, idleSince, k, s.row.id)
                     else s.before.(m := s.before.m.(idleSince := idleSince))
  }

  // Each path is looked at once, while the budget lasts.
  ghost predicate Looks(conf: Conf, capacity: Rates, p: Pass, start: World, run: seq<Step>) {
    run == [] ||
    var s, prior := run[|run| - 1], run[..|run| - 1];
    && Looks(conf, capacity, p, start, prior) && s.before == EndOf(start, prior)
    && LookOk(conf, capacity, p, s) && !LookedAt(prior, s.row.id) && Releases(prior) < conf.maxMoves
  }

  // ------------------------------------------------------------------
  // Trying to move a pair
  // ------------------------------------------------------------------
  ghost predicate TriedAt(run: seq<Step>, l: Link, k: Pair) {
    exists i :: 0 <= i < |run| && run[i].Try? && run[i].link == l && run[i].pair == k
  }

  ghost function StoredIn(run: seq<Step>): set<Pair> {
    set i | 0 <= i < |run| && IsStored(run[i]) :: run[i].pair
  }

  ghost function StoredAt(run: seq<Step>, l: Link): set<Pair> {
    set i | 0 <= i < |run| && IsStored(run[i]) && run[i].link == l :: run[i].pair
  }

  ghost function MovedIn(p: Pass, run: seq<Step>): map<Pair, PairInfo> {
    map k | k in StoredIn(run) && k in p.pairs :: p.pairs[k]
  }

  // The pairs with automatic paths, as counted while a link is steered: those
  // read before the first link, and those stored for this one.
  ghost function AutosAt(p: Pass, run: seq<Step>, l: Link): set<Pair> {
    AutoPairs(p.paths.Values) + StoredAt(run, l)
  }

  // A link's last measurement, less what the pass moved off it on account of
  // hotter links, each pair once, less what it moved off it for itself.
  ghost function Load(capacity: Rates, p: Pass, run: seq<Step>, l: Link): real {
    if run == [] then if l in p.congested then p.congested[l] else 0.0
    else
      var s, prior := run[|run| - 1], run[..|run| - 1];
      Load(capacity, p, prior, l) - if Unloads(capacity, p, prior, s, l) then RateOn(p.pairs[s.pair].links, l) else 0.0
  }

  ghost predicate Unloads(capacity: Rates, p: Pass, prior: seq<Step>, s: Step, l: Link) {
    && IsStored(s) && s.pair in p.pairs
    && (s.link == l || (HotterFirst(capacity, p.congested, s.link, l) && s.pair !in StoredIn(prior)))
  }

  // With one pair only, light enough, or with every candidate tried.
  ghost predicate LinkLeft(conf: Conf, capacity: Rates, p: Pass, run: seq<Step>, l: Link) {
    || |PairsOn(p.pairs, l)| <= 1
    || (l in capacity && Load(capacity, p, run, l) <= Part(conf.low, capacity[l]))
    || forall k | k in Candidates(conf, capacity, p, l) :: TriedAt(run, l, k)
  }

  // The hottest link that is not left comes next, and of its candidates the
  // largest not tried.
  ghost predicate IsNext(conf: Conf, capacity: Rates, p: Pass, prior: seq<Step>, l: Link, k: Pair) {
    && (forall m | m in p.congested && m != l && HotterFirst(capacity, p.congested, m, l) ::
          LinkLeft(conf, capacity, p, prior, m))
    && k in Candidates(conf, capacity, p, l) && !TriedAt(prior, l, k)
    && forall j | j in Candidates(conf, capacity, p, l) && j != k && Ahead(p.pairs, j, k) :: TriedAt(prior, l, j)
  }

  // The pair's own path, moved in place, or a new one.
  ghost predicate RowFor(pr: PairInfo, k: Pair, path: seq<Node>, paths: map<PathId, TePath>, moved: bool, row: TePath) {
    if moved then
      && row.id in paths && IsAuto(paths[row.id]) && PairOf(paths[row.id]) == k
      && row == paths[row.id].(via := Via(path))
    else
      && row.id !in paths && row == TePath(row.id, pr.domain, ToPort(pr.dport), FromPort(pr.sport), Via(path), true)
      && forall id | id in paths ::
           !(paths[id].domain == pr.domain && paths[id].to == ToPort(pr.dport) && paths[id].from_ == FromPort(pr.sport))
  }

  // The memory after a placement.
  function Remembered(p: Pass, m: Memory, k: Pair, path: seq<Node>, id: PathId): Memory
    requires k in p.pairs
  {
    Memory(m.moved[k := p.now], MarkAll(m.linkMoved, p.pairs[k].links.Keys, p.now), m.idleSince - {id},
           m.pending[k := Reservation(p.now, OnPath(path, p.pairs[k].rate))])
  }

  // Held down; else no path to spare; else no path with room; else the chosen
  // path was stored, or a new one was refused.
  ghost predicate OutcomeOk(conf: Conf, capacity: Rates, p: Pass, autos: set<Pair>, s: Step) {
    && s.Try? && s.pair in p.pairs
    && var k, w, pr := s.pair, s.before, p.pairs[s.pair];
       var spare := k in autos || RoomForAnother(conf, pr, autos, p.hosts);
       && (s.outcome.HeldBack? <==> HeldDown(w.m.moved, k, p.now - conf.holdDown))
       && (s.outcome.CapsReached? <==> !s.outcome.HeldBack? && !spare)
       && (s.outcome.NoRoom? <==> !s.outcome.HeldBack? && spare && NoneChosen(conf, capacity, p, k, w.m.pending))
       && match s.outcome
          case Refused(path) =>
            && Chosen(conf, capacity, p, k, w.m.pending, path) && k !in autos
            && s.after == w.(refused := w.refused + [(k, path)])
          case Stored(path, row) =>
            && Chosen(conf, capacity, p, k, w.m.pending, path) && RowFor(pr, k, path, w.paths, k in autos, row)
            && s.after == World(Remembered(p, w.m, k, path, row.id), w.paths[row.id := row], w.refused)
          case _ => s.after == w
  }

  ghost predicate TryOk(conf: Conf, capacity: Rates, p: Pass, prior: seq<Step>, s: Step) {
    && s.Try? && s.link in p.congested && s.link in capacity && |PairsOn(p.pairs, s.link)| > 1
    && Load(capacity, p, prior, s.link) > Part(conf.low, capacity[s.link])
    && IsNext(conf, capacity, p, prior, s.link, s.pair)
    && OutcomeOk(conf, capacity, p, AutosAt(p, prior, s.link), s)
  }

  ghost predicate Tries(conf: Conf, capacity: Rates, p: Pass, spent: nat, start: World, run: seq<Step>) {
    run == [] ||
    var s, prior := run[|run| - 1], run[..|run| - 1];
    && Tries(conf, capacity, p, spent, start, prior) && s.before == EndOf(start, prior)
    && TryOk(conf, capacity, p, prior, s) && spent + Moves(prior) < conf.maxMoves
  }

  // ------------------------------------------------------------------
  // A pass
  // ------------------------------------------------------------------
  // First the looks, at every automatic path, then the tries, until every
  // congested link is left; either ends early only with the budget spent.
  ghost predicate PassRun(conf: Conf, capacity: Rates, p: Pass, looks: seq<Step>, tries: seq<Step>, start: World, end: World) {
    var middle, spent := EndOf(start, looks), Releases(looks);
    && Looks(conf, capacity, p, start, looks) && LooksDone(conf, start, looks)
    && p.paths == middle.paths
    && Tries(conf, capacity, p, spent, middle, tries) && TriesDone(conf, capacity, p, spent, tries)
    && end == EndOf(middle, tries)
  }

  ghost predicate LooksDone(conf: Conf, start: World, looks: seq<Step>) {
    || Releases(looks) == conf.maxMoves
    || forall id | id in start.paths && start.paths[id].auto :: LookedAt(looks, id)
  }

  ghost predicate TriesDone(conf: Conf, capacity: Rates, p: Pass, spent: nat, tries: seq<Step>) {
    && spent + Moves(tries) <= conf.maxMoves
    && (|| spent + Moves(tries) == conf.maxMoves
        || forall l | l in p.congested :: LinkLeft(conf, capacity, p, tries, l))
  }

  // ------------------------------------------------------------------
  // What a run leaves in the log
  // ------------------------------------------------------------------
  ghost function WhyOf(capacity: Rates, p: Pass, log: Log, e: Exam, k: Pair): Why {
    if IsIdle(e) || k !in p.pairs then Idle(if e.id in log.first then log.first[e.id] else 0, if log.exams == [] then 0 else |log.exams| - 1)
    else
      var pr := p.pairs[k];
      Roomy(pr.rate, pr.links, p.measured, Usable(capacity, p.dead), pr.shost, pr.dhost, p.congested.Keys)
  }

  ghost function LookLog(capacity: Rates, p: Pass, log: Log, s: Step): Log
    requires s.Look? && IsAuto(s.row)
  {
    var e, k := ExamOf(p, s.row, s.floor), PairOf(s.row);
    var seen := AfterExam(log, s.before.m, e);
    if s.released then seen.(actions := seen.actions + [Action.Released(p.now, k, s.row.id, WhyOf(capacity, p, seen, e, k))])
    else seen
  }

  ghost function LooksLog(capacity: Rates, p: Pass, log: Log, run: seq<Step>): Log {
    if run == [] then log
    else
      var s, prior := run[|run| - 1], LooksLog(capacity, p, log, run[..|run| - 1]);
      if s.Look? && IsAuto(s.row) then LookLog(capacity, p, prior, s) else prior
  }

  ghost function PlacementOf(capacity: Rates, p: Pass, prior: seq<Step>, s: Step): Placement
    requires IsStored(s) && s.pair in p.pairs && s.link in p.since
  {
    Placement(p.pairs[s.pair], s.link, s.outcome.path, p.measured, s.after.m.pending, Avoid(p), p.paths.Values, p.pairs,
              Load(capacity, p, prior, s.link), p.since[s.link])
  }

  ghost function TriesLog(capacity: Rates, p: Pass, log: Log, run: seq<Step>): Log {
    if run == [] then log
    else
      var s, prior := run[|run| - 1], run[..|run| - 1];
      var before := TriesLog(capacity, p, log, prior);
      if IsStored(s) && s.pair in p.pairs && s.link in p.since then
        before.(actions := before.actions + [Placed(p.now, s.pair, PlacementOf(capacity, p, prior, s))])
      else before
  }

  ghost function PassLog(capacity: Rates, p: Pass, log: Log, looks: seq<Step>, tries: seq<Step>): Log {
    TriesLog(capacity, p, LooksLog(capacity, p, log, looks), tries)
  }

  // ------------------------------------------------------------------
  // Every look keeps the memory sound
  // ------------------------------------------------------------------
  lemma SoundLook(conf: Conf, capacity: Rates, p: Pass, s: Step, log: Log)
    requires conf.holdDown >= 0.0 && LookOk(conf, capacity, p, s) && Sound(conf, capacity, p.now, s.before.m, log)
    ensures Sound(conf, capacity, p.now, s.after.m, LookLog(capacity, p, log, s))
    ensures FreshFor(p.now, p.since, log.actions) ==> FreshFor(p.now, p.since, LookLog(capacity, p, log, s).actions)
  {
    hide Sound, FloorIs, RoomAgain, HopsOf, FreshFor, DefaultLinks, AfterExam;
    var e, k, m := ExamOf(p, s.row, s.floor), PairOf(s.row), s.before.m;
    var seen := AfterExam(log, m, e);
    AfterExamIs(log, m, e);
    SoundExam(conf, capacity, p.now, m, log, e);
    var idle := m.(idleSince := IdleAfter(m, e));
    assert Sound(conf, capacity, p.now, idle, seen);
    if s.released {
      var a := Action.Released(p.now, k, s.row.id, WhyOf(capacity, p, seen, e, k));
      WhyIsOk(conf, capacity, p, idle, seen, e, k);
      var links := DefaultLinks(Usable(capacity, p.dead), SourceOf(p, k), DestinationOf(p, k));
      SoundRelease(conf, capacity, p.now, idle, seen, a, links);
      FreshReleased(p.now, p.since, seen.actions, a);
    }
  }

  lemma FreshReleased(now: Time, since: map<Link, Time>, actions: seq<Action>, a: Action)
    requires a.Released?
    ensures FreshFor(now, since, actions) ==> FreshFor(now, since, actions + [a])
  {
  }

  lemma WhyIsOk(conf: Conf, capacity: Rates, p: Pass, m: Memory, log: Log, e: Exam, k: Pair)
    requires Sound(conf, capacity, p.now, m, log) && Due(conf, capacity, p, m.idleSince, e, k)
    requires log.exams != [] && log.exams[|log.exams| - 1] == e && e.at == p.now
    ensures ReleaseOk(conf, log.exams, Action.Released(p.now, k, e.id, WhyOf(capacity, p, log, e, k)))
  {
    hide Sound, RoomAgain;
    if IsIdle(e) {
      SpellIs(conf, capacity, p.now, m, log, e.id);
    }
  }

  lemma {:induction false} SoundLooks(conf: Conf, capacity: Rates, p: Pass, start: World, run: seq<Step>, log: Log)
    requires conf.holdDown >= 0.0 && Looks(conf, capacity, p, start, run)
    requires Sound(conf, capacity, p.now, start.m, log) && FreshFor(p.now, p.since, log.actions)
    ensures Sound(conf, capacity, p.now, EndOf(start, run).m, LooksLog(capacity, p, log, run))
    ensures FreshFor(p.now, p.since, LooksLog(capacity, p, log, run).actions)
  {
    hide Sound, LookOk, LookLog, FreshFor;
    if run != [] {
      var s, prior := run[|run| - 1], run[..|run| - 1];
      SoundLooks(conf, capacity, p, start, prior, log);
      SoundLook(conf, capacity, p, s, LooksLog(capacity, p, log, prior));
      LookIsAuto(conf, capacity, p, s);
    }
  }

  lemma LookIsAuto(conf: Conf, capacity: Rates, p: Pass, s: Step)
    requires LookOk(conf, capacity, p, s)
    ensures s.Look? && IsAuto(s.row)
  {
    hide FloorIs, Due, HopsOf;
  }

  // ------------------------------------------------------------------
  // Every try keeps the memory sound
  // ------------------------------------------------------------------
  lemma TwoOn(pairs: map<Pair, PairInfo>, l: Link)
    requires |PairsOn(pairs, l)| > 1
    ensures exists k, k' :: k in pairs && k' in pairs && k != k' && l in pairs[k].links && l in pairs[k'].links
  {
    var on := PairsOn(pairs, l);
    var k :| k in on;
    assert |on - {k}| == |on| - 1;
    var k' :| k' in on - {k};
  }

  lemma CandidateParts(conf: Conf, capacity: Rates, p: Pass, l: Link, k: Pair)
    requires PassOk(capacity, p) && k in Candidates(conf, capacity, p, l)
    ensures l in capacity && k in p.pairs && l in p.pairs[k].links
    ensures p.pairs[k].links[l] >= Part(conf.minShare, capacity[l])
    ensures forall q | q in p.paths.Values :: !Decides(q, p.pairs[k])
    ensures p.pairs[k].rate >= 0.0 && p.pairs[k].sport == k.0 && p.pairs[k].dport == k.1
  {
    hide Decides, Part, HostsAre, HeatOk;
  }

  lemma CanonicalParts(cap: Rates, used: Rates, bw: real, src: Node, dst: Node, path: seq<Node>)
    requires Pce.Canonical(Pce.Residuals(cap, used, bw), src, dst, path)
    ensures path != [] && path[0] == src && Last(path) == dst
    ensures forall l | l in LinksOf(path) :: l in cap
  {
    Pce.CanonicalIsBest(cap, used, src, dst, bw, path);
    LinksOfIndex(path);
    forall l | l in LinksOf(path)
      ensures l in cap
    {
      var i :| 0 <= i < |LinksOf(path)| && LinksOf(path)[i] == l;
      assert (path[i], path[i + 1]) in cap;
    }
    hide Pce.Canonical;
  }

  lemma AllHaveRoom(conf: Conf, capacity: Rates, used: Rates, measured: Rates, own: Rates, pending: Pendings, k: Pair,
                    rate: real, path: seq<Node>)
    requires UsedIs(used, measured, own, pending, k) && Fits(conf, capacity, used, rate, path)
    ensures forall l | l in LinksOf(path) :: RoomFor(conf, capacity, pending, k, rate, measured, own, l)
  {
    hide ReservedOn, Base, LinksOf, Pce.Held, Part;
  }

  lemma AvoidIs(p: Pass)
    ensures forall l :: l in Avoid(p) <==> l in p.congested || l in p.dead
  {
  }

  // The chosen path keeps every promise about links.
  lemma ChosenIsOk(conf: Conf, capacity: Rates, p: Pass, k: Pair, pending: Pendings, path: seq<Node>)
    requires k in p.pairs && p.pairs[k].rate >= 0.0
    requires Chosen(conf, capacity, p, k, pending, path) && NotOvercommitted(conf, capacity, pending)
    ensures path != [] && path[0] == p.pairs[k].shost && Last(path) == p.pairs[k].dhost
    ensures var pending' := pending[k := Reservation(p.now, OnPath(path, p.pairs[k].rate))];
            && NotOvercommitted(conf, capacity, pending')
            && forall l | l in LinksOf(path) ::
                 && l in capacity && l !in p.congested && l !in p.dead
                 && Base(p.measured, p.pairs[k].links, l) + ReservedOn(pending', l) <= Part(conf.fit, capacity[l])
  {
    hide UsedIs, Fits, NotOvercommitted, Avoid, LinksOf, Base, ReservedOn, Part, OnPath, Pce.Canonical, Last;
    var pr := p.pairs[k];
    var used :| UsedIs(used, p.measured, pr.links, pending, k) && IsBest(capacity, p, pr, used, path)
                && Fits(conf, capacity, used, pr.rate, path);
    CanonicalParts(Usable(capacity, Avoid(p)), used, pr.rate, pr.shost, pr.dhost, path);
    AvoidIs(p);
    AllHaveRoom(conf, capacity, used, p.measured, pr.links, pending, k, pr.rate, path);
    ReservePlace(conf, capacity, pending, k, p.now, path, pr.rate, p.measured, pr.links);
  }

  lemma SoundTry(conf: Conf, capacity: Rates, p: Pass, prior: seq<Step>, s: Step, log: Log)
    requires conf.holdDown >= 0.0 && PassOk(capacity, p) && TryOk(conf, capacity, p, prior, s) && IsStored(s)
    requires Sound(conf, capacity, p.now, s.before.m, log) && FreshFor(p.now, p.since, log.actions)
    ensures s.pair in p.pairs && s.link in p.since
    ensures var log' := log.(actions := log.actions + [Placed(p.now, s.pair, PlacementOf(capacity, p, prior, s))]);
            Sound(conf, capacity, p.now, s.after.m, log') && FreshFor(p.now, p.since, log'.actions)
  {
    assert s.Try? && s.outcome.Stored?;
    hide *;
    StoredParts(conf, capacity, p, prior, s);
    CandidateParts(conf, capacity, p, s.link, s.pair);
    SinceCongested(capacity, p, s.link);
    SoundParts(conf, capacity, p.now, s.before.m, log);
    ChosenIsOk(conf, capacity, p, s.pair, s.before.m.pending, s.outcome.path);
    RememberedIs(p, s.before.m, s.pair, s.outcome.path, s.outcome.row.id);
    PlacementIs(capacity, p, prior, s);
    PlacementIsOk(conf, capacity, p, prior, s);
    SoundPlace(conf, capacity, p.now, s.before.m, log, Placed(p.now, s.pair, PlacementOf(capacity, p, prior, s)),
               s.outcome.row.id, p.since);
  }

  lemma SinceCongested(capacity: Rates, p: Pass, l: Link)
    requires PassOk(capacity, p) && l in p.congested
    ensures l in p.since
  {
    hide HeatOk, HostsAre;
  }

  lemma StoredParts(conf: Conf, capacity: Rates, p: Pass, prior: seq<Step>, s: Step)
    requires TryOk(conf, capacity, p, prior, s) && IsStored(s)
    ensures s.pair in p.pairs && s.link in p.congested && s.pair in Candidates(conf, capacity, p, s.link)
    ensures Chosen(conf, capacity, p, s.pair, s.before.m.pending, s.outcome.path)
    ensures s.after.m == Remembered(p, s.before.m, s.pair, s.outcome.path, s.outcome.row.id)
    ensures !HeldDown(s.before.m.moved, s.pair, p.now - conf.holdDown)
  {
    hide Candidates, Chosen, NoneChosen, LinkLeft, Load, TriedAt, RowFor, RoomForAnother, PairsOn, Remembered, AutosAt;
  }

  lemma RememberedIs(p: Pass, m: Memory, k: Pair, path: seq<Node>, id: PathId)
    requires k in p.pairs
    ensures Remembered(p, m, k, path, id) ==
            Memory(m.moved[k := p.now], MarkAll(m.linkMoved, p.pairs[k].links.Keys, p.now), m.idleSince - {id},
                   m.pending[k := Reservation(p.now, OnPath(path, p.pairs[k].rate))])
  {
    hide OnPath, MarkAll;
  }

  lemma PlacementIs(capacity: Rates, p: Pass, prior: seq<Step>, s: Step)
    requires IsStored(s) && s.pair in p.pairs && s.link in p.since
    ensures var x := PlacementOf(capacity, p, prior, s);
            && x.pr == p.pairs[s.pair] && x.link == s.link && x.since == p.since[s.link] && x.pending == s.after.m.pending
            && x.path == s.outcome.path
  {
    hide Load;
  }

  lemma PlacementIsOk(conf: Conf, capacity: Rates, p: Pass, prior: seq<Step>, s: Step)
    requires PassOk(capacity, p) && TryOk(conf, capacity, p, prior, s) && IsStored(s)
    requires s.pair in p.pairs && s.link in p.since && s.link in p.pairs[s.pair].links
    requires var path, pr := s.outcome.path, p.pairs[s.pair];
             && path != [] && path[0] == pr.shost && Last(path) == pr.dhost
             && forall l | l in LinksOf(path) ::
                  && l in capacity && l !in p.congested && l !in p.dead
                  && Base(p.measured, pr.links, l) + ReservedOn(s.after.m.pending, l) <= Part(conf.fit, capacity[l])
    ensures PlacementOk(conf, capacity, PlacementOf(capacity, p, prior, s))
  {
    hide OutcomeOk, Load, Avoid, LinksOf, Base, ReservedOn, Part, Last, Candidates, PairsOn, Decides, PassOk, IsNext;
    NextIsCandidate(conf, capacity, p, prior, s.link, s.pair);
    AvoidIs(p);
    CandidateParts(conf, capacity, p, s.link, s.pair);
    TwoOn(p.pairs, s.link);
  }

  lemma NextIsCandidate(conf: Conf, capacity: Rates, p: Pass, prior: seq<Step>, l: Link, k: Pair)
    requires IsNext(conf, capacity, p, prior, l, k)
    ensures k in Candidates(conf, capacity, p, l) && !TriedAt(prior, l, k)
  {
    hide LinkLeft, TriedAt, Candidates, Ahead, HotterFirst;
  }

  // ------------------------------------------------------------------
  // What is stored is what is reserved
  // ------------------------------------------------------------------
  // The hops of a stored list between the pair's ends carry the pair's rate in
  // the reservation, and no other link does.
  ghost predicate RunsOver(pr: PairInfo, via: seq<Node>, reserved: Rates) {
    && (forall l :: l in reserved <==> l in LinksOf([pr.shost] + via + [pr.dhost]))
    && forall l | l in reserved :: reserved[l] == pr.rate
  }

  // An automatic path of the pair is stored that runs over exactly the links
  // reserved for it. A pair within one node runs over no link.
  ghost predicate Pinned(p: Pass, w: World, k: Pair) {
    && k in p.pairs && k in w.m.pending && w.m.pending[k].at == p.now
    && exists id :: id in w.paths && IsAuto(w.paths[id]) && PairOf(w.paths[id]) == k
                    && if p.pairs[k].shost == p.pairs[k].dhost then w.paths[id].via == [] && w.m.pending[k].links == map[]
                       else RunsOver(p.pairs[k], w.paths[id].via, w.m.pending[k].links)
  }

  ghost predicate PairsNamed(p: Pass) {
    forall k | k in p.pairs :: p.pairs[k].sport == k.0 && p.pairs[k].dport == k.1
  }

  lemma PathRunsOver(pr: PairInfo, path: seq<Node>)
    requires path != [] && path[0] == pr.shost && Last(path) == pr.dhost && pr.shost != pr.dhost
    ensures RunsOver(pr, Via(path), OnPath(path, pr.rate))
  {
    ViaIsWhole(path);
    hide Via, LinksOf;
  }

  // A simple path back to where it began is that node alone.
  lemma WithinNode(path: seq<Node>)
    requires path != [] && Simple(path) && path[0] == Last(path)
    ensures Via(path) == [] && LinksOf(path) == []
  {
    assert |path| <= 1;
  }

  lemma ChosenIsSimple(conf: Conf, capacity: Rates, p: Pass, k: Pair, pending: Pendings, path: seq<Node>)
    requires k in p.pairs && Chosen(conf, capacity, p, k, pending, path)
    ensures Simple(path) && path != [] && path[0] == p.pairs[k].shost && Last(path) == p.pairs[k].dhost
  {
    hide UsedIs, Fits, Avoid, Pce.Canonical, Simple, Last;
    var pr := p.pairs[k];
    var used :| UsedIs(used, p.measured, pr.links, pending, k) && IsBest(capacity, p, pr, used, path)
                && Fits(conf, capacity, used, pr.rate, path);
    CanonicalParts(Usable(capacity, Avoid(p)), used, pr.rate, pr.shost, pr.dhost, path);
    Pce.CanonicalIsBest(Usable(capacity, Avoid(p)), used, pr.shost, pr.dhost, pr.rate, path);
  }

  lemma StoredIsPinned(conf: Conf, capacity: Rates, p: Pass, autos: set<Pair>, s: Step)
    requires OutcomeOk(conf, capacity, p, autos, s) && IsStored(s) && PairsNamed(p)
    ensures Pinned(p, s.after, s.pair)
  {
    assert s.Try? && s.outcome.Stored?;
    hide *;
    StoredRowIs(conf, capacity, p, autos, s);
    var pr, path := p.pairs[s.pair], s.outcome.path;
    ChosenIsSimple(conf, capacity, p, s.pair, s.before.m.pending, path);
    RememberedIs(p, s.before.m, s.pair, path, s.outcome.row.id);
    if pr.shost == pr.dhost {
      WithinNode(path);
      NoLinks(path, pr.rate);
    } else {
      PathRunsOver(pr, path);
    }
    PinnedBy(p, s.after, s.pair, s.outcome.row);
  }

  lemma NoLinks(path: seq<Node>, rate: real)
    requires LinksOf(path) == []
    ensures OnPath(path, rate) == map[]
  {
  }

  lemma StoredRowIs(conf: Conf, capacity: Rates, p: Pass, autos: set<Pair>, s: Step)
    requires OutcomeOk(conf, capacity, p, autos, s) && IsStored(s) && PairsNamed(p)
    ensures s.pair in p.pairs && Chosen(conf, capacity, p, s.pair, s.before.m.pending, s.outcome.path)
    ensures s.after.m == Remembered(p, s.before.m, s.pair, s.outcome.path, s.outcome.row.id)
    ensures var row := s.outcome.row;
            && s.after.paths == s.before.paths[row.id := row] && IsAuto(row) && PairOf(row) == s.pair
            && row.via == Via(s.outcome.path)
            && (row.id in s.before.paths ==> IsAuto(s.before.paths[row.id]) && PairOf(s.before.paths[row.id]) == s.pair)
  {
    hide RoomForAnother, Chosen, NoneChosen, Remembered, Via;
  }

  lemma TriedOutcome(conf: Conf, capacity: Rates, p: Pass, prior: seq<Step>, s: Step)
    requires TryOk(conf, capacity, p, prior, s)
    ensures s.Try? && OutcomeOk(conf, capacity, p, AutosAt(p, prior, s.link), s)
  {
    hide IsNext, Load, PairsOn, OutcomeOk, AutosAt;
  }

  lemma PinnedBy(p: Pass, w: World, k: Pair, row: TePath)
    requires k in p.pairs && k in w.m.pending && w.m.pending[k].at == p.now
    requires row.id in w.paths && w.paths[row.id] == row && IsAuto(row) && PairOf(row) == k
    requires if p.pairs[k].shost == p.pairs[k].dhost then row.via == [] && w.m.pending[k].links == map[]
             else RunsOver(p.pairs[k], row.via, w.m.pending[k].links)
    ensures Pinned(p, w, k)
  {
    hide RunsOver;
  }

  // A pair placed before stays so.
  lemma StaysPinned(conf: Conf, capacity: Rates, p: Pass, prior: seq<Step>, s: Step, k: Pair)
    requires TryOk(conf, capacity, p, prior, s) && PairsNamed(p) && Pinned(p, s.before, k) && !(IsStored(s) && s.pair == k)
    ensures Pinned(p, s.after, k)
  {
    if IsStored(s) {
      assert s.Try? && s.outcome.Stored?;
      hide TryOk, RunsOver, OutcomeOk, PairsNamed;
      TriedOutcome(conf, capacity, p, prior, s);
      StoredRowIs(conf, capacity, p, AutosAt(p, prior, s.link), s);
      RememberedIs(p, s.before.m, s.pair, s.outcome.path, s.outcome.row.id);
      OthersPinned(p, s.before, s.after, k, s.pair, s.outcome.row);
    } else {
      NothingStored(conf, capacity, p, prior, s);
      hide TryOk, RunsOver;
    }
  }

  lemma OthersPinned(p: Pass, w: World, after: World, k: Pair, other: Pair, row: TePath)
    requires Pinned(p, w, k) && k != other && after.paths == w.paths[row.id := row]
    requires row.id in w.paths ==> IsAuto(w.paths[row.id]) && PairOf(w.paths[row.id]) == other
    requires k in after.m.pending && w.m.pending[k] == after.m.pending[k]
    ensures Pinned(p, after, k)
  {
    hide RunsOver;
    var id :| id in w.paths && IsAuto(w.paths[id]) && PairOf(w.paths[id]) == k
           && if p.pairs[k].shost == p.pairs[k].dhost then w.paths[id].via == [] && w.m.pending[k].links == map[]
              else RunsOver(p.pairs[k], w.paths[id].via, w.m.pending[k].links);
    assert id in after.paths && after.paths[id] == w.paths[id];
  }

  lemma NothingStoredIn()
    ensures StoredIn([]) == {}
  {
  }

  lemma StoredInStep(prior: seq<Step>, s: Step, run: seq<Step>)
    requires run == prior + [s]
    ensures StoredIn(run) == StoredIn(prior) + if IsStored(s) then {s.pair} else {}
  {
    assert run[|prior|] == s && forall i | 0 <= i < |prior| :: run[i] == prior[i];
    forall k
      ensures k in StoredIn(run) <==> k in StoredIn(prior) || (IsStored(s) && s.pair == k)
    {
      if k in StoredIn(prior) {
        var i :| 0 <= i < |prior| && IsStored(prior[i]) && prior[i].pair == k;
        assert run[i] == prior[i];
      }
    }
  }

  // Every pair a pass placed ends it pinned.
  lemma {:induction false} AllPinned(conf: Conf, capacity: Rates, p: Pass, spent: nat, start: World, run: seq<Step>, k: Pair)
    requires PassOk(capacity, p) && Tries(conf, capacity, p, spent, start, run) && k in StoredIn(run)
    ensures Pinned(p, EndOf(start, run), k)
  {
    NamedPairs(capacity, p);
    hide TryOk, PassOk, StoredIn, Pinned, Moves, PairsNamed, OutcomeOk, AutosAt;
    if run == [] {
      NothingStoredIn();
    } else {
      var s, prior := run[|run| - 1], run[..|run| - 1];
      assert run == prior + [s];
      StoredInStep(prior, s, run);
      if IsStored(s) && s.pair == k {
        TriedOutcome(conf, capacity, p, prior, s);
        StoredIsPinned(conf, capacity, p, AutosAt(p, prior, s.link), s);
      } else {
        AllPinned(conf, capacity, p, spent, start, prior, k);
        StaysPinned(conf, capacity, p, prior, s, k);
      }
    }
  }

  lemma NamedPairs(capacity: Rates, p: Pass)
    requires PassOk(capacity, p)
    ensures PairsNamed(p)
  {
    hide HeatOk, HostsAre;
  }

  // A try that stored nothing leaves the memory.
  lemma NothingStored(conf: Conf, capacity: Rates, p: Pass, prior: seq<Step>, s: Step)
    requires TryOk(conf, capacity, p, prior, s) && !IsStored(s)
    ensures s.after.m == s.before.m && s.after.paths == s.before.paths
  {
    hide IsNext, Load, RoomForAnother, Chosen, NoneChosen, AutosAt, PairsOn;
  }

  lemma {:induction false} SoundTries(conf: Conf, capacity: Rates, p: Pass, spent: nat, start: World, run: seq<Step>, log: Log)
    requires conf.holdDown >= 0.0 && PassOk(capacity, p) && Tries(conf, capacity, p, spent, start, run)
    requires Sound(conf, capacity, p.now, start.m, log) && FreshFor(p.now, p.since, log.actions)
    ensures Sound(conf, capacity, p.now, EndOf(start, run).m, TriesLog(capacity, p, log, run))
    ensures FreshFor(p.now, p.since, TriesLog(capacity, p, log, run).actions)
  {
    hide Sound, TryOk, FreshFor, PlacementOf, PassOk, Moves;
    if run != [] {
      var s, prior := run[|run| - 1], run[..|run| - 1];
      SoundTries(conf, capacity, p, spent, start, prior, log);
      if IsStored(s) {
        SoundTry(conf, capacity, p, prior, s, TriesLog(capacity, p, log, prior));
      } else {
        NothingStored(conf, capacity, p, prior, s);
      }
    }
  }

  // Any run of a pass, from a sound memory, leaves a sound memory.
  lemma PassIsSound(conf: Conf, capacity: Rates, p: Pass, looks: seq<Step>, tries: seq<Step>, start: World, end: World, log: Log)
    requires conf.holdDown >= 0.0 && PassOk(capacity, p) && PassRun(conf, capacity, p, looks, tries, start, end)
    requires Sound(conf, capacity, p.now, start.m, log) && FreshFor(p.now, p.since, log.actions)
    ensures Sound(conf, capacity, p.now, end.m, PassLog(capacity, p, log, looks, tries))
  {
    SoundLooks(conf, capacity, p, start, looks, log);
    SoundTries(conf, capacity, p, Releases(looks), EndOf(start, looks), tries, LooksLog(capacity, p, log, looks));
    hide Looks, Tries, Sound, FreshFor, PassOk, LooksDone, TriesDone;
  }
}
