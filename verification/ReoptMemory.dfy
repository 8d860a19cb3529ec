// The memory of the re-optimisation as values, and what it must remember for
// the promises about whole runs to hold.

module ReoptMemory {
  import opened Graph
  import opened Totals
  import opened TeRows
  import ShortestLinks

  // Seconds; any clock will do that does not run backwards.
  type Time = real
  // (source port, destination port)
  type Pair = (Port, Port)

  datatype Conf = Conf(
    steering: bool, high: real, low: real, samples: nat, holdDown: real, maxMoves: nat,
    minShare: real, fit: real, releaseAfter: real, maxPaths: nat, maxRules: nat, window: real)

  // One VM pair as the fabric measures it: its rate on each link, and the
  // rate that reaches the destination's node.
  datatype PairInfo = PairInfo(domain: nat, sport: Port, dport: Port, shost: Node, dhost: Node, links: Rates, rate: real)

  // A share of a capacity.
  function Part(share: real, capacity: real): real {
    share * capacity
  }

  function RateOn(links: Rates, l: Link): real {
    if l in links then links[l] else 0.0
  }

  // ------------------------------------------------------------------
  // What happened, in order
  // ------------------------------------------------------------------
  // A pair placed: off which link, onto which path, and what was known.
  datatype Placement = Placement(
    pr: PairInfo, link: Link, path: seq<Node>,
    measured: Rates, pending: Pendings, avoid: set<Link>, paths: set<TePath>,
    pairs: map<Pair, PairInfo>, load: real, since: Time)

  // A release for idleness points at the examinations it rests on.
  datatype Why =
    | Idle(first: nat, last: nat)
    | Roomy(rate: real, own: Rates, measured: Rates, live: Rates, src: Node, dst: Node, congested: set<Link>)

  datatype Action =
    | Placed(at: Time, pair: Pair, what: Placement)
    | Released(at: Time, pair: Pair, id: PathId, why: Why)

  // One look at an automatic path: its pair's rate against the floor its
  // links set.
  datatype Exam = Exam(at: Time, id: PathId, rate: real, floor: real, hops: seq<Link>)

  predicate IsIdle(e: Exam) {
    e.rate == 0.0 || e.rate < e.floor
  }

  // ------------------------------------------------------------------
  // Hold-down
  // ------------------------------------------------------------------
  // Two actions on one pair are at least the hold-down apart, and whatever
  // still holds a pair down is remembered.
  ghost predicate Damped(holdDown: real, clock: Time, moved: map<Pair, Time>, actions: seq<Action>) {
    && (forall i | 0 <= i < |actions| :: actions[i].at <= clock)
    && (forall i | 0 <= i < |actions| && actions[i].at > clock - holdDown ::
          actions[i].pair in moved && moved[actions[i].pair] >= actions[i].at)
    && (forall i, j | 0 <= i < j < |actions| && actions[i].pair == actions[j].pair ::
          actions[j].at - actions[i].at >= holdDown)
  }

  predicate HeldDown(moved: map<Pair, Time>, k: Pair, hold: Time) {
    k in moved && moved[k] > hold
  }

  function Unexpired(moved: map<Pair, Time>, hold: Time): (kept: map<Pair, Time>)
    ensures forall k :: k in kept <==> HeldDown(moved, k, hold)
  {
    map k | k in moved && moved[k] > hold :: moved[k]
  }

  // Forgetting what no longer holds anything down loses nothing.
  lemma DampedPrune(holdDown: real, clock: Time, now: Time, moved: map<Pair, Time>, actions: seq<Action>)
    requires Damped(holdDown, clock, moved, actions) && clock <= now
    ensures Damped(holdDown, now, Unexpired(moved, now - holdDown), actions)
  {
  }

  lemma DampedStep(holdDown: real, now: Time, moved: map<Pair, Time>, actions: seq<Action>, a: Action)
    requires holdDown >= 0.0 && Damped(holdDown, now, moved, actions)
    requires a.at == now && !HeldDown(moved, a.pair, now - holdDown)
    ensures Damped(holdDown, now, moved[a.pair := now], actions + [a])
  {
  }

  // ------------------------------------------------------------------
  // Idle since
  // ------------------------------------------------------------------
  // `first` names the examination that started each idle spell: the path has
  // been idle whenever it was looked at since.
  ghost predicate IdleTracked(idleSince: map<PathId, Time>, first: map<PathId, nat>, exams: seq<Exam>) {
    forall id | id in idleSince :: id in first && IdleFrom(exams, first[id], |exams|, id) && exams[first[id]].at == idleSince[id]
  }

  ghost predicate IdleFrom(exams: seq<Exam>, from_: nat, to: nat, id: PathId) {
    && from_ < to <= |exams| && exams[from_].id == id
    && forall i | from_ <= i < to && exams[i].id == id :: IsIdle(exams[i])
  }

  // Examining a path: an idle one keeps its spell or starts one.
  lemma ExamIdle(idleSince: map<PathId, Time>, first: map<PathId, nat>, exams: seq<Exam>, e: Exam)
    requires IdleTracked(idleSince, first, exams) && IsIdle(e)
    ensures var exams' := exams + [e];
            && IdleTracked(if e.id in idleSince then idleSince else idleSince[e.id := e.at],
                           if e.id in idleSince then first else first[e.id := |exams|], exams')
  {
    var exams' := exams + [e];
    forall id | id in idleSince
      ensures IdleFrom(exams', first[id], |exams'|, id) && exams'[first[id]] == exams[first[id]]
    {
    }
    assert IdleFrom(exams', |exams|, |exams'|, e.id);
  }

  lemma ExamBusy(idleSince: map<PathId, Time>, first: map<PathId, nat>, exams: seq<Exam>, e: Exam)
    requires IdleTracked(idleSince, first, exams)
    ensures IdleTracked(idleSince - {e.id}, first, exams + [e])
  {
    var exams' := exams + [e];
    forall id | id in idleSince && id != e.id
      ensures IdleFrom(exams', first[id], |exams'|, id) && exams'[first[id]] == exams[first[id]]
    {
    }
  }

  // Every release for idleness rests on a spell long enough.
  ghost predicate ReleaseOk(conf: Conf, exams: seq<Exam>, a: Action) {
    a.Released? ==>
      match a.why
      case Idle(first, last) =>
        && first <= last < |exams| && exams[last].id == a.id && exams[last].at == a.at
        && IdleFrom(exams, first, last + 1, a.id)
        && a.at - exams[first].at >= conf.releaseAfter
      case Roomy(rate, own, measured, live, src, dst, congested) =>
        RoomAgain(conf, rate, own, measured, live, src, dst, congested)
  }

  // Every default link, were it to take all of the pair, would stay at or
  // below the low mark; none is congested; and there is one.
  ghost predicate RoomAgain(conf: Conf, rate: real, own: Rates, measured: Rates, live: Rates,
                            src: Node, dst: Node, congested: set<Link>) {
    && (exists l :: DefaultLink(live, src, dst, l))
    && forall l | DefaultLink(live, src, dst, l) ::
         l in live && l !in congested && Base(measured, own, l) + rate <= Part(conf.low, live[l])
  }

  // A link of some fewest-hop path.
  ghost predicate DefaultLink(live: Rates, src: Node, dst: Node, l: Link) {
    src != dst && ShortestLinks.OnShortestPath(live, src, dst, l)
  }

  ghost predicate ReleasesOk(conf: Conf, exams: seq<Exam>, actions: seq<Action>) {
    forall i | 0 <= i < |actions| :: ReleaseOk(conf, exams, actions[i])
  }

  lemma ReleasesStayOk(conf: Conf, exams: seq<Exam>, actions: seq<Action>, e: Exam)
    requires ReleasesOk(conf, exams, actions)
    ensures ReleasesOk(conf, exams + [e], actions)
  {
    hide RoomAgain;
    forall i | 0 <= i < |actions|
      ensures ReleaseOk(conf, exams + [e], actions[i])
    {
      assert ReleaseOk(conf, exams, actions[i]);
    }
  }

  // ------------------------------------------------------------------
  // Reservations
  // ------------------------------------------------------------------
  datatype Reservation = Reservation(at: Time, links: Rates)
  type Pendings = map<Pair, Reservation>

  // What each pair still pending holds of a link.
  ghost function Shares(pending: Pendings, l: Link): map<Pair, real> {
    map k | k in pending :: RateOn(pending[k].links, l)
  }

  ghost function ReservedOn(pending: Pendings, l: Link): real {
    Total(Shares(pending, l))
  }

  ghost predicate RatesOk(capacity: Rates, pending: Pendings) {
    forall k | k in pending :: LinksOk(capacity, pending[k].links)
  }

  ghost predicate LinksOk(capacity: Rates, links: Rates) {
    forall l | l in links :: l in capacity && links[l] >= 0.0
  }

  // No link is promised more than its share.
  ghost predicate NotOvercommitted(conf: Conf, capacity: Rates, pending: Pendings) {
    RatesOk(capacity, pending) && forall l | l in capacity :: ReservedOn(pending, l) <= Part(conf.fit, capacity[l])
  }

  // The measured load of a link without the pair's own traffic: the least
  // that with it accounts for what was measured.
  function Base(measured: Rates, own: Rates, l: Link): (base: real)
    ensures base >= 0.0 && (l in measured ==> measured[l] <= base + RateOn(own, l))
    ensures base > 0.0 ==> l in measured && base + RateOn(own, l) == measured[l]
  {
    if l !in measured then 0.0
    else if measured[l] > RateOn(own, l) then measured[l] - RateOn(own, l) else 0.0
  }

  function StillPending(pending: Pendings, seen: Time): Pendings {
    map k | k in pending && pending[k].at > seen :: pending[k]
  }

  lemma PartReserves(capacity: Rates, part: Pendings, pending: Pendings, l: Link)
    requires RatesOk(capacity, pending) && part.Keys <= pending.Keys && forall k | k in part :: part[k] == pending[k]
    ensures 0.0 <= ReservedOn(part, l) <= ReservedOn(pending, l)
  {
    var shares := Shares(pending, l);
    forall k | k in shares
      ensures shares[k] >= 0.0
    {
      assert LinksOk(capacity, pending[k].links);
    }
    TotalOfPart(Shares(part, l), shares);
  }

  lemma ReservePrune(conf: Conf, capacity: Rates, pending: Pendings, seen: Time)
    requires NotOvercommitted(conf, capacity, pending)
    ensures NotOvercommitted(conf, capacity, StillPending(pending, seen))
  {
    hide LinksOk, ReservedOn;
    forall l | l in capacity
      ensures ReservedOn(StillPending(pending, seen), l) <= Part(conf.fit, capacity[l])
    {
      PartReserves(capacity, StillPending(pending, seen), pending, l);
    }
  }

  lemma ReservedWith(pending: Pendings, k: Pair, r: Reservation, l: Link)
    ensures ReservedOn(pending[k := r], l) == ReservedOn(pending - {k}, l) + RateOn(r.links, l)
  {
    assert Shares(pending[k := r], l) == Shares(pending, l)[k := RateOn(r.links, l)];
    assert Shares(pending - {k}, l) == Shares(pending, l) - {k};
    TotalUpdate(Shares(pending, l), k, RateOn(r.links, l));
  }

  function OnPath(path: seq<Node>, rate: real): Rates {
    map l | l in LinksOf(path) :: rate
  }

  ghost predicate RoomFor(conf: Conf, capacity: Rates, pending: Pendings, k: Pair, rate: real, measured: Rates,
                          own: Rates, l: Link) {
    l in capacity && Base(measured, own, l) + ReservedOn(pending - {k}, l) + rate <= Part(conf.fit, capacity[l])
  }

  // A pair placed on a path where every link has room for it besides what
  // the others hold.
  lemma ReservePlace(conf: Conf, capacity: Rates, pending: Pendings, k: Pair, now: Time, path: seq<Node>, rate: real,
                     measured: Rates, own: Rates)
    requires NotOvercommitted(conf, capacity, pending) && rate >= 0.0
    requires forall l | l in LinksOf(path) :: RoomFor(conf, capacity, pending, k, rate, measured, own, l)
    ensures var pending' := pending[k := Reservation(now, OnPath(path, rate))];
            && NotOvercommitted(conf, capacity, pending')
            && forall l | l in LinksOf(path) ::
                 l in capacity && Base(measured, own, l) + ReservedOn(pending', l) <= Part(conf.fit, capacity[l])
  {
    var r := Reservation(now, OnPath(path, rate));
    hide ReservedOn, Base, LinksOf, RatesOk, OnPath;
    PlaceKeepsRates(conf, capacity, pending, k, now, path, rate);
    forall l | l in capacity
      ensures ReservedOn(pending[k := r], l) <= Part(conf.fit, capacity[l])
      ensures l in LinksOf(path) ==> Base(measured, own, l) + ReservedOn(pending[k := r], l) <= Part(conf.fit, capacity[l])
    {
      PlaceOnLink(conf, capacity, pending, k, now, path, rate, measured, own, l);
    }
  }

  lemma PlaceKeepsRates(conf: Conf, capacity: Rates, pending: Pendings, k: Pair, now: Time, path: seq<Node>, rate: real)
    requires RatesOk(capacity, pending) && rate >= 0.0 && forall l | l in LinksOf(path) :: l in capacity
    ensures RatesOk(capacity, pending[k := Reservation(now, OnPath(path, rate))])
  {
    hide LinksOf;
    assert LinksOk(capacity, OnPath(path, rate));
    hide LinksOk;
  }

  lemma PlaceOnLink(conf: Conf, capacity: Rates, pending: Pendings, k: Pair, now: Time, path: seq<Node>, rate: real,
                    measured: Rates, own: Rates, l: Link)
    requires NotOvercommitted(conf, capacity, pending) && l in capacity
    requires l in LinksOf(path) ==> RoomFor(conf, capacity, pending, k, rate, measured, own, l)
    ensures var held := ReservedOn(pending[k := Reservation(now, OnPath(path, rate))], l);
            held <= Part(conf.fit, capacity[l]) && (l in LinksOf(path) ==> Base(measured, own, l) + held <= Part(conf.fit, capacity[l]))
  {
    hide ReservedOn, LinksOf, RatesOk;
    ReservedWith(pending, k, Reservation(now, OnPath(path, rate)), l);
    PartReserves(capacity, pending - {k}, pending, l);
    BaseIsPositive(measured, own, l);
  }

  lemma BaseIsPositive(measured: Rates, own: Rates, l: Link)
    ensures Base(measured, own, l) >= 0.0
  {
  }

  // ------------------------------------------------------------------
  // Placements
  // ------------------------------------------------------------------
  // A path of the pair's domain and destination, and of its source: any
  // rank of user path decides the pair's route.
  predicate Decides(p: TePath, pr: PairInfo) {
    && !p.auto && p.domain == pr.domain
    && (match p.to case ToPort(d) => d == pr.dport case ToHost(h) => h == pr.dhost)
    && (match p.from_ case FromPort(s) => s == pr.sport case FromHost(h) => h == pr.shost case AnySource => true)
  }

  // Only where it helps and only where it fits: the link still carries more
  // than the low mark, the pair is a large share of it and not alone on it,
  // no user path covers it, and its new path avoids dead and congested links
  // and leaves each of its links within the fit.
  ghost predicate PlacementOk(conf: Conf, capacity: Rates, x: Placement) {
    && x.link in capacity && x.link in x.pr.links
    && x.pr.links[x.link] >= Part(conf.minShare, capacity[x.link])
    && (exists k, k' :: k in x.pairs && k' in x.pairs && k != k' && x.link in x.pairs[k].links && x.link in x.pairs[k'].links)
    && (forall p | p in x.paths :: !Decides(p, x.pr))
    && x.load > Part(conf.low, capacity[x.link])
    && PathFits(conf, capacity, x)
  }

  ghost predicate PathFits(conf: Conf, capacity: Rates, x: Placement) {
    && x.path != [] && x.path[0] == x.pr.shost && Last(x.path) == x.pr.dhost
    && forall l | l in LinksOf(x.path) ::
         l in capacity && l !in x.avoid
         && Base(x.measured, x.pr.links, l) + ReservedOn(x.pending, l) <= Part(conf.fit, capacity[l])
  }

  ghost predicate PlacementsOk(conf: Conf, capacity: Rates, actions: seq<Action>) {
    forall i | 0 <= i < |actions| && actions[i].Placed? :: PlacementOk(conf, capacity, actions[i].what)
  }

  // ------------------------------------------------------------------
  // Moves show in the data first
  // ------------------------------------------------------------------
  // A link's mark is no older than the last placement off it.
  ghost predicate LinksMarked(linkMoved: map<Link, Time>, actions: seq<Action>) {
    forall i, l | 0 <= i < |actions| && actions[i].Placed? && l in actions[i].what.pr.links ::
      l in linkMoved && linkMoved[l] >= actions[i].at
  }

  // A pair is only placed off a link on samples newer than every placement
  // of an earlier pass off that link.
  ghost predicate JudgedAfresh(actions: seq<Action>) {
    forall i, j | 0 <= i < |actions| && 0 <= j < |actions| && actions[i].Placed? && actions[j].Placed? ::
      IsNewer(actions[i], actions[j])
  }

  ghost predicate IsNewer(a: Action, b: Action)
    requires a.Placed? && b.Placed?
  {
    a.at < b.at && b.what.link in a.what.pr.links ==> b.what.since > a.at
  }

  // Every sample the pass judges a link by is newer than the moves off it.
  ghost predicate FreshFor(now: Time, since: map<Link, Time>, actions: seq<Action>) {
    forall i, l | 0 <= i < |actions| && actions[i].Placed? && l in actions[i].what.pr.links && l in since ::
      actions[i].at < now ==> since[l] > actions[i].at
  }

  function MarkAll(linkMoved: map<Link, Time>, links: set<Link>, now: Time): map<Link, Time> {
    linkMoved + map l | l in links :: now
  }

  lemma MarksStep(clock: Time, now: Time, linkMoved: map<Link, Time>, actions: seq<Action>, links: set<Link>)
    requires LinksMarked(linkMoved, actions) && clock <= now && forall i | 0 <= i < |actions| :: actions[i].at <= clock
    ensures LinksMarked(MarkAll(linkMoved, links, now), actions)
  {
  }

  lemma AfreshStep(now: Time, since: map<Link, Time>, actions: seq<Action>, a: Action)
    requires JudgedAfresh(actions) && FreshFor(now, since, actions) && forall i | 0 <= i < |actions| :: actions[i].at <= now
    requires a.Placed? && a.at == now && a.what.link in since && a.what.since == since[a.what.link]
    ensures JudgedAfresh(actions + [a]) && FreshFor(now, since, actions + [a])
  {
    forall i | 0 <= i < |actions| && actions[i].Placed?
      ensures IsNewer(actions[i], a) && IsNewer(a, actions[i])
    {
    }
    hide IsNewer;
  }

  // ------------------------------------------------------------------
  // The whole memory
  // ------------------------------------------------------------------
  datatype Log = Log(actions: seq<Action>, exams: seq<Exam>, first: map<PathId, nat>)

  datatype Memory = Memory(moved: map<Pair, Time>, linkMoved: map<Link, Time>, idleSince: map<PathId, Time>, pending: Pendings)

  // The floor is the least share of a link the topology knows.
  ghost predicate FloorIs(conf: Conf, capacity: Rates, hops: seq<Link>, floor: real) {
    && ((forall l | l in hops :: l !in capacity) ==> floor == 0.0)
    && ((exists l :: l in hops && l in capacity) ==>
          exists l :: l in hops && l in capacity && floor == Part(conf.minShare, capacity[l])
                   && forall m | m in hops && m in capacity :: capacity[l] <= capacity[m])
  }

  ghost predicate Sound(conf: Conf, capacity: Rates, clock: Time, m: Memory, log: Log) {
    && Damped(conf.holdDown, clock, m.moved, log.actions)
    && LinksMarked(m.linkMoved, log.actions) && JudgedAfresh(log.actions)
    && IdleTracked(m.idleSince, log.first, log.exams)
    && ExamsOk(conf, capacity, log.exams)
    && ReleasesOk(conf, log.exams, log.actions)
    && NotOvercommitted(conf, capacity, m.pending)
    && PlacementsOk(conf, capacity, log.actions)
    && Reserved(conf.window, clock, m.pending, log.actions) && Current(conf, clock, m)
  }

  // The newest placement of each pair holds its links for the window.
  ghost predicate Reserved(window: real, clock: Time, pending: Pendings, actions: seq<Action>) {
    forall i | 0 <= i < |actions| && actions[i].Placed? && actions[i].at > clock - window && IsNewest(actions, i) ::
      && actions[i].pair in pending
      && pending[actions[i].pair] == Reservation(actions[i].at, OnPath(actions[i].what.path, actions[i].what.pr.rate))
  }

  ghost predicate IsNewest(actions: seq<Action>, i: nat)
    requires i < |actions|
  {
    forall j | i < j < |actions| && actions[j].Placed? :: actions[j].pair != actions[i].pair
  }

  // Nothing is remembered longer than it holds a pair down, or a reservation.
  ghost predicate Current(conf: Conf, clock: Time, m: Memory) {
    && (forall k | k in m.moved :: m.moved[k] == clock || m.moved[k] > clock - conf.holdDown)
    && forall k | k in m.pending :: m.pending[k].at == clock || m.pending[k].at > clock - conf.window
  }

  lemma ReservedPrune(window: real, clock: Time, now: Time, pending: Pendings, actions: seq<Action>)
    requires Reserved(window, clock, pending, actions) && clock <= now
    ensures Reserved(window, now, StillPending(pending, now - window), actions)
  {
    hide OnPath, IsNewest;
  }

  lemma CurrentNow(conf: Conf, now: Time, m: Memory)
    ensures Current(conf, now, m.(moved := Unexpired(m.moved, now - conf.holdDown), pending := StillPending(m.pending, now - conf.window)))
  {
  }

  lemma ReservedRelease(window: real, clock: Time, pending: Pendings, actions: seq<Action>, a: Action)
    requires Reserved(window, clock, pending, actions) && a.Released?
    ensures Reserved(window, clock, pending, actions + [a])
  {
    hide OnPath;
    forall i | 0 <= i < |actions| && IsNewest(actions + [a], i)
      ensures IsNewest(actions, i)
    {
      forall j | i < j < |actions| && actions[j].Placed?
        ensures actions[j].pair != actions[i].pair
      {
        assert (actions + [a])[j] == actions[j];
      }
    }
    hide IsNewest;
  }

  lemma ReservedPlace(window: real, clock: Time, pending: Pendings, actions: seq<Action>, a: Action)
    requires Reserved(window, clock, pending, actions) && a.Placed?
    ensures Reserved(window, clock, pending[a.pair := Reservation(a.at, OnPath(a.what.path, a.what.pr.rate))], actions + [a])
  {
    hide OnPath;
    var after := actions + [a];
    forall i | 0 <= i < |actions| && IsNewest(after, i)
      ensures IsNewest(actions, i) && actions[i].pair != a.pair
    {
      assert after[|actions|] == a;
      forall j | i < j < |actions| && actions[j].Placed?
        ensures actions[j].pair != actions[i].pair
      {
        assert after[j] == actions[j];
      }
    }
    hide IsNewest;
  }

  lemma CurrentAfter(conf: Conf, now: Time, m: Memory, m': Memory, k: Pair)
    requires Current(conf, now, m) && m'.moved == m.moved[k := now]
    requires m'.pending == m.pending || (k in m'.pending && m'.pending[k].at == now && m'.pending == m.pending[k := m'.pending[k]])
    ensures Current(conf, now, m')
  {
  }

  lemma SoundAtFirst(conf: Conf, capacity: Rates, clock: Time)
    requires conf.fit >= 0.0 && forall l | l in capacity :: capacity[l] >= 0.0
    ensures Sound(conf, capacity, clock, Memory(map[], map[], map[], map[]), Log([], [], map[]))
  {
    forall l | l in capacity
      ensures ReservedOn(map[], l) <= Part(conf.fit, capacity[l])
    {
      assert Shares(map[], l) == map[];
      assert 0.0 <= Part(conf.fit, capacity[l]);
    }
  }

  // The start of a pass forgets what is out of date.
  lemma SoundPrune(conf: Conf, capacity: Rates, clock: Time, now: Time, m: Memory, log: Log)
    requires Sound(conf, capacity, clock, m, log) && clock <= now
    ensures var m' := m.(moved := Unexpired(m.moved, now - conf.holdDown), pending := StillPending(m.pending, now - conf.window));
            Sound(conf, capacity, now, m', log)
  {
    hide *;
    SoundParts(conf, capacity, clock, m, log);
    DampedPrune(conf.holdDown, clock, now, m.moved, log.actions);
    ReservePrune(conf, capacity, m.pending, now - conf.window);
    ReservedPrune(conf.window, clock, now, m.pending, log.actions);
    CurrentNow(conf, now, m);
    SoundFrom(conf, capacity, now,
      m.(moved := Unexpired(m.moved, now - conf.holdDown), pending := StillPending(m.pending, now - conf.window)), log);
  }

  // Forgetting an idle spell is always allowed.
  lemma SoundForget(conf: Conf, capacity: Rates, clock: Time, m: Memory, log: Log, alive: set<PathId>)
    requires Sound(conf, capacity, clock, m, log)
    ensures Sound(conf, capacity, clock, m.(idleSince := map k | k in m.idleSince && k in alive :: m.idleSince[k]), log)
  {
    hide Damped, LinksMarked, JudgedAfresh, ReleasesOk, NotOvercommitted, PlacementsOk, ExamsOk, IdleFrom, Reserved;
  }

  // An idle path's spell, as the examination just made found it.
  lemma SpellIs(conf: Conf, capacity: Rates, clock: Time, m: Memory, log: Log, id: PathId)
    requires Sound(conf, capacity, clock, m, log) && id in m.idleSince
    ensures id in log.first && IdleFrom(log.exams, log.first[id], |log.exams|, id)
    ensures log.exams[log.first[id]].at == m.idleSince[id]
  {
    hide Damped, LinksMarked, JudgedAfresh, ReleasesOk, NotOvercommitted, PlacementsOk, ExamsOk, IdleFrom, Reserved, Current;
  }

  ghost predicate ExamsOk(conf: Conf, capacity: Rates, exams: seq<Exam>) {
    forall i | 0 <= i < |exams| :: FloorIs(conf, capacity, exams[i].hops, exams[i].floor)
  }

  lemma SoundParts(conf: Conf, capacity: Rates, clock: Time, m: Memory, log: Log)
    requires Sound(conf, capacity, clock, m, log)
    ensures Damped(conf.holdDown, clock, m.moved, log.actions)
    ensures forall i | 0 <= i < |log.actions| :: log.actions[i].at <= clock
    ensures LinksMarked(m.linkMoved, log.actions) && JudgedAfresh(log.actions)
    ensures IdleTracked(m.idleSince, log.first, log.exams) && ExamsOk(conf, capacity, log.exams)
    ensures ReleasesOk(conf, log.exams, log.actions)
    ensures NotOvercommitted(conf, capacity, m.pending) && PlacementsOk(conf, capacity, log.actions)
    ensures Reserved(conf.window, clock, m.pending, log.actions) && Current(conf, clock, m)
  {
    hide LinksMarked, JudgedAfresh, IdleTracked, FloorIs, ReleasesOk, NotOvercommitted, PlacementsOk, Reserved, Current;
  }

  lemma SoundFrom(conf: Conf, capacity: Rates, clock: Time, m: Memory, log: Log)
    requires Damped(conf.holdDown, clock, m.moved, log.actions)
    requires LinksMarked(m.linkMoved, log.actions) && JudgedAfresh(log.actions)
    requires IdleTracked(m.idleSince, log.first, log.exams) && ExamsOk(conf, capacity, log.exams)
    requires ReleasesOk(conf, log.exams, log.actions)
    requires NotOvercommitted(conf, capacity, m.pending) && PlacementsOk(conf, capacity, log.actions)
    requires Reserved(conf.window, clock, m.pending, log.actions) && Current(conf, clock, m)
    ensures Sound(conf, capacity, clock, m, log)
  {
    hide Damped, LinksMarked, JudgedAfresh, IdleTracked, FloorIs, ReleasesOk, NotOvercommitted, PlacementsOk, Reserved, Current;
  }

  lemma SoundExam(conf: Conf, capacity: Rates, now: Time, m: Memory, log: Log, e: Exam)
    requires Sound(conf, capacity, now, m, log) && FloorIs(conf, capacity, e.hops, e.floor)
    ensures var idle := if !IsIdle(e) then m.idleSince - {e.id}
                        else if e.id in m.idleSince then m.idleSince else m.idleSince[e.id := e.at];
            Sound(conf, capacity, now, m.(idleSince := idle), AfterExam(log, m, e))
  {
    hide *;
    SoundParts(conf, capacity, now, m, log);
    ReleasesStayOk(conf, log.exams, log.actions, e);
    ExamsStep(conf, capacity, log.exams, e);
    AfterExamIs(log, m, e);
    SpellsAside(conf, now, m);
    if IsIdle(e) {
      ExamIdle(m.idleSince, log.first, log.exams, e);
      SoundFrom(conf, capacity, now, m.(idleSince := if e.id in m.idleSince then m.idleSince else m.idleSince[e.id := e.at]), AfterExam(log, m, e));
    } else {
      ExamBusy(m.idleSince, log.first, log.exams, e);
      SoundFrom(conf, capacity, now, m.(idleSince := m.idleSince - {e.id}), AfterExam(log, m, e));
    }
  }

  lemma SpellsAside(conf: Conf, clock: Time, m: Memory)
    requires Current(conf, clock, m)
    ensures forall idle :: Current(conf, clock, m.(idleSince := idle))
  {
  }

  ghost function AfterExam(log: Log, m: Memory, e: Exam): Log {
    log.(exams := log.exams + [e],
         first := if IsIdle(e) && e.id !in m.idleSince then log.first[e.id := |log.exams|] else log.first)
  }

  lemma AfterExamIs(log: Log, m: Memory, e: Exam)
    ensures AfterExam(log, m, e) == log.(exams := log.exams + [e],
              first := if IsIdle(e) && e.id !in m.idleSince then log.first[e.id := |log.exams|] else log.first)
  {
  }

  lemma ExamsStep(conf: Conf, capacity: Rates, exams: seq<Exam>, e: Exam)
    requires ExamsOk(conf, capacity, exams) && FloorIs(conf, capacity, e.hops, e.floor)
    ensures ExamsOk(conf, capacity, exams + [e])
  {
    hide FloorIs;
  }

  // A pair released: held down from now on, its idle spell over.
  lemma SoundRelease(conf: Conf, capacity: Rates, now: Time, m: Memory, log: Log, a: Action, links: set<Link>)
    requires conf.holdDown >= 0.0 && Sound(conf, capacity, now, m, log)
    requires a.Released? && a.at == now && !HeldDown(m.moved, a.pair, now - conf.holdDown)
    requires ReleaseOk(conf, log.exams, a)
    ensures Sound(conf, capacity, now,
                  Memory(m.moved[a.pair := now], MarkAll(m.linkMoved, links, now), m.idleSince - {a.id}, m.pending),
                  log.(actions := log.actions + [a]))
  {
    hide *;
    SoundParts(conf, capacity, now, m, log);
    DampedStep(conf.holdDown, now, m.moved, log.actions, a);
    MarksStep(now, now, m.linkMoved, log.actions, links);
    ReleasedAppend(conf, capacity, MarkAll(m.linkMoved, links, now), m.idleSince, log, a);
    ReservedRelease(conf.window, now, m.pending, log.actions, a);
    var m' := Memory(m.moved[a.pair := now], MarkAll(m.linkMoved, links, now), m.idleSince - {a.id}, m.pending);
    CurrentAfter(conf, now, m, m', a.pair);
    SoundFrom(conf, capacity, now, m', log.(actions := log.actions + [a]));
  }

  lemma ReleasedAppend(conf: Conf, capacity: Rates, linkMoved: map<Link, Time>, idleSince: map<PathId, Time>,
                       log: Log, a: Action)
    requires a.Released? && ReleaseOk(conf, log.exams, a)
    requires LinksMarked(linkMoved, log.actions) && JudgedAfresh(log.actions)
    requires IdleTracked(idleSince, log.first, log.exams)
    requires ReleasesOk(conf, log.exams, log.actions) && PlacementsOk(conf, capacity, log.actions)
    ensures LinksMarked(linkMoved, log.actions + [a]) && JudgedAfresh(log.actions + [a])
    ensures IdleTracked(idleSince - {a.id}, log.first, log.exams)
    ensures ReleasesOk(conf, log.exams, log.actions + [a]) && PlacementsOk(conf, capacity, log.actions + [a])
  {
    hide ReleaseOk, PlacementOk, IsNewer, IdleFrom;
  }

  // A pair placed.
  lemma SoundPlace(conf: Conf, capacity: Rates, now: Time, m: Memory, log: Log, a: Action, id: PathId,
                   since: map<Link, Time>)
    requires conf.holdDown >= 0.0 && Sound(conf, capacity, now, m, log) && FreshFor(now, since, log.actions)
    requires a.Placed? && a.at == now && !HeldDown(m.moved, a.pair, now - conf.holdDown)
    requires PlacementOk(conf, capacity, a.what) && NotOvercommitted(conf, capacity, a.what.pending)
    requires a.what.link in since && a.what.since == since[a.what.link]
    requires a.what.pending == m.pending[a.pair := Reservation(now, OnPath(a.what.path, a.what.pr.rate))]
    ensures Sound(conf, capacity, now,
                  Memory(m.moved[a.pair := now], MarkAll(m.linkMoved, a.what.pr.links.Keys, now), m.idleSince - {id}, a.what.pending),
                  log.(actions := log.actions + [a]))
    ensures FreshFor(now, since, log.actions + [a])
  {
    hide *;
    SoundParts(conf, capacity, now, m, log);
    DampedStep(conf.holdDown, now, m.moved, log.actions, a);
    MarksStep(now, now, m.linkMoved, log.actions, a.what.pr.links.Keys);
    AfreshStep(now, since, log.actions, a);
    PlacedAppend(conf, capacity, now, m.linkMoved, m.idleSince, log, a, id);
    ReservedPlace(conf.window, now, m.pending, log.actions, a);
    var m' := Memory(m.moved[a.pair := now], MarkAll(m.linkMoved, a.what.pr.links.Keys, now), m.idleSince - {id}, a.what.pending);
    CurrentAfter(conf, now, m, m', a.pair);
    SoundFrom(conf, capacity, now, m', log.(actions := log.actions + [a]));
  }

  lemma PlacedAppend(conf: Conf, capacity: Rates, now: Time, linkMoved: map<Link, Time>, idleSince: map<PathId, Time>,
                     log: Log, a: Action, id: PathId)
    requires a.Placed? && a.at == now && PlacementOk(conf, capacity, a.what)
    requires LinksMarked(MarkAll(linkMoved, a.what.pr.links.Keys, now), log.actions)
    requires IdleTracked(idleSince, log.first, log.exams)
    requires ReleasesOk(conf, log.exams, log.actions) && PlacementsOk(conf, capacity, log.actions)
    ensures LinksMarked(MarkAll(linkMoved, a.what.pr.links.Keys, now), log.actions + [a])
    ensures IdleTracked(idleSince - {id}, log.first, log.exams)
    ensures ReleasesOk(conf, log.exams, log.actions + [a]) && PlacementsOk(conf, capacity, log.actions + [a])
  {
    hide PlacementOk, IdleFrom;
    forall i | 0 <= i < |log.actions|
      ensures ReleaseOk(conf, log.exams, log.actions[i])
    {
    }
    assert ReleaseOk(conf, log.exams, a);
    hide ReleaseOk;
  }
}
